/** The checkout page of app/checkout/page.tsx: the totals shown, the
    three-step wizard, the prefilled forms, and order placement, which
    appends the new order to the stored order list and empties the cart.
    Money is modelled over reals (the tax is an exact 8%); the order id and
    timestamp are supplied by the caller. */
module Checkout {
  import opened Wrappers
  import Seqs
  import Catalog
  import Cart
  import Auth

  datatype ShippingInfo = ShippingInfo(firstName: string, lastName: string, email: string, phone: string,
                                       address: string, city: string, state: string, zipCode: string,
                                       country: string)

  datatype PaymentInfo = PaymentInfo(cardNumber: string, expiryDate: string, cvv: string, nameOnCard: string)

  /** What an order keeps of the payment form. */
  datatype PaymentSummary = PaymentSummary(last4: string, nameOnCard: string)

  datatype Order = Order(id: string, userId: string, items: seq<Cart.CartItemWithProduct>, total: real,
                         status: string, createdAt: int, shippingAddress: ShippingInfo,
                         paymentInfo: PaymentSummary)

  // ---------------------------------------------------------------- totals

  const TaxRate: real := 0.08
  const ShippingCost: real := 0.0

  function Tax(subtotal: real): real {
    subtotal * TaxRate
  }

  function Total(subtotal: real): real {
    subtotal + Tax(subtotal) + ShippingCost
  }

  /** Shipping is free, so the total is the subtotal plus 8%; it is never
      below the subtotal. */
  lemma TotalSpec(subtotal: real)
    requires subtotal >= 0.0
    ensures Total(subtotal) == subtotal * 1.08
    ensures Tax(subtotal) == Total(subtotal) - subtotal
    ensures subtotal <= Total(subtotal)
  {
  }

  // ------------------------------------------------------------- name split

  /** `name.split(" ")[0] || ""`. */
  function FirstName(name: string): string {
    Seqs.Split(name, ' ')[0]
  }

  /** `name.split(" ").slice(1).join(" ") || ""`. */
  function LastName(name: string): string {
    Seqs.Join(Seqs.Split(name, ' ')[1..], ' ')
  }

  /** A name without a space is all first name. */
  lemma NameWithoutSpace(name: string)
    requires ' ' !in name
    ensures FirstName(name) == name && LastName(name) == ""
  {
    Seqs.SplitNone(name, ' ');
  }

  /** With the first space at `k`, the first name is what precedes it, the
      last name is all that follows, and the two joined by a space give the
      name back. */
  lemma NameAtFirstSpace(name: string, k: nat)
    requires k < |name| && name[k] == ' ' && ' ' !in name[..k]
    ensures FirstName(name) == name[..k] && LastName(name) == name[k + 1..]
    ensures FirstName(name) + " " + LastName(name) == name
  {
    Seqs.SplitAt(name, ' ', k);
    Seqs.JoinSplit(name[k + 1..], ' ');
    assert name == name[..k] + [name[k]] + name[k + 1..];
  }

  /** The shipping form as first shown: names split from the user's name,
      the user's email, country "US", everything else blank. */
  function InitialShipping(user: Option<Auth.User>): ShippingInfo {
    match user
    case None => ShippingInfo("", "", "", "", "", "", "", "", "US")
    case Some(u) => ShippingInfo(FirstName(u.name), LastName(u.name), u.email, "", "", "", "", "", "US")
  }

  /** The payment form as first shown: the name on the card is the user's. */
  function InitialPayment(user: Option<Auth.User>): PaymentInfo {
    PaymentInfo("", "", "", if user.Some? then user.value.name else "")
  }

  /** For a signed-in user with a two-part name the forms start out with
      that user's details. */
  lemma InitialFormsFromUser(u: Auth.User, k: nat)
    requires k < |u.name| && u.name[k] == ' ' && ' ' !in u.name[..k]
    ensures var sh := InitialShipping(Some(u));
      sh.firstName == u.name[..k] && sh.lastName == u.name[k + 1..] && sh.email == u.email &&
      sh.firstName + " " + sh.lastName == InitialPayment(Some(u)).nameOnCard
  {
    NameAtFirstSpace(u.name, k);
  }

  // -------------------------------------------------------------- card digits

  /** `cardNumber.slice(-4)`: the last four characters, or all of a shorter
      number. */
  function Last4(cardNumber: string): (r: string)
    ensures |r| == if |cardNumber| < 4 then |cardNumber| else 4
    ensures cardNumber == cardNumber[..|cardNumber| - |r|] + r
  {
    if |cardNumber| < 4 then cardNumber else cardNumber[|cardNumber| - 4..]
  }

  // ------------------------------------------------------------------ steps

  datatype Step = Step(number: nat, title: string, completed: bool)

  /** The progress indicator for the current step. */
  function Steps(currentStep: int): seq<Step> {
    [Step(1, "Shipping", currentStep > 1), Step(2, "Payment", currentStep > 2), Step(3, "Review", false)]
  }

  /** Exactly the steps before the current one are ticked, and never the
      last: at step 1 none, at step 2 the first, at step 3 the first two. */
  lemma StepsCompletion(currentStep: int)
    requires 1 <= currentStep <= 3
    ensures |Steps(currentStep)| == 3
    ensures forall i :: 0 <= i < 3 ==>
      Steps(currentStep)[i].number == i + 1 &&
      (Steps(currentStep)[i].completed <==> i + 1 < currentStep && i < 2)
  {
  }

  /** The step a wizard is on; forms for the other steps are not shown. */
  class Wizard {
    var currentStep: int

    predicate Valid()
      reads this
    {
      1 <= currentStep <= 3
    }

    constructor ()
      ensures currentStep == 1 && Valid()
    {
      currentStep := 1;
    }

    /** `handleShippingSubmit`. */
    method SubmitShipping()
      modifies this
      ensures currentStep == 2 && Valid()
      ensures Steps(currentStep)[0].completed && !Steps(currentStep)[1].completed
    {
      currentStep := 2;
    }

    /** `handlePaymentSubmit`. */
    method SubmitPayment()
      modifies this
      ensures currentStep == 3 && Valid()
      ensures Steps(currentStep)[0].completed && Steps(currentStep)[1].completed
    {
      currentStep := 3;
    }

    /** The back button of the payment step. */
    method BackToShipping()
      modifies this
      ensures currentStep == 1 && Valid()
      ensures !Steps(currentStep)[0].completed
    {
      currentStep := 1;
    }

    /** The back button of the review step. */
    method BackToPayment()
      modifies this
      ensures currentStep == 2 && Valid()
      ensures !Steps(currentStep)[1].completed
    {
      currentStep := 2;
    }
  }

  // ---------------------------------------------------------- placing orders

  /** The page renders, and so offers placing an order, only for a signed-in
      user whose cart joins to at least one line. */
  predicate Renders(user: Option<Auth.User>, lines: seq<Cart.CartItemWithProduct>) {
    user.Some? && |lines| > 0
  }

  /** The order `handlePlaceOrder` builds from the page's state. */
  function NewOrder(items: seq<Cart.CartItem>, catalog: seq<Catalog.Product>, user: Auth.User,
                    shipping: ShippingInfo, payment: PaymentInfo, freshId: string, now: int): Order {
    Order(freshId, user.id, Cart.ItemsWithProducts(items, catalog), Total(Cart.TotalPrice(items, catalog) as real),
          "processing", now, shipping, PaymentSummary(Last4(payment.cardNumber), payment.nameOnCard))
  }

  /** A placed order is "processing", belongs to the user, carries the
      resolved cart lines, and its total is its own lines' price plus 8%. */
  lemma NewOrderSpec(items: seq<Cart.CartItem>, catalog: seq<Catalog.Product>, user: Auth.User,
                     shipping: ShippingInfo, payment: PaymentInfo, freshId: string, now: int)
    ensures var o := NewOrder(items, catalog, user, shipping, payment, freshId, now);
      o.status == "processing" && o.userId == user.id && o.id == freshId && o.createdAt == now &&
      Cart.Items(o.items) == Seqs.Filter(items, Cart.Resolves(catalog)) &&
      o.total == (Cart.LinesPrice(o.items) as real) * 1.08 &&
      o.total == (Cart.PriceByLookup(items, catalog) as real) * 1.08 &&
      o.paymentInfo.last4 == Last4(payment.cardNumber) && o.shippingAddress == shipping
  {
    Cart.JoinKeepsResolved(items, catalog);
    Cart.TotalPriceByLookup(items, catalog);
    TotalSpec(Cart.TotalPrice(items, catalog) as real);
  }

  /** Two units of the first seed product cost 96876 including tax. */
  lemma SeedOrderTotal(user: Auth.User, shipping: ShippingInfo, payment: PaymentInfo, freshId: string, now: int)
    ensures NewOrder([Cart.CartItem("c1", "1", 2, 0)], Catalog.SeedProducts(), user, shipping, payment,
                     freshId, now).total == 96876.0
  {
    var seed := Catalog.SeedProducts();
    var item := Cart.CartItem("c1", "1", 2, 0);
    Catalog.SeedWellFormed();
    Catalog.SeedFacts();
    Catalog.Seed1Facts();
    Catalog.FindProductDistinct(seed, 0);
    Cart.SingleLinePrice(item, seed, seed[0]);
    TotalSpec(Cart.TotalPrice([item], seed) as real);
  }

  /** The stored order list (`luxe_commerce_orders`). */
  class OrderStore {
    var orders: seq<Order>

    constructor (orders: seq<Order>)
      ensures this.orders == orders
    {
      this.orders := orders;
    }
  }

  /** `handlePlaceOrder`: build the order, append it to the stored list and
      empty the cart. */
  method PlaceOrder(cart: Cart.CartStore, store: OrderStore, catalog: seq<Catalog.Product>,
                    user: Option<Auth.User>, shipping: ShippingInfo, payment: PaymentInfo,
                    freshId: string, now: int) returns (order: Order)
    requires Renders(user, Cart.ItemsWithProducts(cart.items, catalog))
    modifies cart, store
    ensures order == NewOrder(old(cart.items), catalog, user.value, shipping, payment, freshId, now)
    ensures store.orders == old(store.orders) + [order]
    ensures cart.items == [] && Cart.TotalItems(cart.items) == 0
  {
    order := NewOrder(cart.items, catalog, user.value, shipping, payment, freshId, now);
    store.orders := store.orders + [order];
    cart.ClearCart();
  }
}
