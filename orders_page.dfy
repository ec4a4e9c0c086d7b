/** The customer's order history, app/orders/page.tsx: the stored orders
    of the signed-in user, newest first. Without a user nothing is loaded
    and the page shows nothing. */
module OrdersPage {
  import opened Wrappers
  import Seqs
  import Sorting
  import Auth
  import Checkout
  import AdminOrders

  type Order = Checkout.Order

  function OwnedBy(userId: string): Order -> bool {
    (o: Order) => o.userId == userId
  }

  /** The user's orders: filtered by owner, then sorted newest first in
      place. Every listed order is the user's, each of the user's stored
      orders is listed as often as it is stored, and the list is newest
      first. */
  method UserOrders(orders: seq<Order>, userId: string) returns (r: seq<Order>)
    ensures r == Sorting.SortDesc(Seqs.Filter(orders, OwnedBy(userId)), AdminOrders.CreatedAt)
    ensures forall i :: 0 <= i < |r| ==> r[i].userId == userId
    ensures forall o: Order :: o.userId == userId ==> multiset(r)[o] == multiset(orders)[o]
    ensures Sorting.SortedDesc(r, AdminOrders.CreatedAt)
  {
    var mine := Seqs.Filter(orders, OwnedBy(userId));
    var a := new Order[|mine|](i requires 0 <= i < |mine| => mine[i]);
    assert a[..] == mine;
    Sorting.SortInPlace(a, AdminOrders.CreatedAt);
    r := a[..];
    Sorting.SortDescSorted(mine, AdminOrders.CreatedAt);
    forall i | 0 <= i < |r| ensures r[i].userId == userId {
      assert r[i] in multiset(mine);
    }
    forall o: Order | o.userId == userId ensures multiset(r)[o] == multiset(orders)[o] {
      Seqs.FilterCount(orders, OwnedBy(userId), o);
    }
  }

  /** What the page shows. */
  datatype View = Spinner | Blank | History(orders: seq<Order>)

  function PageView(isLoading: bool, user: Option<Auth.User>, orders: seq<Order>): View {
    if isLoading then Spinner
    else if user.None? then Blank
    else History(orders)
  }

  /** Once the session is known and there is no user, the page sends the
      visitor to the login page. */
  predicate RedirectsToLogin(isLoading: bool, user: Option<Auth.User>) {
    !isLoading && user.None?
  }

  /** Without a user the page shows no orders at all. */
  lemma NoUserNoOrders(isLoading: bool, orders: seq<Order>)
    ensures !PageView(isLoading, None, orders).History?
    ensures RedirectsToLogin(isLoading, None) <==> PageView(isLoading, None, orders) == Blank
  {
  }

  /** The page's `orders` state. */
  class OrderHistory {
    var orders: seq<Order>

    constructor ()
      ensures orders == []
    {
      orders := [];
    }

    /** The load effect, which runs only when there is a user. */
    method Load(user: Option<Auth.User>, store: Checkout.OrderStore)
      modifies this
      ensures user.None? ==> orders == old(orders)
      ensures user.Some? ==>
        orders == Sorting.SortDesc(Seqs.Filter(store.orders, OwnedBy(user.value.id)), AdminOrders.CreatedAt)
    {
      if user.Some? {
        orders := UserOrders(store.orders, user.value.id);
      }
    }
  }
}
