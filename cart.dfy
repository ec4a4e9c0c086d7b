/** The cart store of contexts/cart-context.tsx. The `items` state is a
    field that each operation replaces with a new list computed from the old
    one; the derived values are pure functions of `items` and the catalog
    that `getProductById` searches. Browser storage is left out: the field is
    the state. */
module Cart {
  import opened Wrappers
  import Seqs
  import Catalog

  datatype CartItem = CartItem(id: string, productId: string, quantity: nat, addedAt: int)

  /** `CartItemWithProduct`: a line joined with the product it refers to. */
  datatype CartItemWithProduct = CartItemWithProduct(item: CartItem, product: Catalog.Product)

  /** No two lines refer to the same product. */
  predicate DistinctProducts(items: seq<CartItem>) {
    forall i, j :: 0 <= i < j < |items| ==> items[i].productId != items[j].productId
  }

  predicate HasProduct(items: seq<CartItem>, productId: string) {
    exists i :: 0 <= i < |items| && items[i].productId == productId
  }

  /** Number of lines that refer to `productId`. */
  function CountProduct(items: seq<CartItem>, productId: string): (n: nat)
    ensures n <= |items|
    ensures n == 0 <==> !HasProduct(items, productId)
  {
    if items == [] then 0
    else (if items[0].productId == productId then 1 else 0) + CountProduct(items[1..], productId)
  }

  /** `addItem`: raise the quantity of the lines for `productId` by `quantity`,
      or append a new line with the caller-supplied id and time when there is
      none. */
  function AddedItem(items: seq<CartItem>, productId: string, quantity: nat, freshId: string, now: int): seq<CartItem> {
    if HasProduct(items, productId) then Bumped(items, productId, quantity)
    else items + [CartItem(freshId, productId, quantity, now)]
  }

  /** The `map` of `addItem` over the lines of an existing product. */
  function Bumped(items: seq<CartItem>, productId: string, quantity: nat): (r: seq<CartItem>)
    ensures |r| == |items|
    ensures forall i :: 0 <= i < |items| ==>
      r[i] == (if items[i].productId == productId then items[i].(quantity := items[i].quantity + quantity) else items[i])
  {
    if items == [] then []
    else
      [if items[0].productId == productId then items[0].(quantity := items[0].quantity + quantity) else items[0]]
      + Bumped(items[1..], productId, quantity)
  }

  function NotId(itemId: string): CartItem -> bool {
    (it: CartItem) => it.id != itemId
  }

  /** `removeItem`: keep the lines whose id differs from `itemId`. */
  function RemovedItem(items: seq<CartItem>, itemId: string): seq<CartItem> {
    Seqs.Filter(items, NotId(itemId))
  }

  /** `updateQuantity`: remove when the quantity is not positive, otherwise
      set the quantity of the lines with id `itemId`. */
  function UpdatedQuantity(items: seq<CartItem>, itemId: string, quantity: int): seq<CartItem> {
    if quantity <= 0 then RemovedItem(items, itemId) else WithQuantity(items, itemId, quantity)
  }

  /** The `map` of `updateQuantity`. */
  function WithQuantity(items: seq<CartItem>, itemId: string, quantity: nat): (r: seq<CartItem>)
    ensures |r| == |items|
    ensures forall i :: 0 <= i < |items| ==>
      r[i] == (if items[i].id == itemId then items[i].(quantity := quantity) else items[i])
  {
    if items == [] then []
    else
      [if items[0].id == itemId then items[0].(quantity := quantity) else items[0]]
      + WithQuantity(items[1..], itemId, quantity)
  }

  /** `itemsWithProducts`: the lines whose product resolves, joined with it;
      lines whose product is unknown are dropped. */
  function ItemsWithProducts(items: seq<CartItem>, catalog: seq<Catalog.Product>): (r: seq<CartItemWithProduct>)
    ensures |r| <= |items|
    ensures forall k :: 0 <= k < |r| ==>
      r[k].item in items && Catalog.FindProduct(catalog, r[k].item.productId) == Some(r[k].product)
  {
    if items == [] then []
    else
      var rest := ItemsWithProducts(items[1..], catalog);
      match Catalog.FindProduct(catalog, items[0].productId)
      case Some(p) => [CartItemWithProduct(items[0], p)] + rest
      case None => rest
  }

  /** `totalItems`: the sum of the quantities of all lines, resolved or not. */
  function TotalItems(items: seq<CartItem>): nat {
    if items == [] then 0 else items[0].quantity + TotalItems(items[1..])
  }

  /** The sum of price times quantity over joined lines. */
  function LinesPrice(lines: seq<CartItemWithProduct>): nat {
    if lines == [] then 0
    else lines[0].product.price * lines[0].item.quantity + LinesPrice(lines[1..])
  }

  /** `totalPrice`: the price of the lines whose product resolves. */
  function TotalPrice(items: seq<CartItem>, catalog: seq<Catalog.Product>): nat {
    LinesPrice(ItemsWithProducts(items, catalog))
  }

  /** The line's product resolves in the catalog. */
  function Resolves(catalog: seq<Catalog.Product>): CartItem -> bool {
    (it: CartItem) => Catalog.FindProduct(catalog, it.productId).Some?
  }

  function Unresolved(catalog: seq<Catalog.Product>): CartItem -> bool {
    (it: CartItem) => Catalog.FindProduct(catalog, it.productId).None?
  }

  /** What one line contributes to the price, looked up on its own. */
  function LinePrice(it: CartItem, catalog: seq<Catalog.Product>): nat {
    match Catalog.FindProduct(catalog, it.productId)
    case Some(p) => p.price * it.quantity
    case None => 0
  }

  /** Reference definition of the price: each line priced independently. */
  function PriceByLookup(items: seq<CartItem>, catalog: seq<Catalog.Product>): nat {
    if items == [] then 0 else LinePrice(items[0], catalog) + PriceByLookup(items[1..], catalog)
  }

  function Items(lines: seq<CartItemWithProduct>): (r: seq<CartItem>)
    ensures |r| == |lines| && forall k :: 0 <= k < |r| ==> r[k] == lines[k].item
  {
    if lines == [] then [] else [lines[0].item] + Items(lines[1..])
  }

  // ---------------------------------------------------------------- lemmas

  /** A cart of one line whose product resolves costs that product's price
      times the line's quantity. */
  lemma SingleLinePrice(it: CartItem, catalog: seq<Catalog.Product>, p: Catalog.Product)
    requires Catalog.FindProduct(catalog, it.productId) == Some(p)
    ensures TotalPrice([it], catalog) == p.price * it.quantity
  {
    assert [it][1..] == [];
    assert ItemsWithProducts([it], catalog) == [CartItemWithProduct(it, p)];
    var lines := [CartItemWithProduct(it, p)];
    assert lines[1..] == [];
    assert LinesPrice(lines) == p.price * it.quantity + LinesPrice([]);
  }

  /** `addItem` on a product already in the cart: same length, each line for
      that product gains exactly `quantity`, every other line is unchanged. */
  lemma AddExisting(items: seq<CartItem>, productId: string, quantity: nat, freshId: string, now: int)
    requires HasProduct(items, productId)
    ensures var r := AddedItem(items, productId, quantity, freshId, now);
      |r| == |items| &&
      forall i :: 0 <= i < |items| ==>
        if items[i].productId == productId
        then r[i] == items[i].(quantity := items[i].quantity + quantity)
        else r[i] == items[i]
  {
  }

  /** `addItem` on a product not in the cart appends exactly one new line
      after the unchanged old ones. */
  lemma AddNew(items: seq<CartItem>, productId: string, quantity: nat, freshId: string, now: int)
    requires !HasProduct(items, productId)
    ensures var r := AddedItem(items, productId, quantity, freshId, now);
      |r| == |items| + 1 && r[..|items|] == items &&
      r[|items|] == CartItem(freshId, productId, quantity, now)
  {
  }

  /** `addItem` keeps product ids pairwise distinct, and afterwards exactly
      one line refers to the added product. */
  lemma AddKeepsDistinct(items: seq<CartItem>, productId: string, quantity: nat, freshId: string, now: int)
    requires DistinctProducts(items)
    ensures DistinctProducts(AddedItem(items, productId, quantity, freshId, now))
    ensures CountProduct(AddedItem(items, productId, quantity, freshId, now), productId) == 1
  {
    if HasProduct(items, productId) {
      var k :| 0 <= k < |items| && items[k].productId == productId;
      BumpKeepsIds(items, productId, quantity, k);
    } else {
      AppendKeepsDistinct(items, CartItem(freshId, productId, quantity, now));
    }
  }

  /** Bumping quantities leaves every line's product where it was. */
  lemma BumpKeepsIds(items: seq<CartItem>, productId: string, quantity: nat, k: nat)
    requires DistinctProducts(items) && k < |items| && items[k].productId == productId
    ensures DistinctProducts(Bumped(items, productId, quantity))
    ensures CountProduct(Bumped(items, productId, quantity), productId) == 1
  {
    var r := Bumped(items, productId, quantity);
    assert forall i :: 0 <= i < |items| ==> r[i].productId == items[i].productId;
    OnlyOne(r, productId, k);
  }

  /** A line for a product not yet in the cart keeps products distinct. */
  lemma AppendKeepsDistinct(items: seq<CartItem>, it: CartItem)
    requires DistinctProducts(items) && !HasProduct(items, it.productId)
    ensures DistinctProducts(items + [it])
    ensures CountProduct(items + [it], it.productId) == 1
  {
    OnlyOne(items + [it], it.productId, |items|);
  }

  /** In a cart with distinct products, a product present at `k` is counted once. */
  lemma {:induction false} OnlyOne(items: seq<CartItem>, productId: string, k: nat)
    requires DistinctProducts(items) && k < |items| && items[k].productId == productId
    ensures CountProduct(items, productId) == 1
  {
    if k == 0 {
      assert !HasProduct(items[1..], productId) by {
        forall i | 0 <= i < |items[1..]| ensures items[1..][i].productId != productId {
          assert items[1..][i] == items[i + 1];
        }
      }
    } else {
      OnlyOne(items[1..], productId, k - 1);
    }
  }

  /** The number of units in the cart grows by `quantity` for every line of
      the product (by `quantity` once when the product was new). */
  lemma {:induction false} AddTotalItems(items: seq<CartItem>, productId: string, quantity: nat, freshId: string, now: int)
    ensures TotalItems(AddedItem(items, productId, quantity, freshId, now)) ==
      TotalItems(items) + quantity * (if HasProduct(items, productId) then CountProduct(items, productId) else 1)
  {
    if HasProduct(items, productId) {
      BumpTotal(items, productId, quantity);
    } else {
      TotalItemsAppend(items, [CartItem(freshId, productId, quantity, now)]);
    }
  }

  lemma {:induction false} BumpTotal(items: seq<CartItem>, productId: string, quantity: nat)
    ensures TotalItems(Bumped(items, productId, quantity)) == TotalItems(items) + quantity * CountProduct(items, productId)
  {
    if items != [] {
      var t := items[1..];
      var c := CountProduct(t, productId);
      BumpTotal(t, productId, quantity);
      BumpFirst(items, productId, quantity);
      var n := CountProduct(items, productId);
      if items[0].productId == productId {
        assert n == 1 + c;
        MulSucc(quantity, c, n);
      } else {
        assert n == c;
      }
    }
  }

  /** `Bumped` on a non-empty cart: the first line, then the rest bumped. */
  lemma BumpFirst(items: seq<CartItem>, productId: string, quantity: nat)
    requires items != []
    ensures TotalItems(Bumped(items, productId, quantity)) ==
      items[0].quantity + (if items[0].productId == productId then quantity else 0) +
      TotalItems(Bumped(items[1..], productId, quantity))
  {
    var r := Bumped(items, productId, quantity);
    assert r[1..] == Bumped(items[1..], productId, quantity);
  }

  lemma MulSucc(q: nat, c: nat, n: nat)
    requires n == 1 + c
    ensures q * n == q + q * c
  {
  }

  lemma {:induction false} TotalItemsAppend(a: seq<CartItem>, b: seq<CartItem>)
    ensures TotalItems(a + b) == TotalItems(a) + TotalItems(b)
  {
    if a == [] {
      assert a + b == b;
    } else {
      assert (a + b)[1..] == a[1..] + b;
      TotalItemsAppend(a[1..], b);
    }
  }

  /** `removeItem`: no line with that id is left, every other line stays,
      and the order is kept (removal distributes over concatenation). */
  lemma RemoveItemSpec(items: seq<CartItem>, more: seq<CartItem>, itemId: string)
    ensures forall it :: it in RemovedItem(items, itemId) <==> it in items && it.id != itemId
    ensures RemovedItem(items + more, itemId) == RemovedItem(items, itemId) + RemovedItem(more, itemId)
    ensures (forall i :: 0 <= i < |items| ==> items[i].id != itemId) ==> RemovedItem(items, itemId) == items
  {
    Seqs.FilterAppend(items, more, NotId(itemId));
    if forall i :: 0 <= i < |items| ==> items[i].id != itemId {
      Seqs.FilterAll(items, NotId(itemId));
    }
  }

  /** Prepending a line whose product no later line has keeps product ids
      distinct. */
  lemma ConsKeepsDistinct(it: CartItem, rest: seq<CartItem>)
    requires DistinctProducts(rest)
    requires forall x :: x in rest ==> x.productId != it.productId
    ensures DistinctProducts([it] + rest)
  {
    var r := [it] + rest;
    forall i, j | 0 <= i < j < |r|
      ensures r[i].productId != r[j].productId
    {
      assert r[j] == rest[j - 1];
      if i > 0 {
        assert r[i] == rest[i - 1];
      }
    }
  }

  /** `removeItem` keeps the product ids of the cart distinct. */
  lemma {:induction false} RemoveKeepsDistinct(items: seq<CartItem>, itemId: string)
    requires DistinctProducts(items)
    ensures DistinctProducts(RemovedItem(items, itemId))
  {
    if items != [] {
      var tail := items[1..];
      assert DistinctProducts(tail) by {
        forall i, j | 0 <= i < j < |tail|
          ensures tail[i].productId != tail[j].productId
        {
          assert tail[i] == items[i + 1] && tail[j] == items[j + 1];
        }
      }
      RemoveKeepsDistinct(tail, itemId);
      Seqs.FilterCons(items, NotId(itemId));
      var rest := RemovedItem(tail, itemId);
      forall x | x in rest
        ensures x.productId != items[0].productId
      {
        var k :| 0 <= k < |tail| && tail[k] == x;
        assert items[k + 1] == x;
      }
      if items[0].id != itemId {
        ConsKeepsDistinct(items[0], rest);
      }
    }
  }

  /** `updateQuantity` keeps the product ids of the cart distinct: it either
      removes the lines with the id or changes only their quantity. */
  lemma UpdateKeepsDistinct(items: seq<CartItem>, itemId: string, quantity: int)
    requires DistinctProducts(items)
    ensures DistinctProducts(UpdatedQuantity(items, itemId, quantity))
  {
    if quantity <= 0 {
      RemoveKeepsDistinct(items, itemId);
    }
  }

  /** `updateQuantity` with a quantity that is not positive is `removeItem`. */
  lemma UpdateNonPositiveRemoves(items: seq<CartItem>, itemId: string, quantity: int)
    requires quantity <= 0
    ensures UpdatedQuantity(items, itemId, quantity) == RemovedItem(items, itemId)
    ensures forall it :: it in UpdatedQuantity(items, itemId, quantity) ==> it.id != itemId
  {
  }

  /** `updateQuantity` with a positive quantity sets that quantity on the
      lines with the id and changes nothing else, length included. */
  lemma UpdatePositiveSets(items: seq<CartItem>, itemId: string, quantity: int)
    requires quantity > 0
    ensures var r := UpdatedQuantity(items, itemId, quantity);
      |r| == |items| &&
      forall i :: 0 <= i < |items| ==>
        if items[i].id == itemId then r[i] == items[i].(quantity := quantity) else r[i] == items[i]
  {
  }

  /** The join keeps exactly the lines whose product resolves, in cart order. */
  lemma {:induction false} JoinKeepsResolved(items: seq<CartItem>, catalog: seq<Catalog.Product>)
    ensures Items(ItemsWithProducts(items, catalog)) == Seqs.Filter(items, Resolves(catalog))
  {
    if items != [] {
      JoinKeepsResolved(items[1..], catalog);
    }
  }

  /** `totalPrice` is the per-line lookup price summed over the whole cart:
      unresolved lines contribute nothing. */
  lemma {:induction false} TotalPriceByLookup(items: seq<CartItem>, catalog: seq<Catalog.Product>)
    ensures TotalPrice(items, catalog) == PriceByLookup(items, catalog)
  {
    if items != [] {
      TotalPriceByLookup(items[1..], catalog);
    }
  }

  /** `totalItems` counts unresolved lines too: it is the resolved lines'
      units plus the unresolved lines' units. */
  lemma {:induction false} TotalItemsSplit(items: seq<CartItem>, catalog: seq<Catalog.Product>)
    ensures TotalItems(items) ==
      TotalItems(Items(ItemsWithProducts(items, catalog))) +
      TotalItems(Seqs.Filter(items, Unresolved(catalog)))
  {
    if items != [] {
      TotalItemsSplit(items[1..], catalog);
      var dropped := Seqs.Filter(items[1..], Unresolved(catalog));
      var rest := ItemsWithProducts(items[1..], catalog);
      match Catalog.FindProduct(catalog, items[0].productId)
      case Some(p) =>
        var lines := [CartItemWithProduct(items[0], p)] + rest;
        assert ItemsWithProducts(items, catalog) == lines;
        assert lines[1..] == rest;
        assert Items(lines) == [items[0]] + Items(rest);
        assert Seqs.Filter(items, Unresolved(catalog)) == dropped;
      case None =>
        assert ItemsWithProducts(items, catalog) == rest;
        assert Seqs.Filter(items, Unresolved(catalog)) == [items[0]] + dropped;
        TotalItemsAppend([items[0]], dropped);
    }
  }

  /** An empty cart holds no units and costs nothing. */
  lemma EmptyTotals(catalog: seq<Catalog.Product>)
    ensures TotalItems([]) == 0 && TotalPrice([], catalog) == 0 && ItemsWithProducts([], catalog) == []
  {
  }

  // ------------------------------------------------------------ the store

  /** The `CartProvider` state. */
  class CartStore {
    var items: seq<CartItem>

    constructor ()
      ensures items == []
      ensures DistinctProducts(items)
    {
      items := [];
    }

    method AddItem(productId: string, quantity: nat, freshId: string, now: int)
      modifies this
      ensures items == AddedItem(old(items), productId, quantity, freshId, now)
      ensures DistinctProducts(old(items)) ==> DistinctProducts(items)
      ensures TotalItems(items) == TotalItems(old(items)) +
        quantity * (if HasProduct(old(items), productId) then CountProduct(old(items), productId) else 1)
    {
      if DistinctProducts(items) {
        AddKeepsDistinct(items, productId, quantity, freshId, now);
      }
      AddTotalItems(items, productId, quantity, freshId, now);
      items := AddedItem(items, productId, quantity, freshId, now);
    }

    method RemoveItem(itemId: string)
      modifies this
      ensures items == RemovedItem(old(items), itemId)
      ensures forall it :: it in items ==> it.id != itemId
      ensures DistinctProducts(old(items)) ==> DistinctProducts(items)
    {
      if DistinctProducts(items) {
        RemoveKeepsDistinct(items, itemId);
      }
      items := RemovedItem(items, itemId);
    }

    method UpdateQuantity(itemId: string, quantity: int)
      modifies this
      ensures items == UpdatedQuantity(old(items), itemId, quantity)
      ensures quantity <= 0 ==> items == RemovedItem(old(items), itemId)
      ensures DistinctProducts(old(items)) ==> DistinctProducts(items)
    {
      if DistinctProducts(items) {
        UpdateKeepsDistinct(items, itemId, quantity);
      }
      if quantity <= 0 {
        RemoveItem(itemId);
        return;
      }
      items := UpdatedQuantity(items, itemId, quantity);
    }

    method ClearCart()
      modifies this
      ensures items == []
      ensures TotalItems(items) == 0
      ensures DistinctProducts(items)
    {
      items := [];
    }
  }
}
