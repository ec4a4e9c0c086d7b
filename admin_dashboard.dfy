/** The statistics of the admin dashboard, app/admin/page.tsx: revenue,
    order, product and customer counts, the five most recent orders, and the
    five best-selling products. The orders are sorted newest first in place
    before the sales are tallied, so the tally walks the orders in that
    order; it is kept in a dictionary updated line by line, modelled as a map
    with its keys in insertion order. */
module AdminDashboard {
  import Seqs
  import Sorting
  import Catalog
  import Cart
  import Auth
  import Checkout
  import AdminOrders

  type Order = Checkout.Order
  type Line = Cart.CartItemWithProduct

  /** `totalRevenue`: the sum of the order totals. */
  function TotalRevenue(orders: seq<Order>): real {
    if orders == [] then 0.0 else TotalRevenue(orders[..|orders| - 1]) + orders[|orders| - 1].total
  }

  /** Revenue adds up over a split of the orders, and is never negative
      when no total is. */
  lemma {:induction false} TotalRevenueAppend(a: seq<Order>, b: seq<Order>)
    ensures TotalRevenue(a + b) == TotalRevenue(a) + TotalRevenue(b)
  {
    if b != [] {
      TotalRevenueAppend(a, b[..|b| - 1]);
      assert (a + b)[..|a + b| - 1] == a + b[..|b| - 1];
    } else {
      assert a + b == a;
    }
  }

  lemma {:induction false} TotalRevenueNonNegative(orders: seq<Order>)
    requires forall i :: 0 <= i < |orders| ==> orders[i].total >= 0.0
    ensures TotalRevenue(orders) >= 0.0
  {
    if orders != [] {
      TotalRevenueNonNegative(orders[..|orders| - 1]);
    }
  }

  function IsCustomer(u: Auth.User): bool { u.role == Auth.Customer }
  function IsAdmin(u: Auth.User): bool { u.role == Auth.Admin }

  /** `totalCustomers`. */
  function TotalCustomers(users: seq<Auth.User>): nat {
    |Seqs.Filter(users, IsCustomer)|
  }

  /** Every user is a customer or an administrator, so the customers and
      the administrators together are all the users. */
  lemma {:induction false} CustomersAndAdmins(users: seq<Auth.User>)
    ensures TotalCustomers(users) + |Seqs.Filter(users, IsAdmin)| == |users|
    ensures TotalCustomers(users) <= |users|
  {
    if users != [] {
      CustomersAndAdmins(users[1..]);
    }
  }

  /** `recentOrders`: the five newest orders. */
  function RecentOrders(orders: seq<Order>): seq<Order> {
    Sorting.Top(orders, AdminOrders.CreatedAt, 5)
  }

  /** At most five orders, newest first, all stored, and no stored order
      left out is newer than one shown. */
  lemma RecentOrdersSpec(orders: seq<Order>)
    ensures |RecentOrders(orders)| <= 5
    ensures Sorting.SortedDesc(RecentOrders(orders), AdminOrders.CreatedAt)
    ensures forall o :: o in RecentOrders(orders) ==> o in orders
    ensures forall o :: o in orders && o !in RecentOrders(orders) ==>
      forall r :: r in RecentOrders(orders) ==> r.createdAt >= o.createdAt
  {
    Sorting.TopSpec(orders, AdminOrders.CreatedAt, 5);
  }

  // --------------------------------------------------------------- the tally

  /** One entry of `productSales`: the product snapshot and the quantity. */
  datatype Sale = Sale(product: Catalog.Product, quantity: nat)

  /** `productSales`, with its keys in the order they were first set. */
  datatype Sales = Sales(keys: seq<string>, byProduct: map<string, Sale>)

  /** All order lines, order after order. */
  function Lines(orders: seq<Order>): seq<Line> {
    if orders == [] then [] else Lines(orders[..|orders| - 1]) + orders[|orders| - 1].items
  }

  /** Some line is for the product. */
  predicate Sold(lines: seq<Line>, productId: string) {
    exists i :: 0 <= i < |lines| && lines[i].item.productId == productId
  }

  /** The body of the inner `forEach`: add the line's quantity, or start an
      entry with the line's product. */
  function Record(t: Sales, line: Line): Sales {
    var id := line.item.productId;
    if id in t.byProduct then
      t.(byProduct := t.byProduct[id := t.byProduct[id].(quantity := t.byProduct[id].quantity + line.item.quantity)])
    else Sales(t.keys + [id], t.byProduct[id := Sale(line.product, line.item.quantity)])
  }

  /** The tally after the lines, one at a time. Its keys are each tallied
      product once, and exactly the entries of the map. */
  function Tally(lines: seq<Line>): (r: Sales)
    ensures Seqs.NoDuplicates(r.keys)
    ensures forall id :: id in r.keys <==> id in r.byProduct
  {
    if lines == [] then Sales([], map[])
    else Record(Tally(lines[..|lines| - 1]), lines[|lines| - 1])
  }

  /** A product has an entry iff some line is for it. */
  lemma {:induction false} TallySold(lines: seq<Line>, productId: string)
    ensures productId in Tally(lines).byProduct <==> Sold(lines, productId)
  {
    if lines != [] {
      var prefix := lines[..|lines| - 1];
      TallySold(prefix, productId);
      if Sold(prefix, productId) {
        var i :| 0 <= i < |prefix| && prefix[i].item.productId == productId;
        assert lines[i] == prefix[i];
      }
      if Sold(lines, productId) && lines[|lines| - 1].item.productId != productId {
        var i :| 0 <= i < |lines| && lines[i].item.productId == productId;
        assert prefix[i] == lines[i];
      }
    }
  }

  /** The sum of the quantities of the lines for the product. */
  function SumQuantity(lines: seq<Line>, productId: string): nat {
    if lines == [] then 0
    else
      var last := lines[|lines| - 1];
      SumQuantity(lines[..|lines| - 1], productId) + (if last.item.productId == productId then last.item.quantity else 0)
  }

  /** Each product's quantity is the sum over all lines for it. */
  lemma {:induction false} TallyQuantity(lines: seq<Line>, productId: string)
    ensures SumQuantity(lines, productId) ==
      if productId in Tally(lines).byProduct then Tally(lines).byProduct[productId].quantity else 0
  {
    if lines != [] {
      TallyQuantity(lines[..|lines| - 1], productId);
    }
  }

  /** Line `i` is the first line for the product. */
  predicate FirstFor(lines: seq<Line>, productId: string, i: int) {
    0 <= i < |lines| && lines[i].item.productId == productId &&
    forall j :: 0 <= j < i ==> lines[j].item.productId != productId
  }

  /** Each product's snapshot is the one of its first line. */
  lemma {:induction false} TallyFirstSnapshot(lines: seq<Line>, productId: string)
    requires productId in Tally(lines).byProduct
    ensures exists i :: FirstFor(lines, productId, i) && Tally(lines).byProduct[productId].product == lines[i].product
  {
    var prefix := lines[..|lines| - 1];
    if productId in Tally(prefix).byProduct {
      TallyFirstSnapshot(prefix, productId);
      var i :| FirstFor(prefix, productId, i) && Tally(prefix).byProduct[productId].product == prefix[i].product;
      SnapshotKept(lines, productId, i);
    } else {
      SnapshotNew(lines, productId);
    }
  }

  /** A product already tallied keeps its snapshot, and its first line in
      the prefix is its first line overall. */
  lemma SnapshotKept(lines: seq<Line>, productId: string, i: int)
    requires lines != [] && productId in Tally(lines[..|lines| - 1]).byProduct
    requires FirstFor(lines[..|lines| - 1], productId, i)
    ensures FirstFor(lines, productId, i)
    ensures Tally(lines).byProduct[productId].product == Tally(lines[..|lines| - 1]).byProduct[productId].product
  {
    var prefix := lines[..|lines| - 1];
    forall j | 0 <= j <= i ensures lines[j] == prefix[j] { }
    RecordKeepsProduct(Tally(prefix), lines[|lines| - 1], productId);
  }

  /** Recording a line never replaces an existing snapshot. */
  lemma RecordKeepsProduct(t: Sales, line: Line, productId: string)
    requires productId in t.byProduct
    ensures productId in Record(t, line).byProduct
    ensures Record(t, line).byProduct[productId].product == t.byProduct[productId].product
  {
  }

  /** A product first seen on the last line takes that line's snapshot. */
  lemma SnapshotNew(lines: seq<Line>, productId: string)
    requires lines != [] && productId in Tally(lines).byProduct
    requires productId !in Tally(lines[..|lines| - 1]).byProduct
    ensures FirstFor(lines, productId, |lines| - 1)
    ensures Tally(lines).byProduct[productId].product == lines[|lines| - 1].product
  {
    var prefix := lines[..|lines| - 1];
    TallySold(prefix, productId);
    forall j | 0 <= j < |lines| - 1 ensures lines[j].item.productId != productId {
      assert prefix[j] == lines[j];
    }
  }

  /** One more line is one more `Record`. */
  lemma TallySnoc(done: seq<Line>, line: Line)
    ensures Tally(done + [line]) == Record(Tally(done), line)
  {
    assert (done + [line])[..|done|] == done;
  }

  /** One more order adds its lines at the end. */
  lemma LinesSnoc(orders: seq<Order>, i: nat)
    requires i < |orders|
    ensures Lines(orders[..i + 1]) == Lines(orders[..i]) + orders[i].items
  {
    assert orders[..i + 1][..i] == orders[..i];
  }

  /** The body of the inner `forEach`, on the dictionary and its keys. */
  method RecordLine(keys: seq<string>, sales: map<string, Sale>, line: Line)
    returns (keys': seq<string>, sales': map<string, Sale>)
    ensures Sales(keys', sales') == Record(Sales(keys, sales), line)
  {
    var id := line.item.productId;
    keys', sales' := keys, sales;
    if id in sales' {
      sales' := sales'[id := sales'[id].(quantity := sales'[id].quantity + line.item.quantity)];
    } else {
      sales' := sales'[id := Sale(line.product, line.item.quantity)];
      keys' := keys' + [id];
    }
  }

  lemma RecordItemsStep(before: seq<Line>, items: seq<Line>, j: nat)
    requires j < |items|
    ensures Tally(before + items[..j + 1]) == Record(Tally(before + items[..j]), items[j])
  {
    assert before + items[..j + 1] == before + items[..j] + [items[j]];
    TallySnoc(before + items[..j], items[j]);
  }

  /** The outer `forEach` over the orders. */
  method ProductSales(orders: seq<Order>) returns (r: Sales)
    ensures r == Tally(Lines(orders))
  {
    r := Sales([], map[]);
    var i := 0;
    while i < |orders|
      invariant 0 <= i <= |orders|
      invariant r == Tally(Lines(orders[..i]))
    {
      r := RecordItems(r, Lines(orders[..i]), orders[i].items);
      LinesSnoc(orders, i);
      i := i + 1;
    }
    assert orders[..i] == orders;
  }

  /** The inner `forEach` over one order's items, updating the dictionary
      in place. */
  method RecordItems(t: Sales, ghost before: seq<Line>, items: seq<Line>) returns (r: Sales)
    requires t == Tally(before)
    ensures r == Tally(before + items)
  {
    var keys, sales := t.keys, t.byProduct;
    var j := 0;
    assert before + items[..j] == before;
    while j < |items|
      invariant 0 <= j <= |items|
      invariant Sales(keys, sales) == Tally(before + items[..j])
    {
      keys, sales := RecordLine(keys, sales, items[j]);
      RecordItemsStep(before, items, j);
      j := j + 1;
    }
    assert items[..j] == items;
    r := Sales(keys, sales);
  }

  lemma {:induction false} SumQuantityAppend(a: seq<Line>, b: seq<Line>, productId: string)
    ensures SumQuantity(a + b, productId) == SumQuantity(a, productId) + SumQuantity(b, productId)
  {
    if b == [] {
      assert a + b == a;
    } else {
      SumQuantityAppend(a, b[..|b| - 1], productId);
      assert (a + b)[..|a + b| - 1] == a + b[..|b| - 1];
    }
  }

  lemma {:induction false} LinesAppend(a: seq<Order>, b: seq<Order>)
    ensures Lines(a + b) == Lines(a) + Lines(b)
  {
    if b == [] {
      assert a + b == a;
    } else {
      var b', last := b[..|b| - 1], b[|b| - 1];
      LinesAppend(a, b');
      assert (a + b)[..|a + b| - 1] == a + b';
      assert (a + b)[|a + b| - 1] == last;
      assert Lines(a + b) == Lines(a + b') + last.items;
      assert Lines(b) == Lines(b') + last.items;
    }
  }

  /** The quantity sold of a product over orders. */
  function OrdersQuantity(orders: seq<Order>, productId: string): nat {
    SumQuantity(Lines(orders), productId)
  }

  lemma OrdersQuantityCons(o: Order, rest: seq<Order>, productId: string)
    ensures OrdersQuantity([o] + rest, productId) == SumQuantity(o.items, productId) + OrdersQuantity(rest, productId)
  {
    LinesAppend([o], rest);
    assert [o][..0] == [];
    assert Lines([o]) == Lines([]) + o.items;
    assert [] + o.items == o.items;
    SumQuantityAppend(o.items, Lines(rest), productId);
  }

  lemma {:induction false} InsertKeepsQuantity(s: seq<Order>, o: Order, productId: string)
    ensures OrdersQuantity(Sorting.Insert(s, o, AdminOrders.CreatedAt), productId) ==
      OrdersQuantity(s, productId) + SumQuantity(o.items, productId)
  {
    if s == [] {
      OrdersQuantityCons(o, [], productId);
    } else if s[0].createdAt >= o.createdAt {
      InsertKeepsQuantity(s[1..], o, productId);
      OrdersQuantityCons(s[0], Sorting.Insert(s[1..], o, AdminOrders.CreatedAt), productId);
      OrdersQuantityCons(s[0], s[1..], productId);
      assert [s[0]] + s[1..] == s;
    } else {
      OrdersQuantityCons(o, s, productId);
    }
  }

  /** Sorting the orders first changes no product's quantity: the tally of
      the sorted orders sums every line of every stored order. */
  lemma {:induction false} SortKeepsQuantity(orders: seq<Order>, productId: string)
    ensures OrdersQuantity(Sorting.SortDesc(orders, AdminOrders.CreatedAt), productId) ==
      OrdersQuantity(orders, productId)
  {
    if orders != [] {
      var prefix, last := orders[..|orders| - 1], orders[|orders| - 1];
      SortKeepsQuantity(prefix, productId);
      InsertKeepsQuantity(Sorting.SortDesc(prefix, AdminOrders.CreatedAt), last, productId);
      SumQuantityAppend(Lines(prefix), last.items, productId);
    }
  }

  /** The dashboard's quantity for each product is the sum of the
      quantities of every line for it in every stored order. */
  lemma DashboardQuantity(orders: seq<Order>, productId: string)
    ensures var t := Tally(Lines(Sorting.SortDesc(orders, AdminOrders.CreatedAt)));
      OrdersQuantity(orders, productId) == if productId in t.byProduct then t.byProduct[productId].quantity else 0
  {
    SortKeepsQuantity(orders, productId);
    TallyQuantity(Lines(Sorting.SortDesc(orders, AdminOrders.CreatedAt)), productId);
  }

  // ----------------------------------------------------------- top products

  /** `Object.values(productSales)`, in key order. */
  function Values(t: Sales): (r: seq<Sale>)
    requires forall id :: id in t.keys ==> id in t.byProduct
    ensures |r| == |t.keys|
    ensures forall i :: 0 <= i < |r| ==> r[i] == t.byProduct[t.keys[i]]
  {
    seq(|t.keys|, i requires 0 <= i < |t.keys| => t.byProduct[t.keys[i]])
  }

  function Quantity(s: Sale): int { s.quantity }

  /** `topProducts`: the five entries with the largest quantities. */
  function TopProducts(t: Sales): seq<Sale>
    requires forall id :: id in t.keys ==> id in t.byProduct
  {
    Sorting.Top(Values(t), Quantity, 5)
  }

  /** At most five entries, by non-increasing quantity, each an entry of
      the tally, and no entry left out sold more than one shown. */
  lemma TopProductsSpec(lines: seq<Line>)
    ensures var t := Tally(lines);
      var top := TopProducts(t);
      |top| <= 5 && Sorting.SortedDesc(top, Quantity) &&
      (forall s :: s in top ==> exists id :: id in t.byProduct && t.byProduct[id] == s) &&
      (forall id :: id in t.byProduct && t.byProduct[id] !in top ==>
        forall s :: s in top ==> s.quantity >= t.byProduct[id].quantity)
  {
    var t := Tally(lines);
    var v := Values(t);
    Sorting.TopSpec(v, Quantity, 5);
    forall s | s in TopProducts(t) ensures exists id :: id in t.byProduct && t.byProduct[id] == s {
      var i :| 0 <= i < |v| && v[i] == s;
      assert t.keys[i] in t.byProduct;
    }
    forall id | id in t.byProduct
      ensures t.byProduct[id] in v
    {
      var i :| 0 <= i < |t.keys| && t.keys[i] == id;
      assert v[i] == t.byProduct[id];
    }
  }

  // ---------------------------------------------------------------- the page

  datatype Stats = Stats(totalRevenue: real, totalOrders: nat, totalProducts: nat, totalCustomers: nat,
                         recentOrders: seq<Order>, topProducts: seq<Sale>)

  /** The statistics the load effect computes. */
  function DashboardStats(orders: seq<Order>, users: seq<Auth.User>, catalog: seq<Catalog.Product>): Stats {
    var sorted := Sorting.SortDesc(orders, AdminOrders.CreatedAt);
    Stats(TotalRevenue(orders), |orders|, |catalog|, TotalCustomers(users),
          RecentOrders(orders), TopProducts(Tally(Lines(sorted))))
  }

  /** The load effect: sorts the orders in place, then tallies them. */
  method ComputeStats(orders: seq<Order>, users: seq<Auth.User>, catalog: seq<Catalog.Product>)
    returns (stats: Stats)
    ensures stats == DashboardStats(orders, users, catalog)
    ensures stats.totalOrders == |orders| && stats.totalCustomers <= |users|
    ensures |stats.recentOrders| <= 5 && |stats.topProducts| <= 5
  {
    var sorted := Sorting.SortedCopy(orders, AdminOrders.CreatedAt);
    var recent := sorted[..if 5 < |sorted| then 5 else |sorted|];
    var sales := ProductSales(sorted);
    var values := Values(sales);
    var ranked := Sorting.SortedCopy(values, Quantity);
    var top := ranked[..if 5 < |ranked| then 5 else |ranked|];
    stats := Stats(TotalRevenue(orders), |orders|, |catalog|, TotalCustomers(users), recent, top);
    CustomersAndAdmins(users);
    RecentOrdersSpec(orders);
    TopProductsSpec(Lines(sorted));
  }
}
