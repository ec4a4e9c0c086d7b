/** The order management page of app/admin/orders/page.tsx: the stored
    orders listed newest first, a search and status filter over them, the
    badge colour of a status, and the status update, which is written back
    to the stored list. */
module AdminOrders {
  import Seqs
  import Sorting
  import Checkout

  type Order = Checkout.Order

  /** The sort key of the listing: the creation time. */
  function CreatedAt(o: Order): int {
    o.createdAt
  }

  /** The customer name searched: "first last". */
  function CustomerName(o: Order): string {
    o.shippingAddress.firstName + " " + o.shippingAddress.lastName
  }

  /** The search matches the id or the customer name, ignoring case. */
  predicate MatchesSearch(o: Order, query: string) {
    Seqs.Contains(Seqs.Lower(o.id), Seqs.Lower(query)) ||
    Seqs.Contains(Seqs.Lower(CustomerName(o)), Seqs.Lower(query))
  }

  predicate MatchesStatus(o: Order, statusFilter: string) {
    statusFilter == "all" || o.status == statusFilter
  }

  function Passes(query: string, statusFilter: string): Order -> bool {
    (o: Order) => MatchesSearch(o, query) && MatchesStatus(o, statusFilter)
  }

  /** `filteredOrders`. */
  function FilteredOrders(orders: seq<Order>, query: string, statusFilter: string): seq<Order> {
    Seqs.Filter(orders, Passes(query, statusFilter))
  }

  /** An order is listed iff it is stored, the lower-cased query occurs in
      its lower-cased id or customer name, and the status filter is "all" or
      its status; the listed orders keep their relative order. */
  lemma FilteredOrdersExact(orders: seq<Order>, more: seq<Order>, query: string, statusFilter: string, o: Order)
    ensures o in FilteredOrders(orders, query, statusFilter) <==>
      o in orders &&
      ((exists k :: Seqs.OccursAt(Seqs.Lower(o.id), Seqs.Lower(query), k)) ||
       (exists k :: Seqs.OccursAt(Seqs.Lower(CustomerName(o)), Seqs.Lower(query), k))) &&
      (statusFilter == "all" || o.status == statusFilter)
    ensures FilteredOrders(orders + more, query, statusFilter) ==
      FilteredOrders(orders, query, statusFilter) + FilteredOrders(more, query, statusFilter)
  {
    Seqs.ContainsAt(Seqs.Lower(o.id), Seqs.Lower(query));
    Seqs.ContainsAt(Seqs.Lower(CustomerName(o)), Seqs.Lower(query));
    Seqs.FilterAppend(orders, more, Passes(query, statusFilter));
  }

  /** With an empty search and status "all" every order is listed. */
  lemma NoFilterListsAll(orders: seq<Order>)
    ensures FilteredOrders(orders, "", "all") == orders
  {
    forall o | o in orders ensures Passes("", "all")(o) {
      Seqs.ContainsEmpty(Seqs.Lower(o.id));
    }
    Seqs.FilterAll(orders, Passes("", "all"));
  }

  /** `getStatusColor`. */
  function StatusColor(status: string): string {
    match status
    case "processing" => "bg-blue-100 text-blue-800"
    case "shipped" => "bg-yellow-100 text-yellow-800"
    case "delivered" => "bg-green-100 text-green-800"
    case "cancelled" => "bg-red-100 text-red-800"
    case _ => "bg-gray-100 text-gray-800"
  }

  const KnownStatuses: seq<string> := ["processing", "shipped", "delivered", "cancelled"]

  /** The four known statuses get four different colours, none of them the
      gray that every other status gets. */
  lemma StatusColorSpec(status: string)
    ensures forall i, j :: 0 <= i < j < |KnownStatuses| ==>
      StatusColor(KnownStatuses[i]) != StatusColor(KnownStatuses[j])
    ensures status in KnownStatuses <==> StatusColor(status) != "bg-gray-100 text-gray-800"
  {
  }

  /** The `orders.map` of `updateOrderStatus`: orders with the id take the
      new status; nothing else changes. */
  function WithStatus(orders: seq<Order>, orderId: string, newStatus: string): (r: seq<Order>)
    ensures |r| == |orders|
    ensures forall k :: 0 <= k < |r| ==>
      r[k] == if orders[k].id == orderId then orders[k].(status := newStatus) else orders[k]
  {
    if orders == [] then []
    else
      [if orders[0].id == orderId then orders[0].(status := newStatus) else orders[0]] +
      WithStatus(orders[1..], orderId, newStatus)
  }

  /** No transition is refused: every order with the id ends up with the
      new status, whatever it had, and updating twice is updating once. */
  lemma AnyStatusCanBeSet(orders: seq<Order>, orderId: string, newStatus: string)
    ensures forall k :: 0 <= k < |orders| && orders[k].id == orderId ==>
      WithStatus(orders, orderId, newStatus)[k].status == newStatus
    ensures WithStatus(WithStatus(orders, orderId, newStatus), orderId, newStatus) ==
      WithStatus(orders, orderId, newStatus)
  {
  }

  /** Updating a status keeps the listing newest first. */
  lemma WithStatusKeepsOrder(orders: seq<Order>, orderId: string, newStatus: string)
    requires Sorting.SortedDesc(orders, CreatedAt)
    ensures Sorting.SortedDesc(WithStatus(orders, orderId, newStatus), CreatedAt)
  {
  }

  /** The page state. */
  class AdminOrdersPage {
    var orders: seq<Order>
    var searchQuery: string
    var statusFilter: string

    constructor ()
      ensures orders == [] && searchQuery == "" && statusFilter == "all"
    {
      orders, searchQuery, statusFilter := [], "", "all";
    }

    function Filtered(): seq<Order>
      reads this
    {
      FilteredOrders(orders, searchQuery, statusFilter)
    }

    /** The load effect: the stored orders, sorted newest first. */
    method Load(store: Checkout.OrderStore)
      modifies this
      ensures orders == Sorting.SortDesc(store.orders, CreatedAt)
      ensures Sorting.SortedDesc(orders, CreatedAt) && multiset(orders) == multiset(store.orders)
      ensures searchQuery == old(searchQuery) && statusFilter == old(statusFilter)
    {
      orders := Sorting.SortedCopy(store.orders, CreatedAt);
    }

    /** `updateOrderStatus`: the page list and the stored list both become
      the updated list. */
    method UpdateOrderStatus(store: Checkout.OrderStore, orderId: string, newStatus: string)
      modifies this, store
      ensures orders == WithStatus(old(orders), orderId, newStatus)
      ensures store.orders == orders
      ensures Sorting.SortedDesc(old(orders), CreatedAt) ==> Sorting.SortedDesc(orders, CreatedAt)
      ensures searchQuery == old(searchQuery) && statusFilter == old(statusFilter)
    {
      if Sorting.SortedDesc(orders, CreatedAt) {
        WithStatusKeepsOrder(orders, orderId, newStatus);
      }
      orders := WithStatus(orders, orderId, newStatus);
      store.orders := orders;
    }
  }
}
