/**
 * The admin orders screen (src/components/admin/OrdersManagement.tsx): the eight order
 * statuses and their badge styles, the search filter, the three summary figures, and the
 * reload-after-write handling of a status change.
 */
module OrdersAdmin {
  import opened Collections
  import opened Records
  import opened Text
  import SearchBox
  import Store

  /** The statuses the status select offers, in its order. */
  datatype Status = Pending | Processing | OnHold | Completed | Cancelled | Refunded | Failed | Archived

  /** The stored spelling of a status; on hold is written with a hyphen. */
  function StatusName(s: Status): string
  {
    match s
    case Pending => "PENDING"
    case Processing => "PROCESSING"
    case OnHold => "ON-HOLD"
    case Completed => "COMPLETED"
    case Cancelled => "CANCELLED"
    case Refunded => "REFUNDED"
    case Failed => "FAILED"
    case Archived => "ARCHIVED"
  }

  /** The status a stored string spells, if it spells one. */
  function ParseStatus(name: string): (r: Option<Status>)
    ensures r.Some? ==> StatusName(r.value) == name
  {
    if name == "PENDING" then Some(Pending)
    else if name == "PROCESSING" then Some(Processing)
    else if name == "ON-HOLD" then Some(OnHold)
    else if name == "COMPLETED" then Some(Completed)
    else if name == "CANCELLED" then Some(Cancelled)
    else if name == "REFUNDED" then Some(Refunded)
    else if name == "FAILED" then Some(Failed)
    else if name == "ARCHIVED" then Some(Archived)
    else None
  }

  /** Every status is read back from its spelling, so no two statuses share one. */
  lemma ParseStatusName(s: Status)
    ensures ParseStatus(StatusName(s)) == Some(s)
  {
  }

  /** The spelling with an underscore is not a status: it falls to the default style. */
  lemma UnderscoreOnHoldIsUnknown()
    ensures ParseStatus("ON_HOLD") == None
    ensures StatusColor("ON_HOLD") == DefaultStyle
  {
    assert "ON_HOLD" != "ON-HOLD" by { assert "ON_HOLD"[2] != "ON-HOLD"[2]; }
  }

  const PendingStyle: string := "bg-yellow-500/20 text-yellow-700 border-yellow-500/30"
  const ProcessingStyle: string := "bg-blue-500/20 text-blue-700 border-blue-500/30"
  const OnHoldStyle: string := "bg-orange-500/20 text-orange-700 border-orange-500/30"
  const CompletedStyle: string := "bg-green-500/20 text-green-700 border-green-500/30"
  const CancelledStyle: string := "bg-red-500/20 text-red-700 border-red-500/30"
  const RefundedStyle: string := "bg-purple-500/20 text-purple-700 border-purple-500/30"
  const FailedStyle: string := "bg-red-600/20 text-red-800 border-red-600/30"
  const ArchivedStyle: string := "bg-gray-500/20 text-gray-700 border-gray-500/30"

  /** The style of anything that is not one of the eight spellings. */
  const DefaultStyle: string := "bg-gray-500/20 text-gray-700 border-gray-500/30"

  /** The badge style of a status, keyed by its stored spelling. */
  function StyleOf(s: Status): string
  {
    match s
    case Pending => PendingStyle
    case Processing => ProcessingStyle
    case OnHold => OnHoldStyle
    case Completed => CompletedStyle
    case Cancelled => CancelledStyle
    case Refunded => RefundedStyle
    case Failed => FailedStyle
    case Archived => ArchivedStyle
  }

  /**
   * `getStatusColor`: defined on every string; the eight spellings get their status's
   * style and everything else the default, which is the archived style.
   */
  function StatusColor(status: string): (r: string)
    ensures ParseStatus(status).Some? ==> r == StyleOf(ParseStatus(status).value)
    ensures ParseStatus(status).None? ==> r == DefaultStyle && r == StyleOf(Archived)
  {
    match ParseStatus(status)
    case Some(s) => StyleOf(s)
    case None => DefaultStyle
  }

  /** Each of the eight spellings gets its own status's style. */
  lemma StatusColorOfName(s: Status)
    ensures StatusColor(StatusName(s)) == StyleOf(s)
  {
    ParseStatusName(s);
  }

  /** The place of a status in the status select. */
  function Position(s: Status): (k: nat)
    ensures k < 8
  {
    match s
    case Pending => 0
    case Processing => 1
    case OnHold => 2
    case Completed => 3
    case Cancelled => 4
    case Refunded => 5
    case Failed => 6
    case Archived => 7
  }

  /** The entries of the status select, offered whatever the order's current status is. */
  function Options(current: string): (r: seq<Status>)
    ensures |r| == 8
    ensures forall s: Status :: r[Position(s)] == s
    ensures forall i, j :: 0 <= i < j < |r| ==> r[i] != r[j]
  {
    [Pending, Processing, OnHold, Completed, Cancelled, Refunded, Failed, Archived]
  }

  /**
   * No status guards a change: the offered entries do not depend on the current status.
   * True by construction, since `Options` never reads `current`; it records that the select
   * has no transition rules.
   */
  lemma NoTransitionGuard(a: string, b: string)
    ensures Options(a) == Options(b)
  {
  }

  /**
   * A row of the table: an order and the customer name the screen searches by. The orders
   * the store returns carry no name.
   */
  datatype OrderView = OrderView(order: Order, customerName: Option<string>)

  function Unnamed(o: Order): OrderView { OrderView(o, None) }

  /** The rows for orders as the store returns them. */
  function ViewsOf(orders: seq<Order>): (r: seq<OrderView>)
    ensures |r| == |orders|
    ensures forall i :: 0 <= i < |orders| ==> r[i] == Unnamed(orders[i])
  {
    if orders == [] then [] else [Unnamed(orders[0])] + ViewsOf(orders[1..])
  }

  /** The search test: the lower-cased id or the lower-cased name (when there is one) includes the lower-cased query. */
  predicate Matches(query: string, v: OrderView)
  {
    Contains(ToLower(v.order.id), ToLower(query)) ||
    (v.customerName.Some? && Contains(ToLower(v.customerName.value), ToLower(query)))
  }

  /** The fields the orders screen searches: the order id, then the customer name when there is one. */
  function OrderFields(v: OrderView): (r: seq<string>)
    ensures |r| > 0 && r[0] == v.order.id
  {
    [v.order.id] + (if v.customerName.Some? then [v.customerName.value] else [])
  }

  /** The shared search over these fields is this screen's test. */
  lemma HitIsMatch(query: string)
    ensures forall v :: SearchBox.Hit(OrderFields, query, v) <==> Matches(query, v)
  {
    forall v
      ensures SearchBox.Hit(OrderFields, query, v) <==> Matches(query, v)
    {
      var f := OrderFields(v);
      if v.customerName.Some? {
        assert f[1] == v.customerName.value;
      }
    }
  }

  /** `filteredOrders`: in their original order, exactly the rows that match the query. */
  function FilterOrders(orders: seq<OrderView>, query: string): (r: seq<OrderView>)
    ensures |r| <= |orders|
    ensures forall i :: 0 <= i < |r| ==> r[i] in orders && Matches(query, r[i])
    ensures forall i :: 0 <= i < |orders| && Matches(query, orders[i]) ==> orders[i] in r
  {
    HitIsMatch(query);
    SearchBox.Search(orders, OrderFields, query)
  }

  /** The filter keeps the rows' order: a split list is filtered part by part, and one row is kept exactly when it matches. */
  lemma FilterOrdersKeepsOrder(a: seq<OrderView>, b: seq<OrderView>, v: OrderView, query: string)
    ensures FilterOrders(a + b, query) == FilterOrders(a, query) + FilterOrders(b, query)
    ensures FilterOrders([v], query) == if Matches(query, v) then [v] else []
  {
    SearchBox.SearchConcat(a, b, OrderFields, query);
    SearchBox.SearchOne(v, OrderFields, query);
    HitIsMatch(query);
  }

  /** An empty query keeps every row in its order: every row has an id to search. */
  lemma EmptyQueryKeepsAll(orders: seq<OrderView>)
    ensures FilterOrders(orders, "") == orders
  {
    SearchBox.EmptyQueryKeepsAll(orders, OrderFields);
  }

  /** For rows without a name, only the id is searched. */
  lemma UnnamedRowsMatchById(orders: seq<Order>, query: string)
    ensures forall i :: 0 <= i < |orders| ==>
              (ViewsOf(orders)[i] in FilterOrders(ViewsOf(orders), query) <==>
               Contains(ToLower(orders[i].id), ToLower(query)))
  {
    var vs := ViewsOf(orders);
    forall i | 0 <= i < |orders|
      ensures vs[i] in FilterOrders(vs, query) <==> Contains(ToLower(orders[i].id), ToLower(query))
    {
      var r := FilterOrders(vs, query);
      if vs[i] in r {
        var k :| 0 <= k < |r| && r[k] == vs[i];
        assert Matches(query, r[k]);
      }
    }
  }

  predicate IsPendingLike(o: OrderView)
  {
    o.order.status == "PENDING" || o.order.status == "PROCESSING"
  }

  /** "Pending Orders": the rows whose status is PENDING or PROCESSING. */
  function PendingCount(orders: seq<OrderView>): (n: nat)
    ensures n <= |orders|
    ensures n == |Filter(orders, IsPendingLike)|
  {
    CountIsFilterLength(orders, IsPendingLike);
    Count(orders, IsPendingLike)
  }

  function TotalPriceOf(o: OrderView): int { o.order.totalPrice }

  /** "Total Revenue": the sum of every row's total price, whatever its status. */
  function Revenue(orders: seq<OrderView>): int
  {
    Sum(orders, TotalPriceOf)
  }

  /** Revenue adds up over a split of the rows. */
  lemma RevenueConcat(a: seq<OrderView>, b: seq<OrderView>)
    ensures Revenue(a + b) == Revenue(a) + Revenue(b)
  {
    SumConcat(a, b, TotalPriceOf);
  }

  /** The distinct customer ids of the rows; a missing id counts as one value of its own. */
  function CustomerIds(orders: seq<OrderView>): (ids: set<Option<string>>)
    ensures |ids| <= |orders|
    ensures orders != [] ==> |ids| >= 1
    ensures forall i :: 0 <= i < |orders| ==> orders[i].order.customerId in ids
    ensures forall c :: c in ids ==> exists i :: 0 <= i < |orders| && orders[i].order.customerId == c
  {
    if orders == [] then {}
    else
      var rest := CustomerIds(orders[1..]);
      assert forall i :: 1 <= i < |orders| ==> orders[i] == orders[1..][i - 1];
      {orders[0].order.customerId} + rest
  }

  /** "Unique Customers". */
  function UniqueCustomers(orders: seq<OrderView>): (n: nat)
    ensures n <= |orders|
    ensures orders != [] ==> n >= 1
  {
    |CustomerIds(orders)|
  }

  /** Changing statuses keeps the number of rows, the revenue and the customers. */
  lemma {:induction false} StatusChangeKeepsFigures(orders: seq<Order>, orderId: string, status: string)
    ensures |ViewsOf(Store.SetOrderStatus(orders, orderId, status))| == |ViewsOf(orders)|
    ensures Revenue(ViewsOf(Store.SetOrderStatus(orders, orderId, status))) == Revenue(ViewsOf(orders))
    ensures CustomerIds(ViewsOf(Store.SetOrderStatus(orders, orderId, status))) == CustomerIds(ViewsOf(orders))
  {
    if orders != [] {
      var r := Store.SetOrderStatus(orders, orderId, status);
      StatusChangeKeepsFigures(orders[1..], orderId, status);
      assert r[1..] == Store.SetOrderStatus(orders[1..], orderId, status);
      assert ViewsOf(r)[1..] == ViewsOf(r[1..]);
      assert ViewsOf(orders)[1..] == ViewsOf(orders[1..]);
    }
  }

  /** The screen's state over the store it reads and writes. */
  class OrdersPanel {
    const store: Store.TableStore
    var orders: seq<OrderView>
    var isLoading: bool

    /** Before the first load: no rows, loading. */
    constructor (s: Store.TableStore)
      ensures store == s && orders == [] && isLoading
    {
      store := s;
      orders := [];
      isLoading := true;
    }

    /** `loadOrders`: on success the rows are the store's orders; on failure they are kept. */
    method LoadOrders(ok: bool)
      modifies this`orders, this`isLoading
      ensures ok ==> orders == ViewsOf(store.orders)
      ensures !ok ==> orders == old(orders)
      ensures !isLoading
    {
      isLoading := true;
      var r := store.GetOrders(ok);
      if r.Ok? {
        orders := ViewsOf(r.value);
      }
      isLoading := false;
    }

    /**
     * `updateOrderStatus`: the rows are reloaded only after the write succeeds. A failed
     * write changes neither the store nor the rows; a failed reload keeps the old rows.
     */
    method UpdateOrderStatus(orderId: string, newStatus: string, writeOk: bool, reloadOk: bool)
      modifies this`orders, this`isLoading, store`orders
      ensures writeOk ==> store.orders == Store.SetOrderStatus(old(store.orders), orderId, newStatus)
      ensures writeOk && reloadOk ==> orders == ViewsOf(store.orders)
      ensures !writeOk ==> store.orders == old(store.orders) && orders == old(orders) &&
                           isLoading == old(isLoading)
      ensures writeOk && !reloadOk ==> orders == old(orders)
    {
      var r := store.UpdateOrderStatus(orderId, newStatus, writeOk);
      if r.Ok? {
        LoadOrders(reloadOk);
      }
    }
  }
}
