/**
 * The administrator's order list: a status filter and a search box over the fetched orders,
 * and the revenue of the completed orders shown.
 */
module AdminOrders {
  import opened Wrappers
  import opened Text
  import opened Seqs
  import opened Entities

  /** A nullable text field containing `query`; an absent field never matches. */
  predicate FieldContains(field: Option<string>, query: string)
  {
    field.Some? && Contains(field.value, query)
  }

  /**
   * The search: the lower-cased buyer name or e-mail contains the lower-cased query, or the
   * phone number (not lower-cased) contains it.
   */
  predicate MatchesOrderSearch(o: OrderRow, query: string)
  {
    var q := ToLower(query);
    || (o.profileName.Some? && Contains(ToLower(o.profileName.value), q))
    || (o.profileEmail.Some? && Contains(ToLower(o.profileEmail.value), q))
    || FieldContains(o.phoneNumber, q)
  }

  /** `all` lets every status through; any other value asks for that exact status. */
  predicate KeepStatus(filterStatus: string, o: OrderRow)
  {
    filterStatus == "all" || o.status == filterStatus
  }

  /** A blank search (after trimming) lets everything through. */
  predicate KeepSearch(searchQuery: string, o: OrderRow)
  {
    !IsBlank(searchQuery) ==> MatchesOrderSearch(o, searchQuery)
  }

  predicate KeepOrder(filterStatus: string, searchQuery: string, o: OrderRow)
  {
    KeepStatus(filterStatus, o) && KeepSearch(searchQuery, o)
  }

  /** The orders the list shows: those passing both filters, in their fetched order. */
  function OrderView(orders: seq<OrderRow>, filterStatus: string, searchQuery: string): seq<OrderRow>
  {
    Filter(orders, (o: OrderRow) => KeepOrder(filterStatus, searchQuery, o))
  }

  /**
   * What the list holds: every shown order is a fetched one passing the status filter and the
   * search, and every fetched order passing both is shown, as often as it was fetched and in
   * the fetched order.
   */
  lemma OrderViewMembers(orders: seq<OrderRow>, filterStatus: string, searchQuery: string)
    ensures var v := OrderView(orders, filterStatus, searchQuery);
            && |v| <= |orders|
            && (forall i :: 0 <= i < |v| ==> v[i] in orders && KeepStatus(filterStatus, v[i]) && KeepSearch(searchQuery, v[i]))
            && (forall i :: 0 <= i < |orders| && KeepStatus(filterStatus, orders[i]) && KeepSearch(searchQuery, orders[i])
                  ==> orders[i] in v)
            && (filterStatus != "all" ==> forall i :: 0 <= i < |v| ==> v[i].status == filterStatus)
    ensures IsSubsequence(OrderView(orders, filterStatus, searchQuery), orders)
    ensures forall o :: multiset(OrderView(orders, filterStatus, searchQuery))[o]
                        == if KeepOrder(filterStatus, searchQuery, o) then multiset(orders)[o] else 0
  {
    FilterKeepsOrder(orders, (o: OrderRow) => KeepOrder(filterStatus, searchQuery, o));
  }

  /** Filtering the shown list again with the same settings changes nothing. */
  lemma OrderViewIdempotent(orders: seq<OrderRow>, filterStatus: string, searchQuery: string)
    ensures OrderView(OrderView(orders, filterStatus, searchQuery), filterStatus, searchQuery)
         == OrderView(orders, filterStatus, searchQuery)
  {
    FilterIdempotent(orders, (o: OrderRow) => KeepOrder(filterStatus, searchQuery, o));
  }

  /** An order with no buyer name, e-mail or phone is found by no search. */
  lemma MissingFieldsNeverMatch(o: OrderRow, query: string)
    requires o.profileName.None? && o.profileEmail.None? && o.phoneNumber.None?
    ensures !MatchesOrderSearch(o, query)
  {
  }

  /** `filteredOrders.filter(completed).reduce(sum + amount, 0)`. */
  function TotalRevenue(shown: seq<OrderRow>): (revenue: int)
    ensures (forall i :: 0 <= i < |shown| ==> shown[i].amount >= 0) ==> revenue >= 0
  {
    var completed := Filter(shown, IsCompletedOrder);
    if forall i :: 0 <= i < |shown| ==> shown[i].amount >= 0 then
      SumNonNegative(completed, Amount);
      Sum(completed, Amount)
    else
      Sum(completed, Amount)
  }

  predicate IsCompletedOrder(o: OrderRow)
  {
    o.status == "completed"
  }

  function Amount(o: OrderRow): int
  {
    o.amount
  }

  /** With the status filter on `pending` or `failed` no completed order is shown, so the revenue is 0. */
  lemma {:induction false} RevenueZeroForOtherStatus(orders: seq<OrderRow>, filterStatus: string, searchQuery: string)
    requires filterStatus == "pending" || filterStatus == "failed"
    ensures TotalRevenue(OrderView(orders, filterStatus, searchQuery)) == 0
  {
    var shown := OrderView(orders, filterStatus, searchQuery);
    FilterNone(shown, IsCompletedOrder);
  }

  /** The revenue counts only completed orders: a list without one sums to 0. */
  lemma {:induction false} RevenueOfCompletedOnly(shown: seq<OrderRow>)
    requires forall i :: 0 <= i < |shown| ==> shown[i].status != "completed"
    ensures TotalRevenue(shown) == 0
  {
    FilterNone(shown, IsCompletedOrder);
  }

  /** What one order adds to the revenue: its amount when it is completed, nothing otherwise. */
  function CompletedAmount(o: OrderRow): int
  {
    if o.status == "completed" then o.amount else 0
  }

  /** The revenue of two lists shown one after the other is the sum of their revenues. */
  lemma RevenueAdditive(a: seq<OrderRow>, b: seq<OrderRow>)
    ensures TotalRevenue(a + b) == TotalRevenue(a) + TotalRevenue(b)
  {
    FilterAppend(a, b, IsCompletedOrder);
    SumAppend(Filter(a, IsCompletedOrder), Filter(b, IsCompletedOrder), Amount);
  }

  /** A single order's revenue is what it adds. */
  lemma RevenueOfOne(o: OrderRow)
    ensures TotalRevenue([o]) == CompletedAmount(o)
    ensures Sum([o], CompletedAmount) == CompletedAmount(o)
  {
    assert [o][1..] == [] && [o][..0] == [];
    assert Filter([o], IsCompletedOrder) == (if IsCompletedOrder(o) then [o] else []) + Filter([], IsCompletedOrder);
    assert Sum([o], Amount) == Sum([], Amount) + Amount(o);
  }

  /** The revenue is the sum over every order shown of what it adds: completed amounts only. */
  lemma {:induction false} RevenueCountsCompleted(shown: seq<OrderRow>)
    ensures TotalRevenue(shown) == Sum(shown, CompletedAmount)
  {
    if shown != [] {
      var h, t := [shown[0]], shown[1..];
      assert shown == h + t;
      RevenueAdditive(h, t);
      SumAppend(h, t, CompletedAmount);
      RevenueCountsCompleted(t);
      RevenueOfOne(shown[0]);
    }
  }

  /** With the status filter on `completed`, the revenue is the sum of every amount shown. */
  lemma RevenueOfCompletedView(orders: seq<OrderRow>, searchQuery: string)
    ensures var shown := OrderView(orders, "completed", searchQuery);
            TotalRevenue(shown) == Sum(shown, Amount)
  {
    var shown := OrderView(orders, "completed", searchQuery);
    OrderViewMembers(orders, "completed", searchQuery);
    assert forall o :: o in shown ==> o.status == "completed";
    FilterAll(shown, IsCompletedOrder);
  }

  /** The screen's state: the fetched orders, the two filter settings and the list shown. */
  class AdminOrdersScreen {
    var orders: seq<OrderRow>
    var filteredOrders: seq<OrderRow>
    var searchQuery: string
    var filterStatus: string

    constructor ()
      ensures orders == [] && filteredOrders == [] && searchQuery == "" && filterStatus == "all"
    {
      orders := [];
      filteredOrders := [];
      searchQuery := "";
      filterStatus := "all";
    }

    /**
     * `filterOrders`: narrow the fetched orders by status unless it is `all`, then by the
     * search unless it is blank. The list shown holds exactly the orders passing both, in
     * their fetched order.
     */
    method FilterOrders()
      modifies this
      ensures filteredOrders == OrderView(orders, filterStatus, searchQuery)
      ensures orders == old(orders) && searchQuery == old(searchQuery) && filterStatus == old(filterStatus)
    {
      var status, query := filterStatus, searchQuery;
      var filtered := orders;
      var byStatus := (o: OrderRow) => KeepStatus(status, o);
      var bySearch := (o: OrderRow) => KeepSearch(query, o);
      if status != "all" {
        filtered := Filter(filtered, byStatus);
      } else {
        FilterAll(orders, byStatus);
      }
      if !IsBlank(query) {
        filtered := Filter(filtered, bySearch);
      } else {
        FilterAll(filtered, bySearch);
      }
      FilterFilter(orders, byStatus, bySearch, (o: OrderRow) => KeepOrder(status, query, o));
      filteredOrders := filtered;
    }
  }
}
