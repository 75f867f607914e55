/**
 The faceted filters of the orders page: which orders they show, which options they
 offer, and how a change to one of them is reconciled with the others.
 */
module OrderFilters {
  import opened DateSets
  import opened SortedSets
  import opened Text
  import opened Wrappers

  /** `searchable` lists the texts that are present among those the search looks at. */
  datatype Order = Order(
    deliveryArea: Option<string>,
    deliveryDate: Option<string>,
    serviceType: Option<string>,
    deliverySession: Option<string>,
    deliveryStatus: string,
    planned: bool,
    needsReview: bool,
    eligible: bool,
    searchable: seq<string>)

  datatype Filters = Filters(
    deliveryArea: string,
    deliveryDate: string,
    deliveryDates: string,
    routeType: string,
    weekday: string,
    deliverySession: string,
    deliveryStatus: string,
    search: string,
    serviceType: string,
    status: string,
    tab: string)

  const DEFAULT_FILTERS := Filters("", "", "", "", "", "", "", "", "", "", "all")

  datatype Field = Area | Date | Dates | RouteType | Weekday

  function Get(f: Filters, field: Field): string {
    match field
    case Area => f.deliveryArea
    case Date => f.deliveryDate
    case Dates => f.deliveryDates
    case RouteType => f.routeType
    case Weekday => f.weekday
  }

  function Set(f: Filters, field: Field, value: string): Filters {
    match field
    case Area => f.(deliveryArea := value)
    case Date => f.(deliveryDate := value)
    case Dates => f.(deliveryDates := value)
    case RouteType => f.(routeType := value)
    case Weekday => f.(weekday := value)
  }

  /** What the code takes from the platform: collation, Date, a date check and lower-casing. */
  datatype Platform = Platform(
    leq: Collation,
    weekdayOf: string -> Option<string>,
    isDate: string -> bool,
    lower: string -> string)

  const WEEKDAYS := ["sun", "mon", "tue", "wed", "thu", "fri", "sat"]

  ghost predicate Lawful(p: Platform) {
    && TotalOrder(p.leq)
    && (forall s :: p.isDate(s) ==> Normal(s) && ',' !in s && p.weekdayOf(s).Some?)
    && (forall s :: p.weekdayOf(s).Some? ==> p.weekdayOf(s).value in WEEKDAYS)
    && (forall s :: p.lower(s) == "" <==> s == "")
  }

  // ----- which orders are shown -----

  function Present(value: Option<string>): string {
    if value.Some? then value.value else ""
  }

  /** weekdayForDeliveryDate */
  function WeekdayFor(p: Platform, value: string): Option<string> {
    var normalized := Normalize(value);
    if normalized.None? then None else p.weekdayOf(normalized.value)
  }

  function Weekdays(p: Platform, dates: seq<string>): seq<string> {
    if dates == [] then [] else
    var init, last := Weekdays(p, dates[..|dates| - 1]), WeekdayFor(p, dates[|dates| - 1]);
    if last.Some? then init + [last.value] else init
  }

  /** weekdayForDeliveryDates: the weekday that the dates have in common. */
  function WeekdayForDates(p: Platform, value: string): Option<string> {
    var ws := Weekdays(p, Parse(value, p.leq));
    if ws != [] && forall w :: w in ws ==> w == ws[0] then Some(ws[0]) else None
  }

  function OrderWeekday(p: Platform, o: Order): Option<string> {
    if o.deliveryDate.None? then None else p.weekdayOf(o.deliveryDate.value)
  }

  /** getOrderSourceType */
  function SourceType(o: Order): Option<string> {
    var service := Normalize(Present(o.serviceType));
    if service.Some? then service else Normalize(Present(o.deliverySession))
  }

  predicate DateShown(p: Platform, o: Order, f: Filters) {
    var dates := Parse(f.deliveryDates, p.leq);
    if dates != [] then o.deliveryDate.Some? && o.deliveryDate.value in dates
    else Normalize(f.deliveryDate).Some? ==> o.deliveryDate == Normalize(f.deliveryDate)
  }

  predicate WeekdayShown(p: Platform, o: Order, f: Filters) {
    Normalize(f.weekday).Some? ==> OrderWeekday(p, o) == Normalize(f.weekday)
  }

  predicate TypeShown(o: Order, f: Filters) {
    Normalize(f.routeType).Some? ==> SourceType(o) == Normalize(f.routeType)
  }

  predicate AreaShown(p: Platform, o: Order, f: Filters) {
    var area := Normalize(f.deliveryArea);
    area.Some? ==> o.deliveryArea.Some? && p.lower(o.deliveryArea.value) == p.lower(area.value)
  }

  predicate Contains(text: string, part: string) {
    exists k :: 0 <= k <= |text| && part <= text[k..]
  }

  predicate TabShown(o: Order, tab: string) {
    if tab == "planned" then o.planned
    else if tab == "needs_review" then o.needsReview
    else !o.planned && o.eligible
  }

  /** The filters that are not faceted. */
  predicate RestShown(p: Platform, o: Order, f: Filters) {
    && (Normalize(f.serviceType).Some? ==> o.serviceType == Normalize(f.serviceType))
    && (Normalize(f.deliverySession).Some? ==> o.deliverySession == Normalize(f.deliverySession))
    && (f.tab != "all" ==> TabShown(o, f.tab))
    && (Normalize(f.status) == Some("planned") ==> o.planned)
    && (Normalize(f.status) == Some("unplanned") ==> !o.planned)
    && (Normalize(f.deliveryStatus).Some? ==> Some(o.deliveryStatus) == Normalize(f.deliveryStatus))
    && (Normalize(f.search).Some? ==>
          exists i :: 0 <= i < |o.searchable| &&
            Contains(p.lower(o.searchable[i]), p.lower(Normalize(f.search).value)))
  }

  predicate Shown(p: Platform, o: Order, f: Filters) {
    && DateShown(p, o, f) && WeekdayShown(p, o, f) && TypeShown(o, f) && AreaShown(p, o, f)
    && RestShown(p, o, f)
  }

  predicate HasActiveFilter(p: Platform, f: Filters) {
    || Normalize(f.deliveryArea).Some? || Normalize(f.deliveryDate).Some?
    || Parse(f.deliveryDates, p.leq) != [] || Normalize(f.deliverySession).Some?
    || Normalize(f.deliveryStatus).Some? || Normalize(f.routeType).Some?
    || Normalize(f.search).Some? || Normalize(f.serviceType).Some?
    || Normalize(f.status).Some? || Normalize(f.weekday).Some? || f.tab != "all"
  }

  function ShownOrders(p: Platform, orders: seq<Order>, f: Filters): seq<Order> {
    if orders == [] then [] else
    var init, last := ShownOrders(p, orders[..|orders| - 1], f), orders[|orders| - 1];
    if Shown(p, last, f) then init + [last] else init
  }

  /** applyClientOrderFilters */
  function ApplyFilters(p: Platform, orders: seq<Order>, f: Filters): seq<Order> {
    if !HasActiveFilter(p, f) then orders else ShownOrders(p, orders, f)
  }

  lemma {:induction false} ShownOrdersMember(p: Platform, orders: seq<Order>, f: Filters, o: Order)
    ensures o in ShownOrders(p, orders, f) <==> o in orders && Shown(p, o, f)
    ensures multiset(ShownOrders(p, orders, f))[o] == if Shown(p, o, f) then multiset(orders)[o] else 0
  {
    if orders == [] {
    } else {
      ShownOrdersMember(p, orders[..|orders| - 1], f, o);
      assert orders == orders[..|orders| - 1] + [orders[|orders| - 1]];
    }
  }

  lemma {:induction false} ShownOrdersAppend(p: Platform, a: seq<Order>, b: seq<Order>, f: Filters)
    ensures ShownOrders(p, a + b, f) == ShownOrders(p, a, f) + ShownOrders(p, b, f)
  {
    if b == [] {
      assert a + b == a;
    } else {
      var init, last := b[..|b| - 1], b[|b| - 1];
      ShownOrdersAppend(p, a, init, f);
      assert (a + b)[..|a + b| - 1] == a + init && (a + b)[|a + b| - 1] == last;
    }
  }

  /**
   The filtered list holds exactly the orders that satisfy every filter, each as often
   as it was there.
   */
  lemma ApplyFiltersMember(p: Platform, orders: seq<Order>, f: Filters, o: Order)
    ensures o in ApplyFilters(p, orders, f) <==> o in orders && Shown(p, o, f)
    ensures multiset(ApplyFilters(p, orders, f))[o] == if Shown(p, o, f) then multiset(orders)[o] else 0
  {
    ShownOrdersMember(p, orders, f, o);
  }

  /** Filtering goes through the list order by order, so what is kept stays in its order. */
  lemma ApplyFiltersAppend(p: Platform, a: seq<Order>, b: seq<Order>, f: Filters)
    ensures ApplyFilters(p, a + b, f) == ApplyFilters(p, a, f) + ApplyFilters(p, b, f)
  {
    ShownOrdersAppend(p, a, b, f);
  }

  // ----- which options are offered -----

  function Areas(orders: seq<Order>): seq<string> {
    if orders == [] then [] else
    var init, area := Areas(orders[..|orders| - 1]), Trim(Present(orders[|orders| - 1].deliveryArea));
    if area != "" then init + [area] else init
  }

  function DeliveryDates(orders: seq<Order>): (r: seq<string>)
    ensures |r| == |orders|
  {
    seq(|orders|, i requires 0 <= i < |orders| => Present(orders[i].deliveryDate))
  }

  function SourceTypes(orders: seq<Order>): (r: seq<string>)
    ensures |r| == |orders|
  {
    seq(|orders|, i requires 0 <= i < |orders| => Present(SourceType(orders[i])))
  }

  predicate Undated(f: Filters, p: Platform) {
    Normalize(f.deliveryDate).None? && Parse(f.deliveryDates, p.leq) == []
  }

  predicate IsAutoFilledWeekday(p: Platform, f: Filters, order: seq<Field>) {
    !Undated(f, p) && Normalize(f.weekday).Some? && Weekday !in order
  }

  function AreaOptions(p: Platform, orders: seq<Order>, f: Filters): seq<string> {
    SortUnique(Areas(ApplyFilters(p, orders, f.(deliveryArea := ""))), p.leq)
  }

  function DateOptions(p: Platform, orders: seq<Order>, f: Filters, order: seq<Field>): seq<string> {
    var g := if IsAutoFilledWeekday(p, f, order) then f.(weekday := "") else f;
    UniqueSorted(DeliveryDates(ApplyFilters(p, orders, g.(deliveryDate := "", deliveryDates := ""))), p.leq)
  }

  function TypeOptions(p: Platform, orders: seq<Order>, f: Filters): seq<string> {
    UniqueSorted(SourceTypes(ApplyFilters(p, orders, f.(routeType := ""))), p.leq)
  }

  predicate WeekdayOffered(p: Platform, orders: seq<Order>, f: Filters, weekday: string) {
    weekday in WEEKDAYS
    && exists o :: o in ApplyFilters(p, orders, f.(deliveryDate := "", deliveryDates := "", weekday := ""))
                   && OrderWeekday(p, o) == Some(weekday)
  }

  /** isFilterValueAvailable */
  predicate Available(p: Platform, orders: seq<Order>, f: Filters, field: Field, value: string) {
    match field
    case Area => exists a :: a in AreaOptions(p, orders, f) && p.lower(a) == p.lower(value)
    case Date => p.isDate(value)
    case Dates => Parse(value, p.leq) != [] && forall d :: d in Parse(value, p.leq) ==> p.isDate(d)
    case RouteType => value in TypeOptions(p, orders, f)
    case Weekday => WeekdayOffered(p, orders, f, value)
  }

  // ----- pruning and reconciling -----

  datatype Facets = Facets(filters: Filters, order: seq<Field>)

  function PruneField(p: Platform, orders: seq<Order>, s: Facets, field: Field): Facets {
    var value := Normalize(Get(s.filters, field));
    if value.None? then s
    else if Available(p, orders, s.filters, field, value.value) then s.(order := s.order + [field])
    else s.(filters := Set(s.filters, field, ""))
  }

  /** The loop of pruneOrderFilters: keep, drop or blank each listed field in turn. */
  function PruneFields(p: Platform, orders: seq<Order>, f: Filters, order: seq<Field>): Facets {
    if order == [] then Facets(f, []) else
    var init, field := PruneFields(p, orders, f, order[..|order| - 1]), order[|order| - 1];
    PruneField(p, orders, init, field)
  }

  /** The weekday that the selected dates imply, if any. */
  function SyncedWeekday(p: Platform, f: Filters): Option<string> {
    if Parse(f.deliveryDates, p.leq) != [] then WeekdayForDates(p, f.deliveryDates) else WeekdayFor(p, f.deliveryDate)
  }

  function Sync(p: Platform, f: Filters, authored: bool): Filters {
    var synced := SyncedWeekday(p, f);
    if synced.Some? then f.(weekday := synced.value)
    else if !authored then f.(weekday := "")
    else f
  }

  function Unstale(p: Platform, f: Filters, authored: bool): Filters {
    if !authored && Undated(f, p) then f.(weekday := "") else f
  }

  function Prune(p: Platform, orders: seq<Order>, s: Facets): Facets {
    var authored := Weekday in s.order;
    var pruned := PruneFields(p, orders, Unstale(p, s.filters, authored), s.order);
    pruned.(filters := Sync(p, pruned.filters, authored))
  }

  function Drop(order: seq<Field>, field: Field): seq<Field> {
    if order == [] then [] else
    var init, last := Drop(order[..|order| - 1], field), order[|order| - 1];
    if last == field then init else init + [last]
  }

  function OnWeekday(p: Platform, dates: seq<string>, weekday: string): seq<string> {
    if dates == [] then [] else
    var init, last := OnWeekday(p, dates[..|dates| - 1], weekday), dates[|dates| - 1];
    if WeekdayFor(p, last) == Some(weekday) then init + [last] else init
  }

  function WithDate(p: Platform, f: Filters): Filters {
    f.(deliveryDates := "", weekday := Present(WeekdayFor(p, f.deliveryDate)))
  }

  function WithDates(p: Platform, f: Filters): Filters {
    f.(deliveryDate := "", weekday := Present(WeekdayForDates(p, f.deliveryDates)))
  }

  function WithWeekday(p: Platform, orders: seq<Order>, f: Filters): Filters {
    var open := f.(deliveryDate := "", deliveryDates := "", weekday := "");
    var available := UniqueSorted(DeliveryDates(ApplyFilters(p, orders, open)), p.leq);
    f.(deliveryDate := "", deliveryDates := Toggle(OnWeekday(p, available, f.weekday), f.deliveryDates, p.leq))
  }

  /** reconcileOrderFilters up to its final call of pruneOrderFilters */
  function Settle(p: Platform, orders: seq<Order>, changed: Field, s: Facets): Facets {
    var order := Drop(s.order, changed) + [changed];
    match changed
    case Date =>
      var f := WithDate(p, s.filters);
      Facets(f, if WeekdayFor(p, f.deliveryDate).Some? then Drop(order, Weekday) else order)
    case Dates =>
      var f := WithDates(p, s.filters);
      Facets(f, if WeekdayForDates(p, f.deliveryDates).Some? then Drop(order, Weekday) else order)
    case Weekday =>
      if s.filters.weekday == "" then Facets(s.filters, order) else
      var f := WithWeekday(p, orders, s.filters);
      var undated := Drop(Drop(order, Date), Dates);
      Facets(f, if Parse(f.deliveryDates, p.leq) != [] then undated + [Dates] else undated)
    case _ => Facets(s.filters, order)
  }

  function Reconcile(p: Platform, orders: seq<Order>, changed: Field, s: Facets): Facets {
    Prune(p, orders, Settle(p, orders, changed, s))
  }

  // ----- the code -----

  method PruneOrderFilters(p: Platform, orders: seq<Order>, s: Facets) returns (r: Facets)
    ensures r == Prune(p, orders, s)
  {
    var next := s.filters;
    var authoredWeekday := Weekday in s.order;
    if !authoredWeekday && Normalize(next.deliveryDate).None? && Parse(next.deliveryDates, p.leq) == [] {
      next := next.(weekday := "");
    }
    ghost var start := next;
    var remainingOrder: seq<Field> := [];
    for i := 0 to |s.order|
      invariant PruneFields(p, orders, start, s.order[..i]) == Facets(next, remainingOrder)
    {
      assert s.order[..i + 1][..i] == s.order[..i];
      var field := s.order[i];
      var value := Normalize(Get(next, field));
      if value.Some? {
        if Available(p, orders, next, field, value.value) {
          remainingOrder := remainingOrder + [field];
        } else {
          next := Set(next, field, "");
        }
      }
    }
    assert s.order[..|s.order|] == s.order;
    var synced := if Parse(next.deliveryDates, p.leq) != [] then WeekdayForDates(p, next.deliveryDates)
                  else WeekdayFor(p, next.deliveryDate);
    if synced.Some? && next.weekday != synced.value {
      next := next.(weekday := synced.value);
    }
    if synced.None? && !authoredWeekday {
      next := next.(weekday := "");
    }
    r := Facets(next, remainingOrder);
  }

  method ReconcileOrderFilters(p: Platform, orders: seq<Order>, changedField: Field, s: Facets) returns (r: Facets)
    requires TotalOrder(p.leq)
    ensures r == Reconcile(p, orders, changedField, s)
  {
    var next := s.filters;
    var order := Drop(s.order, changedField) + [changedField];
    if changedField == Date {
      next := next.(deliveryDates := "");
      var weekday := WeekdayFor(p, next.deliveryDate);
      next := next.(weekday := Present(weekday));
      if weekday.Some? { order := Drop(order, Weekday); }
    }
    if changedField == Dates {
      next := next.(deliveryDate := "");
      var weekday := WeekdayForDates(p, next.deliveryDates);
      next := next.(weekday := Present(weekday));
      if weekday.Some? { order := Drop(order, Weekday); }
    }
    if changedField == Weekday && next.weekday != "" {
      var shown := ApplyFilters(p, orders, next.(deliveryDate := "", deliveryDates := "", weekday := ""));
      var availableDates := UniqueSorted(DeliveryDates(shown), p.leq);
      next := next.(deliveryDate := "");
      var dates := ToggleDates(OnWeekday(p, availableDates, next.weekday), next.deliveryDates, p.leq);
      next := next.(deliveryDates := dates);
      order := Drop(Drop(order, Date), Dates);
      if Parse(next.deliveryDates, p.leq) != [] { order := order + [Dates]; }
    }
    r := PruneOrderFilters(p, orders, Facets(next, order));
  }
}
