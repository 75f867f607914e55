/**
 What the faceted filters promise: no edit hides the order it was made for, every run
 of edits keeps filters and edit history consistent, and repeated pruning settles.
 */
module FacetRuns {
  import opened DateSets
  import opened OrderFilters
  import opened SortedSets
  import opened Text
  import opened Wrappers

  // ----- pruning keeps what still shows an order -----

  ghost predicate TidyOrder(p: Platform, o: Order) {
    && (o.deliveryDate.Some? ==> p.isDate(o.deliveryDate.value))
    && (o.deliveryArea.Some? ==> Trimmed(o.deliveryArea.value))
  }

  /** Dates are valid and areas trimmed, as the server sends them. */
  ghost predicate Tidy(p: Platform, orders: seq<Order>) {
    forall o :: o in orders ==> TidyOrder(p, o)
  }

  ghost predicate ValidDates(p: Platform, f: Filters) {
    && (Normalize(f.deliveryDate).Some? ==> p.isDate(Normalize(f.deliveryDate).value))
    && (Normalize(f.deliveryDates).Some? ==>
          Parse(f.deliveryDates, p.leq) != [] && forall d :: d in Parse(f.deliveryDates, p.leq) ==> p.isDate(d))
  }

  lemma BlankIsNone()
    ensures Normalize("") == None
  {
    assert Trim("") == "";
  }

  lemma BlankHasNoDates(p: Platform)
    ensures Normalize("") == None && Parse("", p.leq) == []
  {
    BlankIsNone();
  }

  lemma WeekdayIsNormal(w: string)
    requires w in WEEKDAYS
    ensures Normalize(w) == Some(w)
  {
    NormalizeIsNormal(w);
  }

  lemma {:induction false} AreasMember(orders: seq<Order>, o: Order)
    requires o in orders && Trim(Present(o.deliveryArea)) != ""
    ensures Trim(Present(o.deliveryArea)) in Areas(orders)
  {
    var init, last := orders[..|orders| - 1], orders[|orders| - 1];
    if o == last {
    } else {
      assert orders == init + [last];
      AreasMember(init, o);
    }
  }

  lemma UniqueSortedMember(values: seq<string>, v: string, leq: Collation)
    requires TotalOrder(leq) && v in values && Normalize(v).Some?
    ensures Normalize(v).value in UniqueSorted(values, leq)
  {
    NormalizeAllElements(values);
    SortUniqueSorts(NormalizeAll(values), leq);
    assert Normalize(v).value in Elements(UniqueSorted(values, leq));
  }

  lemma AreaAvailable(p: Platform, orders: seq<Order>, f: Filters, o: Order)
    requires Lawful(p) && o in orders && TidyOrder(p, o) && Shown(p, o, f) && Normalize(f.deliveryArea).Some?
    ensures Available(p, orders, f, Area, Normalize(f.deliveryArea).value)
  {
    var value := Normalize(f.deliveryArea).value;
    var g := f.(deliveryArea := "");
    BlankIsNone();
    ApplyFiltersMember(p, orders, g, o);
    var area := o.deliveryArea.value;
    TrimIsTrimmed(area);
    NormalizeIsNormal(f.deliveryArea);
    AreasMember(ApplyFilters(p, orders, g), o);
    SortUniqueSorts(Areas(ApplyFilters(p, orders, g)), p.leq);
    assert area in Elements(AreaOptions(p, orders, f));
    assert p.lower(area) == p.lower(value);
  }

  lemma TypeAvailable(p: Platform, orders: seq<Order>, f: Filters, o: Order)
    requires Lawful(p) && o in orders && Shown(p, o, f) && Normalize(f.routeType).Some?
    ensures Available(p, orders, f, RouteType, Normalize(f.routeType).value)
  {
    var value := Normalize(f.routeType).value;
    var g := f.(routeType := "");
    BlankIsNone();
    ApplyFiltersMember(p, orders, g, o);
    var shown := ApplyFilters(p, orders, g);
    var i :| 0 <= i < |shown| && shown[i] == o;
    assert SourceTypes(shown)[i] == value;
    NormalizeIsNormal(f.routeType);
    NormalizeIsNormal(value);
    UniqueSortedMember(SourceTypes(shown), value, p.leq);
  }

  /** The filters with which the dates on offer are computed, and the weekdays. */
  function Undecided(f: Filters): Filters {
    f.(deliveryDate := "", deliveryDates := "", weekday := "")
  }

  lemma ShownUndecided(p: Platform, f: Filters, o: Order)
    requires Shown(p, o, f)
    ensures Shown(p, o, Undecided(f))
  {
    BlankHasNoDates(p);
  }

  lemma OrderWeekdayIsListed(p: Platform, o: Order)
    requires Lawful(p) && OrderWeekday(p, o).Some?
    ensures OrderWeekday(p, o).value in WEEKDAYS
  {
  }

  lemma OfferedBy(p: Platform, orders: seq<Order>, f: Filters, o: Order, weekday: string)
    requires o in ApplyFilters(p, orders, Undecided(f)) && OrderWeekday(p, o) == Some(weekday) && weekday in WEEKDAYS
    ensures WeekdayOffered(p, orders, f, weekday)
  {
  }

  lemma WeekdayAvailable(p: Platform, orders: seq<Order>, f: Filters, o: Order)
    requires Lawful(p) && o in orders && Shown(p, o, f) && Normalize(f.weekday).Some?
    ensures Available(p, orders, f, Weekday, Normalize(f.weekday).value)
  {
    ShownUndecided(p, f, o);
    ApplyFiltersMember(p, orders, Undecided(f), o);
    OrderWeekdayIsListed(p, o);
    OfferedBy(p, orders, f, o, Normalize(f.weekday).value);
  }

  lemma DatesAvailable(p: Platform, orders: seq<Order>, f: Filters)
    requires Lawful(p) && ValidDates(p, f) && Normalize(f.deliveryDates).Some?
    ensures Available(p, orders, f, Dates, Normalize(f.deliveryDates).value)
  {
    var value := Normalize(f.deliveryDates).value;
    NormalizeIsNormal(f.deliveryDates);
    NormalizeIsNormal(value);
    assert Parse(value, p.leq) == Parse(f.deliveryDates, p.leq);
  }

  lemma FieldAvailable(p: Platform, orders: seq<Order>, f: Filters, o: Order, field: Field)
    requires Lawful(p) && o in orders && TidyOrder(p, o) && Shown(p, o, f) && ValidDates(p, f)
    requires Normalize(Get(f, field)).Some?
    ensures Available(p, orders, f, field, Normalize(Get(f, field)).value)
  {
    match field
    case Area => AreaAvailable(p, orders, f, o);
    case RouteType => TypeAvailable(p, orders, f, o);
    case Weekday => WeekdayAvailable(p, orders, f, o);
    case Dates => DatesAvailable(p, orders, f);
    case Date =>
  }

  ghost predicate AllAvailable(p: Platform, orders: seq<Order>, f: Filters) {
    forall field :: Normalize(Get(f, field)).Some? ==>
      Available(p, orders, f, field, Normalize(Get(f, field)).value)
  }

  lemma AvailableFieldStays(p: Platform, orders: seq<Order>, s: Facets, field: Field)
    requires AllAvailable(p, orders, s.filters)
    ensures PruneField(p, orders, s, field)
         == if Normalize(Get(s.filters, field)).Some? then s.(order := s.order + [field]) else s
  {
  }

  lemma PruneFieldsMore(p: Platform, orders: seq<Order>, f: Filters, init: seq<Field>, field: Field)
    ensures PruneFields(p, orders, f, init + [field]) == PruneField(p, orders, PruneFields(p, orders, f, init), field)
  {
    assert (init + [field])[..|init|] == init;
  }

  lemma {:induction false} AvailableFieldsStay(p: Platform, orders: seq<Order>, f: Filters, order: seq<Field>)
    requires AllAvailable(p, orders, f)
    ensures var r := PruneFields(p, orders, f, order);
            r.filters == f && ((forall field :: field in order ==> Normalize(Get(f, field)).Some?) ==> r.order == order)
  {
    if order == [] {
    } else {
      var init, field := order[..|order| - 1], order[|order| - 1];
      AvailableFieldsStay(p, orders, f, init);
      assert order == init + [field];
      PruneFieldsMore(p, orders, f, init, field);
      AvailableFieldStays(p, orders, PruneFields(p, orders, f, init), field);
    }
  }

  lemma {:induction false} AvailableFieldsListed(p: Platform, orders: seq<Order>, f: Filters, order: seq<Field>,
                                                 field: Field)
    requires AllAvailable(p, orders, f)
    ensures field in PruneFields(p, orders, f, order).order <==> field in order && Normalize(Get(f, field)).Some?
  {
    if order == [] {
    } else {
      var init, last := order[..|order| - 1], order[|order| - 1];
      AvailableFieldsListed(p, orders, f, init, field);
      AvailableFieldsStay(p, orders, f, init);
      assert order == init + [last];
      PruneFieldsMore(p, orders, f, init, last);
      AvailableFieldStays(p, orders, PruneFields(p, orders, f, init), last);
    }
  }

  lemma ShownIsAvailable(p: Platform, orders: seq<Order>, f: Filters, o: Order)
    requires Lawful(p) && o in orders && TidyOrder(p, o) && Shown(p, o, f) && ValidDates(p, f)
    ensures AllAvailable(p, orders, f)
  {
    forall field | Normalize(Get(f, field)).Some?
      ensures Available(p, orders, f, field, Normalize(Get(f, field)).value)
    {
      FieldAvailable(p, orders, f, o, field);
    }
  }

  /** While an order is shown, no listed filter is blanked and no set one is dropped from the list. */
  lemma PruneFieldsKeepsAll(p: Platform, orders: seq<Order>, f: Filters, order: seq<Field>, o: Order)
    requires Lawful(p) && o in orders && TidyOrder(p, o) && Shown(p, o, f) && ValidDates(p, f)
    ensures var r := PruneFields(p, orders, f, order);
            r.filters == f && ((forall field :: field in order ==> Normalize(Get(f, field)).Some?) ==> r.order == order)
  {
    ShownIsAvailable(p, orders, f, o);
    AvailableFieldsStay(p, orders, f, order);
  }

  lemma {:induction false} WeekdaysMember(p: Platform, dates: seq<string>, d: string)
    requires d in dates && WeekdayFor(p, d).Some?
    ensures WeekdayFor(p, d).value in Weekdays(p, dates)
  {
    var init, last := dates[..|dates| - 1], dates[|dates| - 1];
    if d == last {
    } else {
      assert dates == init + [last];
      WeekdaysMember(p, init, d);
    }
  }

  /** A shown order has the weekday that the selected dates imply. */
  lemma ShownHasSyncedWeekday(p: Platform, f: Filters, o: Order)
    requires Lawful(p) && TidyOrder(p, o) && DateShown(p, o, f) && SyncedWeekday(p, f).Some?
    ensures OrderWeekday(p, o) == SyncedWeekday(p, f)
  {
    var dates := Parse(f.deliveryDates, p.leq);
    if dates != [] {
      var d := o.deliveryDate.value;
      NormalizeIsNormal(d);
      WeekdaysMember(p, dates, d);
    }
  }

  lemma {:induction false} WeekdaysAreWeekdays(p: Platform, dates: seq<string>)
    requires Lawful(p)
    ensures forall w :: w in Weekdays(p, dates) ==> w in WEEKDAYS
  {
    if dates == [] {
    } else {
      WeekdaysAreWeekdays(p, dates[..|dates| - 1]);
    }
  }

  lemma SyncedIsWeekday(p: Platform, f: Filters)
    requires Lawful(p) && SyncedWeekday(p, f).Some?
    ensures SyncedWeekday(p, f).value in WEEKDAYS
    ensures Normalize(SyncedWeekday(p, f).value) == SyncedWeekday(p, f)
  {
    var dates := Parse(f.deliveryDates, p.leq);
    if dates != [] {
      WeekdaysAreWeekdays(p, dates);
    }
    WeekdayIsNormal(SyncedWeekday(p, f).value);
  }

  /** Pruning hides no shown order and blanks nothing but, perhaps, the weekday. */
  lemma PruneKeepsShown(p: Platform, orders: seq<Order>, s: Facets, o: Order)
    requires Lawful(p) && o in orders && TidyOrder(p, o) && Shown(p, o, s.filters) && ValidDates(p, s.filters)
    ensures var r := Prune(p, orders, s).filters; Shown(p, o, r) && r == s.filters.(weekday := r.weekday)
  {
    var authored := Weekday in s.order;
    var f := Unstale(p, s.filters, authored);
    BlankIsNone();
    assert Shown(p, o, f);
    PruneFieldsKeepsAll(p, orders, f, s.order, o);
    if SyncedWeekday(p, f).Some? {
      ShownHasSyncedWeekday(p, f, o);
      SyncedIsWeekday(p, f);
    }
  }

  /** With a date selected and an order in view, pruning only brings the weekday in step. */
  lemma SyncedAfterPrune(p: Platform, orders: seq<Order>, s: Facets, o: Order)
    requires Lawful(p) && o in orders && TidyOrder(p, o) && Shown(p, o, s.filters) && ValidDates(p, s.filters)
    requires !Undated(s.filters, p)
    ensures Prune(p, orders, s).filters == Sync(p, s.filters, Weekday in s.order)
  {
    PruneFieldsKeepsAll(p, orders, s.filters, s.order, o);
  }

  // ----- choosing an offered date -----

  lemma ListedDateHasOrder(p: Platform, orders: seq<Order>, f: Filters, d: string) returns (o: Order)
    requires Lawful(p) && Tidy(p, orders) && d in UniqueSorted(DeliveryDates(ApplyFilters(p, orders, f)), p.leq)
    ensures o in orders && o.deliveryDate == Some(d) && Shown(p, o, f)
  {
    var shown := ApplyFilters(p, orders, f);
    var dates := DeliveryDates(shown);
    NormalizeAllElements(dates);
    SortUniqueSorts(NormalizeAll(dates), p.leq);
    assert d in Elements(UniqueSorted(dates, p.leq));
    var v :| v in dates && Normalize(v) == Some(d);
    var i :| 0 <= i < |dates| && dates[i] == v;
    o := shown[i];
    ApplyFiltersMember(p, orders, f, o);
    BlankIsNone();
    NormalizeIsNormal(v);
  }

  lemma OfferedDateHasOrder(p: Platform, orders: seq<Order>, s: Facets, d: string) returns (o: Order)
    requires Lawful(p) && Tidy(p, orders) && d in DateOptions(p, orders, s.filters, s.order)
    ensures o in orders && o.deliveryDate == Some(d) && p.isDate(d)
    ensures Shown(p, o, Undecided(s.filters))
  {
    var f := s.filters;
    var h := if IsAutoFilledWeekday(p, f, s.order) then f.(weekday := "") else f;
    o := ListedDateHasOrder(p, orders, h.(deliveryDate := "", deliveryDates := ""), d);
    BlankHasNoDates(p);
  }

  /**
   Choosing an offered date, alone or among other valid dates, leaves an order on that
   date in view, fills in the weekday and changes no other filter.
   */
  lemma ChosenDateShowsAnOrder(p: Platform, orders: seq<Order>, s: Facets, d: string) returns (o: Order)
    requires Lawful(p) && Tidy(p, orders) && d in DateOptions(p, orders, s.filters, s.order)
    ensures o in orders && o.deliveryDate == Some(d) && p.weekdayOf(d).Some?
    ensures var r := Reconcile(p, orders, Date, s.(filters := s.filters.(deliveryDate := d))).filters;
            && Shown(p, o, r)
            && r == s.filters.(deliveryDate := d, deliveryDates := "", weekday := p.weekdayOf(d).value)
  {
    o := OfferedDateHasOrder(p, orders, s, d);
    var edited := s.(filters := s.filters.(deliveryDate := d));
    var settled := Settle(p, orders, Date, edited);
    NormalizeIsNormal(d);
    BlankHasNoDates(p);
    WeekdayIsNormal(p.weekdayOf(d).value);
    PruneKeepsShown(p, orders, settled, o);
    SyncedAfterPrune(p, orders, settled, o);
  }

  lemma ChosenDatesShowAnOrder(p: Platform, orders: seq<Order>, s: Facets, dates: string, d: string) returns (o: Order)
    requires Lawful(p) && Tidy(p, orders) && d in DateOptions(p, orders, s.filters, s.order)
    requires d in Parse(dates, p.leq) && forall x :: x in Parse(dates, p.leq) ==> p.isDate(x)
    ensures o in orders && o.deliveryDate == Some(d)
    ensures var r := Reconcile(p, orders, Dates, s.(filters := s.filters.(deliveryDates := dates))).filters;
            var weekday := Present(WeekdayForDates(p, dates));
            Shown(p, o, r) && r == s.filters.(deliveryDate := "", deliveryDates := dates, weekday := weekday)
  {
    o := OfferedDateHasOrder(p, orders, s, d);
    var edited := s.(filters := s.filters.(deliveryDates := dates));
    var f := WithDates(p, edited.filters);
    BlankHasNoDates(p);
    assert SyncedWeekday(p, f) == WeekdayForDates(p, dates);
    if SyncedWeekday(p, f).Some? {
      ShownHasSyncedWeekday(p, f, o);
      SyncedIsWeekday(p, f);
    }
    assert Shown(p, o, f);
    PruneKeepsShown(p, orders, Settle(p, orders, Dates, edited), o);
    SyncedAfterPrune(p, orders, Settle(p, orders, Dates, edited), o);
  }

  // ----- runs of edits -----

  /** The user edits one facet, or the page prunes after its pool of orders changed. */
  datatype Action =
    | Edit(field: Field, value: string, pool: seq<Order>)
    | Refresh(pool: seq<Order>)

  function Next(p: Platform, s: Facets, a: Action): Facets {
    match a
    case Edit(field, value, pool) => Reconcile(p, pool, field, s.(filters := Set(s.filters, field, value)))
    case Refresh(pool) => Prune(p, pool, s)
  }

  function After(p: Platform, actions: seq<Action>): Facets {
    if actions == [] then Facets(DEFAULT_FILTERS, [])
    else Next(p, After(p, actions[..|actions| - 1]), actions[|actions| - 1])
  }

  ghost predicate NoRepeats(order: seq<Field>) {
    forall i, j :: 0 <= i < j < |order| ==> order[i] != order[j]
  }

  predicate OneDateField(p: Platform, f: Filters) {
    Normalize(f.deliveryDate).None? || Parse(f.deliveryDates, p.leq) == []
  }

  ghost predicate Consistent(p: Platform, s: Facets) {
    // a single date and a set of dates are never both selected
    && OneDateField(p, s.filters)
    // if the selected dates share exactly one weekday, it is the weekday
    && (SyncedWeekday(p, s.filters).Some? ==> s.filters.weekday == SyncedWeekday(p, s.filters).value)
    // a weekday is the user's own or implied by the dates
    && (Normalize(s.filters.weekday).Some? ==> Weekday in s.order || SyncedWeekday(p, s.filters).Some?)
    // every listed field is set, and listed once
    && (forall field :: field in s.order ==> Normalize(Get(s.filters, field)).Some?)
    && NoRepeats(s.order)
  }

  ghost predicate PrunedFrom(f: Filters, order: seq<Field>, r: Facets) {
    && NoRepeats(r.order)
    && (forall field :: field in r.order <==> field in order && Normalize(Get(r.filters, field)).Some?)
    && (forall field :: Get(r.filters, field) == Get(f, field) || Get(r.filters, field) == "")
    && (forall field :: field !in order ==> Get(r.filters, field) == Get(f, field))
  }

  lemma GetSet(f: Filters, field: Field, value: string, other: Field)
    ensures Get(Set(f, field, value), other) == if other == field then value else Get(f, other)
  {
  }

  lemma PruneFieldResult(p: Platform, orders: seq<Order>, f: Filters, init: seq<Field>, s: Facets, field: Field)
    requires field !in init && PrunedFrom(f, init, s)
    ensures PrunedFrom(f, init + [field], PruneField(p, orders, s, field))
  {
    BlankIsNone();
    forall other ensures Get(Set(s.filters, field, ""), other) == if other == field then "" else Get(s.filters, other) {
      GetSet(s.filters, field, "", other);
    }
  }

  lemma {:induction false} PruneFieldsResult(p: Platform, orders: seq<Order>, f: Filters, order: seq<Field>)
    requires NoRepeats(order)
    ensures PrunedFrom(f, order, PruneFields(p, orders, f, order))
  {
    if order == [] {
    } else {
      var init, field := order[..|order| - 1], order[|order| - 1];
      PruneFieldsResult(p, orders, f, init);
      PruneFieldResult(p, orders, f, init, PruneFields(p, orders, f, init), field);
      assert order == init + [field];
    }
  }

  lemma SyncedIsDated(p: Platform, f: Filters)
    ensures SyncedWeekday(p, f).Some? ==> !Undated(f, p)
  {
  }

  lemma SyncedIgnoresWeekday(p: Platform, f: Filters, weekday: string)
    ensures SyncedWeekday(p, f.(weekday := weekday)) == SyncedWeekday(p, f)
    ensures OneDateField(p, f.(weekday := weekday)) == OneDateField(p, f)
  {
  }

  lemma SyncIsConsistent(p: Platform, f: Filters, order: seq<Field>, pruned: Facets)
    requires Lawful(p) && PrunedFrom(f, order, pruned) && OneDateField(p, pruned.filters)
    ensures Consistent(p, Facets(Sync(p, pruned.filters, Weekday in order), pruned.order))
  {
    var g := pruned.filters;
    var r := Sync(p, g, Weekday in order);
    BlankIsNone();
    SyncedIgnoresWeekday(p, g, r.weekday);
    assert r == g.(weekday := r.weekday);
    if SyncedWeekday(p, g).Some? {
      SyncedIsWeekday(p, g);
    }
    forall field | field in pruned.order ensures Normalize(Get(r, field)).Some? {
      assert field != Weekday ==> Get(r, field) == Get(g, field);
    }
    assert Get(g, Weekday) == g.weekday;
  }

  /** One pruning restores consistency from any filters that select dates in one field only. */
  lemma PruneIsConsistent(p: Platform, orders: seq<Order>, s: Facets)
    requires Lawful(p) && NoRepeats(s.order) && OneDateField(p, s.filters)
    ensures Consistent(p, Prune(p, orders, s))
  {
    var f := Unstale(p, s.filters, Weekday in s.order);
    var pruned := PruneFields(p, orders, f, s.order);
    PruneFieldsResult(p, orders, f, s.order);
    BlankHasNoDates(p);
    assert Get(pruned.filters, Date) == Get(f, Date) || Get(pruned.filters, Date) == "";
    assert Get(pruned.filters, Dates) == Get(f, Dates) || Get(pruned.filters, Dates) == "";
    SyncIsConsistent(p, f, s.order, pruned);
  }

  lemma Appended(order: seq<Field>, field: Field)
    requires NoRepeats(order) && field !in order
    ensures NoRepeats(order + [field])
    ensures forall x :: x in order + [field] <==> x in order || x == field
  {
  }

  lemma {:induction false} DropResult(order: seq<Field>, field: Field)
    requires NoRepeats(order)
    ensures forall x :: x in Drop(order, field) <==> x in order && x != field
    ensures NoRepeats(Drop(order, field))
  {
    if order == [] {
    } else {
      var init, last := order[..|order| - 1], order[|order| - 1];
      DropResult(init, field);
      assert order == init + [last];
      if last != field {
        Appended(Drop(init, field), last);
      }
    }
  }

  lemma MovedToEnd(order: seq<Field>, changed: Field)
    requires NoRepeats(order)
    ensures NoRepeats(Drop(order, changed) + [changed])
  {
    DropResult(order, changed);
    Appended(Drop(order, changed), changed);
  }

  lemma UndatedOrder(order: seq<Field>)
    requires NoRepeats(order)
    ensures NoRepeats(Drop(Drop(order, Date), Dates)) && NoRepeats(Drop(Drop(order, Date), Dates) + [Dates])
  {
    DropResult(order, Date);
    MovedToEnd(Drop(order, Date), Dates);
    DropResult(Drop(order, Date), Dates);
  }

  lemma DroppedAfterMove(order: seq<Field>, changed: Field)
    requires NoRepeats(order)
    ensures NoRepeats(Drop(Drop(order, changed) + [changed], Weekday))
  {
    MovedToEnd(order, changed);
    DropResult(Drop(order, changed) + [changed], Weekday);
  }

  lemma SettleOrder(p: Platform, orders: seq<Order>, changed: Field, s: Facets)
    requires NoRepeats(s.order)
    ensures NoRepeats(Settle(p, orders, changed, s).order)
  {
    MovedToEnd(s.order, changed);
    match changed
    case Weekday => UndatedOrder(Drop(s.order, changed) + [changed]);
    case Date => DroppedAfterMove(s.order, changed);
    case Dates => DroppedAfterMove(s.order, changed);
    case _ =>
  }

  lemma SettleDates(p: Platform, orders: seq<Order>, changed: Field, s: Facets, value: string)
    requires OneDateField(p, s.filters)
    ensures OneDateField(p, Settle(p, orders, changed, s.(filters := Set(s.filters, changed, value))).filters)
  {
    BlankHasNoDates(p);
  }

  lemma SettleResult(p: Platform, orders: seq<Order>, changed: Field, s: Facets, value: string)
    requires Consistent(p, s)
    ensures var r := Settle(p, orders, changed, s.(filters := Set(s.filters, changed, value)));
            NoRepeats(r.order) && OneDateField(p, r.filters)
  {
    SettleOrder(p, orders, changed, s.(filters := Set(s.filters, changed, value)));
    SettleDates(p, orders, changed, s, value);
  }

  /** Along every run of edits and refreshes from the default filters, the state is consistent. */
  lemma {:induction false} EveryRunIsConsistent(p: Platform, actions: seq<Action>)
    requires Lawful(p)
    ensures Consistent(p, After(p, actions))
  {
    BlankHasNoDates(p);
    if actions == [] {
      assert WeekdayFor(p, "") == None;
    } else {
      var init, a := actions[..|actions| - 1], actions[|actions| - 1];
      EveryRunIsConsistent(p, init);
      var s := After(p, init);
      match a
      case Edit(field, value, pool) =>
        SettleResult(p, pool, field, s, value);
        PruneIsConsistent(p, pool, Settle(p, pool, field, s.(filters := Set(s.filters, field, value))));
      case Refresh(pool) =>
        PruneIsConsistent(p, pool, s);
    }
  }

  // ----- the calendar does not shrink -----

  ghost predicate TypedWeekday(f: Filters) {
    f.weekday == "" || f.weekday in WEEKDAYS
  }

  lemma TypedWeekdayIsSet(f: Filters)
    requires TypedWeekday(f)
    ensures Normalize(Get(f, Weekday)).None? <==> f.weekday == ""
  {
    BlankIsNone();
    if f.weekday != "" { WeekdayIsNormal(f.weekday); }
  }

  lemma DateOptionsUndecided(p: Platform, orders: seq<Order>, s: Facets)
    requires IsAutoFilledWeekday(p, s.filters, s.order) || s.filters.weekday == ""
    ensures DateOptions(p, orders, s.filters, s.order)
         == UniqueSorted(DeliveryDates(ApplyFilters(p, orders, Undecided(s.filters))), p.leq)
  {
    var f := s.filters;
    var g := if IsAutoFilledWeekday(p, f, s.order) then f.(weekday := "") else f;
    assert g.(deliveryDate := "", deliveryDates := "") == Undecided(f);
  }

  lemma WeekdayIsAutoFilled(p: Platform, s: Facets)
    requires Normalize(s.filters.weekday).Some? ==> SyncedWeekday(p, s.filters).Some?
    requires TypedWeekday(s.filters) && Weekday !in s.order
    ensures IsAutoFilledWeekday(p, s.filters, s.order) || s.filters.weekday == ""
  {
    if s.filters.weekday != "" {
      TypedWeekdayIsSet(s.filters);
      assert Get(s.filters, Weekday) == s.filters.weekday;
      SyncedIsDated(p, s.filters);
    }
  }

  lemma DateOptionsConsistent(p: Platform, orders: seq<Order>, s: Facets)
    requires Consistent(p, s) && TypedWeekday(s.filters) && Weekday !in s.order
    ensures DateOptions(p, orders, s.filters, s.order)
         == UniqueSorted(DeliveryDates(ApplyFilters(p, orders, Undecided(s.filters))), p.leq)
  {
    WeekdayIsAutoFilled(p, s);
    DateOptionsUndecided(p, orders, s);
  }

  lemma DateIsListed(p: Platform, orders: seq<Order>, f: Filters, o: Order, d: string)
    requires Lawful(p) && o in orders && Shown(p, o, f) && o.deliveryDate == Some(d) && Normal(d)
    ensures d in UniqueSorted(DeliveryDates(ApplyFilters(p, orders, f)), p.leq)
  {
    ApplyFiltersMember(p, orders, f, o);
    var shown := ApplyFilters(p, orders, f);
    var i :| 0 <= i < |shown| && shown[i] == o;
    assert DeliveryDates(shown)[i] == d;
    NormalizeIsNormal(d);
    UniqueSortedMember(DeliveryDates(shown), d, p.leq);
  }

  /** Every date on offer is offered by an order that only the date and weekday filters may hide. */
  lemma OfferedWhileUndecided(p: Platform, orders: seq<Order>, s: Facets, e: string)
    requires Lawful(p) && Tidy(p, orders) && e in DateOptions(p, orders, s.filters, s.order)
    ensures e in UniqueSorted(DeliveryDates(ApplyFilters(p, orders, Undecided(s.filters))), p.leq)
  {
    var o := OfferedDateHasOrder(p, orders, s, e);
    DateIsListed(p, orders, Undecided(s.filters), o, e);
  }

  lemma SyncIsStable(p: Platform, f: Filters, order: seq<Field>, pruned: Facets)
    requires Lawful(p) && PrunedFrom(f, order, pruned) && TypedWeekday(pruned.filters)
    ensures var g, authored := Sync(p, pruned.filters, Weekday in order), Weekday in pruned.order;
            TypedWeekday(g) && Unstale(p, g, authored) == g && Sync(p, g, authored) == g
  {
    var g := Sync(p, pruned.filters, Weekday in order);
    BlankIsNone();
    SyncedIgnoresWeekday(p, pruned.filters, g.weekday);
    assert g == pruned.filters.(weekday := g.weekday);
    if SyncedWeekday(p, g).Some? {
      SyncedIsWeekday(p, g);
    } else if Weekday !in pruned.order {
      TypedWeekdayIsSet(pruned.filters);
      assert g.weekday == "";
    }
  }

  /** The weekday is in step with the dates, so that pruning starts and ends with the same filters. */
  ghost predicate Synced(p: Platform, t: Facets) {
    && NoRepeats(t.order) && TypedWeekday(t.filters)
    && Unstale(p, t.filters, Weekday in t.order) == t.filters
    && Sync(p, t.filters, Weekday in t.order) == t.filters
  }

  lemma PrunedIsSynced(p: Platform, orders: seq<Order>, s: Facets)
    requires Lawful(p) && NoRepeats(s.order) && TypedWeekday(s.filters)
    ensures Synced(p, Prune(p, orders, s))
  {
    var f := Unstale(p, s.filters, Weekday in s.order);
    var pruned := PruneFields(p, orders, f, s.order);
    PruneFieldsResult(p, orders, f, s.order);
    assert Get(pruned.filters, Weekday) == Get(f, Weekday) || Get(pruned.filters, Weekday) == "";
    SyncIsStable(p, f, s.order, pruned);
  }

  /** After choosing an offered date the weekday is not the user's, and the other filters are as before. */
  lemma ChosenDateIsUndecided(p: Platform, orders: seq<Order>, s: Facets, d: string)
    requires Lawful(p) && Tidy(p, orders) && Consistent(p, s) && d in DateOptions(p, orders, s.filters, s.order)
    ensures var r := Reconcile(p, orders, Date, s.(filters := s.filters.(deliveryDate := d)));
            && Consistent(p, r) && TypedWeekday(r.filters) && Weekday !in r.order
            && Undecided(r.filters) == Undecided(s.filters)
  {
    var o := OfferedDateHasOrder(p, orders, s, d);
    var settled := Settle(p, orders, Date, s.(filters := s.filters.(deliveryDate := d)));
    NormalizeIsNormal(d);
    BlankHasNoDates(p);
    WeekdayIsNormal(p.weekdayOf(d).value);
    PruneKeepsShown(p, orders, settled, o);
    SettleResult(p, orders, Date, s, d);
    PruneIsConsistent(p, orders, settled);
    PrunedIsSynced(p, orders, settled);
    MovedToEnd(s.order, Date);
    DropResult(Drop(s.order, Date) + [Date], Weekday);
    PruneFieldsResult(p, orders, Unstale(p, settled.filters, false), settled.order);
  }

  /**
   Choosing an offered date keeps every date on offer, and offers more only if the user
   had chosen a weekday.
   */
  lemma ChosenDateKeepsOffer(p: Platform, orders: seq<Order>, s: Facets, d: string)
    requires Lawful(p) && Tidy(p, orders) && Consistent(p, s) && TypedWeekday(s.filters)
    requires d in DateOptions(p, orders, s.filters, s.order)
    ensures var r := Reconcile(p, orders, Date, s.(filters := s.filters.(deliveryDate := d)));
            var before, after := DateOptions(p, orders, s.filters, s.order), DateOptions(p, orders, r.filters, r.order);
            (forall e :: e in before ==> e in after) && (Weekday !in s.order ==> after == before)
  {
    var r := Reconcile(p, orders, Date, s.(filters := s.filters.(deliveryDate := d)));
    ChosenDateIsUndecided(p, orders, s, d);
    DateOptionsConsistent(p, orders, r);
    forall e | e in DateOptions(p, orders, s.filters, s.order) ensures e in DateOptions(p, orders, r.filters, r.order) {
      OfferedWhileUndecided(p, orders, s, e);
    }
    if Weekday !in s.order { DateOptionsConsistent(p, orders, s); }
  }

  // ----- repeated pruning settles -----

  function Iterate<S>(step: S -> S, s: S, n: nat): S
    decreases n
  {
    if n == 0 then s else Iterate(step, step(s), n - 1)
  }

  ghost predicate ShrinksOrRests<S(!new)>(step: S -> S, size: S -> nat, good: S -> bool) {
    forall x :: good(x) ==> good(step(x)) && (size(step(x)) < size(x) || step(x) == x)
  }

  /** A step that shrinks a measure or changes nothing reaches a fixed point within that measure. */
  lemma {:induction false} ReachesFixedPoint<S(!new)>(step: S -> S, size: S -> nat, good: S -> bool, s: S)
    returns (n: nat)
    requires good(s) && ShrinksOrRests(step, size, good)
    ensures n <= size(s) && step(Iterate(step, s, n)) == Iterate(step, s, n)
    decreases size(s)
  {
    if step(s) == s {
      n := 0;
    } else {
      var m := ReachesFixedPoint(step, size, good, step(s));
      n := m + 1;
    }
  }

  lemma ReachesFixedPointAfterOne<S(!new)>(step: S -> S, size: S -> nat, good: S -> bool, s: S) returns (n: nat)
    requires good(step(s)) && size(step(s)) <= size(s) && ShrinksOrRests(step, size, good)
    ensures n <= size(s) + 1 && step(Iterate(step, s, n)) == Iterate(step, s, n)
  {
    var m := ReachesFixedPoint(step, size, good, step(s));
    n := m + 1;
  }

  lemma {:induction false} PruneFieldsShrinks(p: Platform, orders: seq<Order>, f: Filters, order: seq<Field>)
    ensures var r := PruneFields(p, orders, f, order);
            |r.order| <= |order| && (|r.order| == |order| ==> r == Facets(f, order))
  {
    if order == [] {
    } else {
      PruneFieldsShrinks(p, orders, f, order[..|order| - 1]);
      assert order == order[..|order| - 1] + [order[|order| - 1]];
    }
  }

  lemma PruneListsNoMore(p: Platform, orders: seq<Order>, s: Facets)
    ensures |Prune(p, orders, s).order| <= |s.order|
  {
    PruneFieldsShrinks(p, orders, Unstale(p, s.filters, Weekday in s.order), s.order);
  }

  /** Once in step, a pruning with any orders lists fewer fields or changes nothing. */
  lemma PruneShrinksOrRests(p: Platform, orders: seq<Order>, t: Facets)
    requires Lawful(p) && Synced(p, t)
    ensures var r := Prune(p, orders, t);
            Synced(p, r) && (|r.order| < |t.order| || r == t)
  {
    PrunedIsSynced(p, orders, t);
    PruneFieldsShrinks(p, orders, t.filters, t.order);
  }

  /** How many prunings change something when each is given the next pool of orders. */
  function Changes(p: Platform, pools: seq<seq<Order>>, s: Facets): nat {
    if pools == [] then 0 else
    var t := Prune(p, pools[0], s);
    Changes(p, pools[1..], t) + if t != s then 1 else 0
  }

  lemma {:induction false} ChangesOnceSynced(p: Platform, pools: seq<seq<Order>>, s: Facets)
    requires Lawful(p) && Synced(p, s)
    ensures Changes(p, pools, s) <= |s.order|
  {
    if pools == [] {
    } else {
      PruneShrinksOrRests(p, pools[0], s);
      ChangesOnceSynced(p, pools[1..], Prune(p, pools[0], s));
    }
  }

  /** However the pool of orders changes, at most one pruning per listed field and one more change anything. */
  lemma PruningChangesAtMost(p: Platform, pools: seq<seq<Order>>, s: Facets)
    requires Lawful(p) && NoRepeats(s.order) && TypedWeekday(s.filters)
    ensures Changes(p, pools, s) <= |s.order| + 1
  {
    if pools != [] {
      PrunedIsSynced(p, pools[0], s);
      PruneListsNoMore(p, pools[0], s);
      ChangesOnceSynced(p, pools[1..], Prune(p, pools[0], s));
    }
  }

  /** The effect of the page: prune with the pool that the current filters give. */
  function Pruner(p: Platform, pool: Facets -> seq<Order>): Facets -> Facets {
    s => Prune(p, pool(s), s)
  }

  ghost function InStep(p: Platform): Facets -> bool {
    t => Synced(p, t)
  }

  ghost function ListLength(): Facets -> nat {
    (t: Facets) => |t.order|
  }

  lemma PrunerShrinksOrRests(p: Platform, pool: Facets -> seq<Order>)
    requires Lawful(p)
    ensures ShrinksOrRests(Pruner(p, pool), ListLength(), InStep(p))
  {
    var step, size, good := Pruner(p, pool), ListLength(), InStep(p);
    forall x | good(x) ensures good(step(x)) && (size(step(x)) < size(x) || step(x) == x) {
      PruneShrinksOrRests(p, pool(x), x);
    }
  }

  lemma FirstPruning(p: Platform, pool: Facets -> seq<Order>, s: Facets)
    requires Lawful(p) && NoRepeats(s.order) && TypedWeekday(s.filters)
    ensures InStep(p)(Pruner(p, pool)(s))
    ensures ListLength()(Pruner(p, pool)(s)) <= ListLength()(s)
  {
    PrunedIsSynced(p, pool(s), s);
    PruneListsNoMore(p, pool(s), s);
  }

  /**
   Pruning until nothing changes, with a pool of orders that depends on the filters in
   any way, stops after at most one round per listed field and one more.
   */
  lemma PruningSettles(p: Platform, pool: Facets -> seq<Order>, s: Facets) returns (n: nat)
    requires Lawful(p) && NoRepeats(s.order) && TypedWeekday(s.filters)
    ensures n <= |s.order| + 1
    ensures var r := Iterate(Pruner(p, pool), s, n); Pruner(p, pool)(r) == r
  {
    FirstPruning(p, pool, s);
    PrunerShrinksOrRests(p, pool);
    n := ReachesFixedPointAfterOne(Pruner(p, pool), ListLength(), InStep(p), s);
  }

  // ----- the laws can be met -----

  function Lexicographic(a: string, b: string): bool {
    a == "" || (b != "" && (a[0] < b[0] || (a[0] == b[0] && Lexicographic(a[1..], b[1..]))))
  }

  lemma {:induction false} LexicographicOrders(a: string, b: string, c: string)
    ensures Lexicographic(a, b) || Lexicographic(b, a)
    ensures Lexicographic(a, b) && Lexicographic(b, a) ==> a == b
    ensures Lexicographic(a, b) && Lexicographic(b, c) ==> Lexicographic(a, c)
  {
    if a == "" || b == "" {
    } else {
      LexicographicOrders(a[1..], b[1..], if c == "" then c else c[1..]);
      assert a == [a[0]] + a[1..] && b == [b[0]] + b[1..];
    }
  }

  /** There is a platform with these laws, so nothing here holds for want of one. */
  lemma LawfulPlatformExists() returns (p: Platform)
    ensures Lawful(p) && p.isDate("2026-01-05") && p.isDate("2026-01-06")
    ensures p.weekdayOf("2026-01-05") != p.weekdayOf("2026-01-06")
  {
    p := Platform((a, b) => Lexicographic(a, b),
                  s => if s == "2026-01-05" then Some("mon") else if s == "2026-01-06" then Some("tue") else None,
                  s => s == "2026-01-05" || s == "2026-01-06", s => s);
    forall a, b, c
      ensures p.leq(a, b) || p.leq(b, a)
      ensures p.leq(a, b) && p.leq(b, a) ==> a == b
      ensures p.leq(a, b) && p.leq(b, c) ==> p.leq(a, c)
    {
      LexicographicOrders(a, b, c);
    }
    assert Normal("2026-01-05") && Normal("2026-01-06");
    assert "mon" == WEEKDAYS[1] && "tue" == WEEKDAYS[2];
    assert "mon"[0] != "tue"[0];
  }

  lemma OnlyDateIsOffered(p: Platform, o: Order, d: string)
    requires Lawful(p) && Normal(d) && o.deliveryDate == Some(d)
    ensures d in DateOptions(p, [o], DEFAULT_FILTERS, [])
  {
    var f := DEFAULT_FILTERS;
    BlankHasNoDates(p);
    DateOptionsUndecided(p, [o], Facets(f, []));
    DateIsListed(p, [o], Undecided(f), o, d);
  }

  lemma OneDateParses(d: string, leq: Collation)
    requires Normal(d) && ',' !in d
    ensures Parse(d, leq) == [d]
  {
    NormalizeIsNormal(d);
    SplitPlain(d);
    assert [d][..0] == [];
    assert NormalizeAll([d]) == [d];
    assert SortUnique([d], leq) == [d];
  }

  /** Every valid date is offered by a page with one order on it, so the theorems about offered dates are not empty. */
  lemma OfferedDateExists(p: Platform, d: string) returns (orders: seq<Order>, s: Facets)
    requires Lawful(p) && p.isDate(d)
    ensures Tidy(p, orders) && Consistent(p, s) && TypedWeekday(s.filters) && Weekday !in s.order
    ensures d in DateOptions(p, orders, s.filters, s.order)
    ensures Parse(d, p.leq) == [d]
  {
    var o := Order(None, Some(d), None, None, "", false, false, false, []);
    orders, s := [o], After(p, []);
    EveryRunIsConsistent(p, []);
    OnlyDateIsOffered(p, o, d);
    OneDateParses(d, p.leq);
  }
}
