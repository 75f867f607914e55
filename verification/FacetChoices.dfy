/**
 What the faceted filters offer, and what choosing an area or a type does: the chosen
 value stays, an order of it is in view, and nothing else changes.
 */
module FacetChoices {
  import opened DateSets
  import opened FacetRuns
  import opened FacetWeekdays
  import opened OrderFilters
  import opened SortedSets
  import opened Text
  import opened Wrappers

  // ----- what is offered -----

  lemma AreaOptionIsNotBlank(p: Platform, orders: seq<Order>, f: Filters, area: string)
    requires Lawful(p) && area in AreaOptions(p, orders, f)
    ensures area != ""
  {
    var shown := ApplyFilters(p, orders, f.(deliveryArea := ""));
    SortUniqueSorts(Areas(shown), p.leq);
    assert area in Elements(AreaOptions(p, orders, f));
    var o := AreasOrigin(shown, area);
  }

  /** An area is offered exactly if an order that only the area filter may hide has it. */
  lemma AreaOptionsAre(p: Platform, orders: seq<Order>, f: Filters, area: string)
    requires Lawful(p) && Tidy(p, orders)
    ensures area in AreaOptions(p, orders, f) <==>
              && area != ""
              && exists o :: o in orders && Shown(p, o, f.(deliveryArea := "")) && o.deliveryArea == Some(area)
  {
    if area in AreaOptions(p, orders, f) {
      var o := AreaHasOrder(p, orders, f, area);
      AreaOptionIsNotBlank(p, orders, f, area);
    }
    if o :| o in orders && Shown(p, o, f.(deliveryArea := "")) && o.deliveryArea == Some(area) {
      ApplyFiltersMember(p, orders, f.(deliveryArea := ""), o);
      TrimIsTrimmed(area);
      if area != "" {
        AreasMember(ApplyFilters(p, orders, f.(deliveryArea := "")), o);
        SortUniqueSorts(Areas(ApplyFilters(p, orders, f.(deliveryArea := ""))), p.leq);
        assert area in Elements(AreaOptions(p, orders, f));
      }
    }
  }

  lemma SourceTypeNormalizes(o: Order)
    ensures SourceType(o).Some? ==> Normalize(SourceType(o).value) == SourceType(o)
  {
    NormalizeTwice(Present(o.serviceType));
    NormalizeTwice(Present(o.deliverySession));
  }

  /** A type is offered exactly if an order that only the type filter may hide is of it. */
  lemma TypeOptionsAre(p: Platform, orders: seq<Order>, f: Filters, kind: string)
    requires Lawful(p)
    ensures kind in TypeOptions(p, orders, f) <==>
              exists o :: o in orders && Shown(p, o, f.(routeType := "")) && SourceType(o) == Some(kind)
  {
    if kind in TypeOptions(p, orders, f) {
      var o := TypeHasOrder(p, orders, f, kind);
    }
    if o :| o in orders && Shown(p, o, f.(routeType := "")) && SourceType(o) == Some(kind) {
      var shown := ApplyFilters(p, orders, f.(routeType := ""));
      ApplyFiltersMember(p, orders, f.(routeType := ""), o);
      var i :| 0 <= i < |shown| && shown[i] == o;
      assert SourceTypes(shown)[i] == kind;
      SourceTypeNormalizes(o);
      UniqueSortedMember(SourceTypes(shown), kind, p.leq);
    }
  }

  /** The filters under which dates are offered: without the dates, and without a weekday that they filled in. */
  function ForDates(p: Platform, f: Filters, order: seq<Field>): Filters {
    var dated := Normalize(f.deliveryDate).Some? || Parse(f.deliveryDates, p.leq) != [];
    f.(deliveryDate := "", deliveryDates := "",
       weekday := if dated && Normalize(f.weekday).Some? && Weekday !in order then "" else f.weekday)
  }

  lemma DateOptionsFor(p: Platform, orders: seq<Order>, f: Filters, order: seq<Field>)
    ensures DateOptions(p, orders, f, order)
         == UniqueSorted(DeliveryDates(ApplyFilters(p, orders, ForDates(p, f, order))), p.leq)
  {
    var g := if IsAutoFilledWeekday(p, f, order) then f.(weekday := "") else f;
    assert g.(deliveryDate := "", deliveryDates := "") == ForDates(p, f, order);
  }

  /** A date is offered exactly if an order that only those filters may hide has it. */
  lemma DateOptionsAre(p: Platform, orders: seq<Order>, f: Filters, order: seq<Field>, d: string)
    requires Lawful(p) && Tidy(p, orders)
    ensures d in DateOptions(p, orders, f, order) <==>
              exists o :: o in orders && Shown(p, o, ForDates(p, f, order)) && o.deliveryDate == Some(d)
  {
    DateOptionsFor(p, orders, f, order);
    if d in DateOptions(p, orders, f, order) {
      var o := ListedDateHasOrder(p, orders, ForDates(p, f, order), d);
    }
    if o :| o in orders && Shown(p, o, ForDates(p, f, order)) && o.deliveryDate == Some(d) {
      DateIsListed(p, orders, ForDates(p, f, order), o, d);
    }
  }

  /** A weekday is offered exactly if an order that only dates and weekday may hide falls on it. */
  lemma WeekdayOfferedIff(p: Platform, orders: seq<Order>, f: Filters, weekday: string)
    requires Lawful(p)
    ensures WeekdayOffered(p, orders, f, weekday) <==>
              exists o :: o in orders && Shown(p, o, Undecided(f)) && OrderWeekday(p, o) == Some(weekday)
  {
    if WeekdayOffered(p, orders, f, weekday) {
      var o :| o in ApplyFilters(p, orders, Undecided(f)) && OrderWeekday(p, o) == Some(weekday);
      ApplyFiltersMember(p, orders, Undecided(f), o);
    }
    if o :| o in orders && Shown(p, o, Undecided(f)) && OrderWeekday(p, o) == Some(weekday) {
      ApplyFiltersMember(p, orders, Undecided(f), o);
      OrderWeekdayIsListed(p, o);
      OfferedBy(p, orders, f, o, weekday);
    }
  }

  // ----- choosing an area or a type -----

  /** The edit history after an edit: the field last, if it is set. */
  function Relisted(order: seq<Field>, field: Field, value: string): seq<Field> {
    if Normalize(value).Some? then Drop(order, field) + [field] else Drop(order, field)
  }

  lemma SyncedSame(p: Platform, f: Filters, g: Filters)
    requires f.deliveryDate == g.deliveryDate && f.deliveryDates == g.deliveryDates
    ensures SyncedWeekday(p, f) == SyncedWeekday(p, g) && Undated(f, p) == Undated(g, p)
  {
  }

  lemma ConsistentWeekdayIsKept(p: Platform, s: Facets)
    requires Lawful(p) && Consistent(p, s) && TypedWeekday(s.filters)
    ensures Unstale(p, s.filters, Weekday in s.order) == s.filters
    ensures Sync(p, s.filters, Weekday in s.order) == s.filters
  {
    if s.filters.weekday == "" {
    } else {
      TypedWeekdayIsSet(s.filters);
      assert Get(s.filters, Weekday) == s.filters.weekday;
      SyncedIsDated(p, s.filters);
    }
  }

  lemma ConsistentWeekdayStays(p: Platform, s: Facets, f: Filters)
    requires Lawful(p) && Consistent(p, s) && TypedWeekday(s.filters)
    requires f.deliveryDate == s.filters.deliveryDate && f.deliveryDates == s.filters.deliveryDates
    requires f.weekday == s.filters.weekday
    ensures Unstale(p, f, Weekday in s.order) == f && Sync(p, f, Weekday in s.order) == f
  {
    ConsistentWeekdayIsKept(p, s);
    SyncedSame(p, s.filters, f);
  }

  lemma PrunedRelisted(p: Platform, orders: seq<Order>, f: Filters, init: seq<Field>, field: Field, o: Order)
    requires Lawful(p) && o in orders && TidyOrder(p, o) && Shown(p, o, f) && ValidDates(p, f)
    requires forall x :: x in init ==> Normalize(Get(f, x)).Some?
    ensures PruneFields(p, orders, f, init + [field])
         == Facets(f, if Normalize(Get(f, field)).Some? then init + [field] else init)
  {
    PruneFieldsKeepsAll(p, orders, f, init, o);
    PruneFieldsKeepsAll(p, orders, f, init + [field], o);
    PruneFieldsMore(p, orders, f, init, field);
  }

  /** The edit sets this filter, moves it to the end of the history or out of it, and changes nothing else. */
  predicate OnlyThisChanges(p: Platform, orders: seq<Order>, s: Facets, field: Field, value: string) {
    Reconcile(p, orders, field, s.(filters := Set(s.filters, field, value)))
    == Facets(Set(s.filters, field, value), Relisted(s.order, field, value))
  }

  /** An edit of the area or the type that leaves an order in view changes that filter and nothing else. */
  lemma EditChangesOneFilter(p: Platform, orders: seq<Order>, s: Facets, field: Field, value: string, o: Order)
    requires Lawful(p) && Consistent(p, s) && TypedWeekday(s.filters) && ValidDates(p, s.filters)
    requires (field == Area || field == RouteType) && o in orders && TidyOrder(p, o)
    requires Shown(p, o, Set(s.filters, field, value))
    ensures OnlyThisChanges(p, orders, s, field, value)
  {
    var f, init := Set(s.filters, field, value), Drop(s.order, field);
    DropMember(s.order, field, Weekday);
    forall x | x in init ensures Normalize(Get(f, x)).Some? {
      DropMember(s.order, field, x);
      GetSet(s.filters, field, value, x);
    }
    GetSet(s.filters, field, value, field);
    ConsistentWeekdayStays(p, s, f);
    PrunedRelisted(p, orders, f, init, field, o);
    assert Settle(p, orders, field, s.(filters := f)) == Facets(f, init + [field]);
    assert Weekday in init + [field] <==> Weekday in s.order;
  }

  lemma TypedOrderIsShown(p: Platform, o: Order, f: Filters, kind: string)
    requires Shown(p, o, f.(routeType := "")) && SourceType(o) == Some(kind)
    ensures Shown(p, o, Set(f, RouteType, kind)) && Normalize(kind) == Some(kind)
  {
    SourceTypeNormalizes(o);
  }

  lemma OfferedTypeIsShown(p: Platform, orders: seq<Order>, f: Filters, kind: string) returns (o: Order)
    requires Lawful(p) && Tidy(p, orders) && kind in TypeOptions(p, orders, f)
    ensures o in orders && TidyOrder(p, o) && SourceType(o) == Some(kind) && Normalize(kind) == Some(kind)
    ensures Shown(p, o, Set(f, RouteType, kind))
  {
    o := TypeHasOrder(p, orders, f, kind);
    TypedOrderIsShown(p, o, f, kind);
  }

  /** Choosing an offered type keeps it, has an order of it in view and changes nothing else. */
  lemma ChosenTypeShowsAnOrder(p: Platform, orders: seq<Order>, s: Facets, kind: string) returns (o: Order)
    requires Lawful(p) && Tidy(p, orders) && Consistent(p, s) && TypedWeekday(s.filters) && ValidDates(p, s.filters)
    requires kind in TypeOptions(p, orders, s.filters)
    ensures o in orders && SourceType(o) == Some(kind) && Shown(p, o, Set(s.filters, RouteType, kind))
    ensures OnlyThisChanges(p, orders, s, RouteType, kind) && Normalize(kind) == Some(kind)
  {
    o := OfferedTypeIsShown(p, orders, s.filters, kind);
    EditChangesOneFilter(p, orders, s, RouteType, kind, o);
  }

  /**
   Choosing an offered area keeps it, has an order of it in view and changes nothing else.
   An area that is called "all" stands for no area, so it is kept but not listed.
   */
  lemma ChosenAreaShowsAnOrder(p: Platform, orders: seq<Order>, s: Facets, area: string) returns (o: Order)
    requires Lawful(p) && Tidy(p, orders) && Consistent(p, s) && TypedWeekday(s.filters) && ValidDates(p, s.filters)
    requires area in AreaOptions(p, orders, s.filters)
    ensures o in orders && o.deliveryArea == Some(area) && Shown(p, o, Set(s.filters, Area, area))
    ensures OnlyThisChanges(p, orders, s, Area, area) && (Normalize(area) == None <==> area == "all")
  {
    o := AreaHasOrder(p, orders, s.filters, area);
    AreaOptionIsNotBlank(p, orders, s.filters, area);
    NormalizeIsNormal(area);
    assert Set(s.filters, Area, area) == s.filters.(deliveryArea := area);
    EditChangesOneFilter(p, orders, s, Area, area, o);
  }

  // ----- the edit history after choosing dates -----

  /** The fields that stay in the history when a date field is chosen: it, and the area and type that are set. */
  predicate StaysListed(s: Facets, chosen: Field, field: Field) {
    field == chosen
    || ((field == Area || field == RouteType) && field in s.order && Normalize(Get(s.filters, field)).Some?)
  }

  lemma ListedAfterPrune(p: Platform, orders: seq<Order>, s: Facets, o: Order, field: Field)
    requires Lawful(p) && o in orders && TidyOrder(p, o) && Shown(p, o, s.filters) && ValidDates(p, s.filters)
    requires !Undated(s.filters, p)
    ensures field in Prune(p, orders, s).order <==> field in s.order && Normalize(Get(s.filters, field)).Some?
  {
    ShownIsAvailable(p, orders, s.filters, o);
    AvailableFieldsListed(p, orders, s.filters, s.order, field);
  }

  lemma DateIsSettled(p: Platform, orders: seq<Order>, s: Facets, d: string, o: Order)
    requires Lawful(p) && TidyOrder(p, o) && Shown(p, o, Undecided(s.filters)) && o.deliveryDate == Some(d)
    ensures var r := Settle(p, orders, Date, s.(filters := s.filters.(deliveryDate := d)));
            && r.filters == s.filters.(deliveryDate := d, deliveryDates := "", weekday := Present(p.weekdayOf(d)))
            && r.order == Drop(Drop(s.order, Date) + [Date], Weekday)
            && Shown(p, o, r.filters) && ValidDates(p, r.filters) && !Undated(r.filters, p)
  {
    NormalizeIsNormal(d);
    BlankHasNoDates(p);
    WeekdayIsNormal(p.weekdayOf(d).value);
  }

  lemma SettledDateIsListed(p: Platform, s: Facets, r: Facets, d: string, field: Field)
    requires Normalize(d).Some? && r.order == Drop(Drop(s.order, Date) + [Date], Weekday)
    requires r.filters == s.filters.(deliveryDate := d, deliveryDates := "", weekday := r.filters.weekday)
    ensures field in r.order && Normalize(Get(r.filters, field)).Some? <==> StaysListed(s, Date, field)
  {
    BlankIsNone();
    DropMember(s.order, Date, field);
    DropMember(Drop(s.order, Date) + [Date], Weekday, field);
  }

  /** After choosing an offered date it is listed, the weekday and the set of dates are not, area and type as before. */
  lemma ChosenDateIsListed(p: Platform, orders: seq<Order>, s: Facets, d: string, field: Field)
    requires Lawful(p) && Tidy(p, orders) && d in DateOptions(p, orders, s.filters, s.order)
    ensures field in Reconcile(p, orders, Date, s.(filters := s.filters.(deliveryDate := d))).order
            <==> StaysListed(s, Date, field)
  {
    var settled := Settle(p, orders, Date, s.(filters := s.filters.(deliveryDate := d)));
    var o := OfferedDateHasOrder(p, orders, s, d);
    NormalizeIsNormal(d);
    DateIsSettled(p, orders, s, d, o);
    ListedAfterPrune(p, orders, settled, o, field);
    SettledDateIsListed(p, s, settled, d, field);
  }

  lemma DatesAreSettled(p: Platform, orders: seq<Order>, s: Facets, dates: string, d: string, o: Order)
    requires Lawful(p) && TidyOrder(p, o) && Shown(p, o, Undecided(s.filters)) && o.deliveryDate == Some(d)
    requires d in Parse(dates, p.leq) && forall x :: x in Parse(dates, p.leq) ==> p.isDate(x)
    ensures var r := Settle(p, orders, Dates, s.(filters := s.filters.(deliveryDates := dates)));
            var order, weekday := Drop(s.order, Dates) + [Dates], WeekdayForDates(p, dates);
            && r.filters == s.filters.(deliveryDate := "", deliveryDates := dates, weekday := Present(weekday))
            && r.order == (if weekday.Some? then Drop(order, Weekday) else order)
            && Shown(p, o, r.filters) && ValidDates(p, r.filters) && !Undated(r.filters, p)
  {
    var g := WithDates(p, s.filters.(deliveryDates := dates));
    BlankHasNoDates(p);
    assert SyncedWeekday(p, g) == WeekdayForDates(p, dates);
    if SyncedWeekday(p, g).Some? {
      ShownHasSyncedWeekday(p, g, o);
      SyncedIsWeekday(p, g);
    }
  }

  lemma RelistedMember(order: seq<Field>, weekday: Option<string>, field: Field)
    ensures var moved := Drop(order, Dates) + [Dates];
            field in (if weekday.Some? then Drop(moved, Weekday) else moved) <==>
              (field in order || field == Dates) && (weekday.Some? ==> field != Weekday)
  {
    DropMember(order, Dates, field);
    DropMember(Drop(order, Dates) + [Dates], Weekday, field);
  }

  lemma SettledDatesAreListed(s: Facets, r: Facets, dates: string, weekday: Option<string>, field: Field)
    requires Normalize(dates).Some?
    requires field in r.order <==> (field in s.order || field == Dates) && (weekday.Some? ==> field != Weekday)
    requires r.filters == s.filters.(deliveryDate := "", deliveryDates := dates, weekday := Present(weekday))
    ensures field in r.order && Normalize(Get(r.filters, field)).Some? <==> StaysListed(s, Dates, field)
  {
    BlankIsNone();
  }

  /** The same for a set of valid dates. */
  lemma ChosenDatesAreListed(p: Platform, orders: seq<Order>, s: Facets, dates: string, d: string, field: Field)
    requires Lawful(p) && Tidy(p, orders) && d in DateOptions(p, orders, s.filters, s.order)
    requires d in Parse(dates, p.leq) && forall x :: x in Parse(dates, p.leq) ==> p.isDate(x)
    ensures field in Reconcile(p, orders, Dates, s.(filters := s.filters.(deliveryDates := dates))).order
            <==> StaysListed(s, Dates, field)
  {
    var settled := Settle(p, orders, Dates, s.(filters := s.filters.(deliveryDates := dates)));
    var o := OfferedDateHasOrder(p, orders, s, d);
    DatesAreSettled(p, orders, s, dates, d, o);
    ListedAfterPrune(p, orders, settled, o, field);
    RelistedMember(s.order, WeekdayForDates(p, dates), field);
    SettledDatesAreListed(s, settled, dates, WeekdayForDates(p, dates), field);
  }

  // ----- edits of the weekday and stale weekdays -----

  /** A weekday that is neither the user's nor implied by dates plays no part in pruning. */
  lemma StaleWeekdayIsIgnored(p: Platform, orders: seq<Order>, s: Facets, weekday: string)
    requires Weekday !in s.order && Undated(s.filters, p)
    ensures Prune(p, orders, s.(filters := s.filters.(weekday := weekday))) == Prune(p, orders, s)
  {
    assert Unstale(p, s.filters.(weekday := weekday), false) == Unstale(p, s.filters, false);
  }

  lemma {:induction false} BlankWeekdayStaysBlank(p: Platform, orders: seq<Order>, f: Filters, order: seq<Field>)
    requires f.weekday == ""
    ensures PruneFields(p, orders, f, order).filters.weekday == ""
  {
    if order == [] {
    } else {
      BlankWeekdayStaysBlank(p, orders, f, order[..|order| - 1]);
    }
  }

  lemma PrunedBlankWeekday(p: Platform, orders: seq<Order>, f: Filters, order: seq<Field>)
    requires Lawful(p) && ValidDates(p, f) && f.weekday == "" && Weekday in order
    ensures var r := Prune(p, orders, Facets(f, order)).filters;
            && r.deliveryDate == f.deliveryDate && r.deliveryDates == f.deliveryDates
            && r.weekday == Present(SyncedWeekday(p, f))
  {
    PruneFieldsKeepsDates(p, orders, f, order);
    BlankWeekdayStaysBlank(p, orders, f, order);
    SyncedSame(p, f, PruneFields(p, orders, f, order).filters);
  }

  /** Taking the weekday back leaves the selected dates alone, and the weekday that they imply. */
  lemma ClearedWeekdayKeepsDates(p: Platform, orders: seq<Order>, s: Facets)
    requires Lawful(p) && ValidDates(p, s.filters)
    ensures var r := Reconcile(p, orders, Weekday, s.(filters := s.filters.(weekday := ""))).filters;
            && r.deliveryDate == s.filters.deliveryDate && r.deliveryDates == s.filters.deliveryDates
            && r.weekday == Present(SyncedWeekday(p, s.filters))
  {
    var f, order := s.filters.(weekday := ""), Drop(s.order, Weekday) + [Weekday];
    PrunedBlankWeekday(p, orders, f, order);
    SyncedSame(p, s.filters, f);
    assert Settle(p, orders, Weekday, s.(filters := f)) == Facets(f, order);
  }

  // ----- a page at rest -----

  lemma ShrunkUnless(p: Platform, orders: seq<Order>, f: Filters, init: seq<Field>, field: Field)
    requires PruneFields(p, orders, f, init + [field]) == Facets(f, init + [field])
    ensures PruneFields(p, orders, f, init) == Facets(f, init)
    ensures Normalize(Get(f, field)).Some? && Available(p, orders, f, field, Normalize(Get(f, field)).value)
  {
    PruneFieldsMore(p, orders, f, init, field);
    PruneFieldsShrinks(p, orders, f, init);
  }

  lemma {:induction false} KeptFieldsAreAvailable(p: Platform, orders: seq<Order>, f: Filters, order: seq<Field>,
                                                  field: Field)
    requires PruneFields(p, orders, f, order) == Facets(f, order) && field in order
    ensures Normalize(Get(f, field)).Some? && Available(p, orders, f, field, Normalize(Get(f, field)).value)
  {
    var init, last := order[..|order| - 1], order[|order| - 1];
    assert order == init + [last];
    ShrunkUnless(p, orders, f, init, last);
    if field == last {
    } else {
      KeptFieldsAreAvailable(p, orders, f, init, field);
    }
  }

  /** An order that this filter and, for a weekday, the dates do not hide satisfies the filter. */
  ghost predicate Backed(p: Platform, orders: seq<Order>, f: Filters, field: Field)
    requires Normalize(Get(f, field)).Some?
  {
    var value := Normalize(Get(f, field)).value;
    match field
    case Area => exists o :: o in orders && Shown(p, o, f.(deliveryArea := "")) && o.deliveryArea.Some?
                             && p.lower(o.deliveryArea.value) == p.lower(value)
    case RouteType => exists o :: o in orders && Shown(p, o, f.(routeType := "")) && SourceType(o) == Some(value)
    case Weekday => exists o :: o in orders && Shown(p, o, Undecided(f)) && OrderWeekday(p, o) == Some(value)
    case Date => p.isDate(value)
    case Dates => Parse(value, p.leq) != [] && forall d :: d in Parse(value, p.leq) ==> p.isDate(d)
  }

  lemma AreaAvailableIff(p: Platform, orders: seq<Order>, f: Filters)
    requires Lawful(p) && Tidy(p, orders) && Normalize(f.deliveryArea).Some?
    ensures Available(p, orders, f, Area, Normalize(f.deliveryArea).value) <==> Backed(p, orders, f, Area)
  {
    var value := Normalize(f.deliveryArea).value;
    NormalizeIsNormal(f.deliveryArea);
    if a :| a in AreaOptions(p, orders, f) && p.lower(a) == p.lower(value) {
      AreaOptionsAre(p, orders, f, a);
    }
    if o :| o in orders && Shown(p, o, f.(deliveryArea := "")) && o.deliveryArea.Some?
            && p.lower(o.deliveryArea.value) == p.lower(value) {
      AreaOptionsAre(p, orders, f, o.deliveryArea.value);
    }
  }

  /** A filter is available exactly if it is backed by an order, or, for dates, valid. */
  lemma AvailableIffBacked(p: Platform, orders: seq<Order>, f: Filters, field: Field)
    requires Lawful(p) && Tidy(p, orders) && Normalize(Get(f, field)).Some?
    ensures Available(p, orders, f, field, Normalize(Get(f, field)).value) <==> Backed(p, orders, f, field)
  {
    var value := Normalize(Get(f, field)).value;
    match field
    case Area => AreaAvailableIff(p, orders, f);
    case RouteType => TypeOptionsAre(p, orders, f, value);
    case Weekday => WeekdayOfferedIff(p, orders, f, value);
    case _ =>
  }

  /** Once pruning changes nothing more, every listed filter is set and backed by an order. */
  lemma RestingPageIsBacked(p: Platform, orders: seq<Order>, s: Facets, field: Field)
    requires Lawful(p) && Tidy(p, orders) && Prune(p, orders, s) == s && Synced(p, s) && field in s.order
    ensures Normalize(Get(s.filters, field)).Some? && Backed(p, orders, s.filters, field)
  {
    PruneFieldsShrinks(p, orders, s.filters, s.order);
    KeptFieldsAreAvailable(p, orders, s.filters, s.order, field);
    AvailableIffBacked(p, orders, s.filters, field);
  }
}
