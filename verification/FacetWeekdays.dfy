/**
 What choosing a weekday does. The edit toggles the weekday's available dates in the
 selection: it adds them if one is missing and removes them if all are selected.
 */
module FacetWeekdays {
  import opened DateSets
  import opened FacetRuns
  import opened OrderFilters
  import opened SortedSets
  import opened Text
  import opened Wrappers

  // ----- the dates of a weekday -----

  function AvailableDates(p: Platform, orders: seq<Order>, f: Filters): seq<string> {
    UniqueSorted(DeliveryDates(ApplyFilters(p, orders, Undecided(f))), p.leq)
  }

  ghost predicate OffersDate(p: Platform, orders: seq<Order>, f: Filters, d: string) {
    exists o :: o in orders && Shown(p, o, Undecided(f)) && o.deliveryDate == Some(d)
  }

  lemma AvailableDatesAre(p: Platform, orders: seq<Order>, f: Filters, d: string)
    requires Lawful(p) && Tidy(p, orders)
    ensures d in AvailableDates(p, orders, f) <==> OffersDate(p, orders, f, d)
    ensures d in AvailableDates(p, orders, f) ==> p.isDate(d)
  {
    if d in AvailableDates(p, orders, f) {
      var g := Undecided(f);
      BlankHasNoDates(p);
      DateOptionsUndecided(p, orders, Facets(g, []));
      var o := OfferedDateHasOrder(p, orders, Facets(g, []), d);
    }
    if OffersDate(p, orders, f, d) {
      var o :| o in orders && Shown(p, o, Undecided(f)) && o.deliveryDate == Some(d);
      DateIsListed(p, orders, Undecided(f), o, d);
    }
  }

  lemma {:induction false} OnWeekdayMember(p: Platform, dates: seq<string>, weekday: string, d: string)
    ensures d in OnWeekday(p, dates, weekday) <==> d in dates && WeekdayFor(p, d) == Some(weekday)
  {
    if dates == [] {
    } else {
      OnWeekdayMember(p, dates[..|dates| - 1], weekday, d);
      assert dates == dates[..|dates| - 1] + [dates[|dates| - 1]];
    }
  }

  /** The available dates that fall on the weekday. */
  function Matching(p: Platform, orders: seq<Order>, f: Filters, weekday: string): set<string> {
    Elements(OnWeekday(p, AvailableDates(p, orders, f), weekday))
  }

  function Selected(p: Platform, f: Filters): set<string> {
    Elements(Parse(f.deliveryDates, p.leq))
  }

  lemma MatchingAre(p: Platform, orders: seq<Order>, f: Filters, weekday: string, d: string)
    requires Lawful(p) && Tidy(p, orders)
    ensures d in Matching(p, orders, f, weekday) <==> OffersDate(p, orders, f, d) && p.weekdayOf(d) == Some(weekday)
    ensures d in Matching(p, orders, f, weekday) ==> p.isDate(d)
  {
    AvailableDatesAre(p, orders, f, d);
    OnWeekdayMember(p, AvailableDates(p, orders, f), weekday, d);
    if OffersDate(p, orders, f, d) { NormalizeIsNormal(d); }
  }

  // ----- the edit before pruning -----

  /** The filters after the edit, before they are pruned. */
  function Edited(p: Platform, orders: seq<Order>, f: Filters, weekday: string): Filters {
    WithWeekday(p, orders, f.(weekday := weekday))
  }

  /** The edit toggles the matching dates in the selection and keeps its text canonical. */
  lemma ToggledSelection(p: Platform, orders: seq<Order>, f: Filters, weekday: string)
    requires Lawful(p) && Tidy(p, orders)
    ensures var g := Edited(p, orders, f, weekday);
            && Selected(p, g) == SetToggle(Selected(p, f), Matching(p, orders, f, weekday))
            && g.deliveryDates == Join(Parse(g.deliveryDates, p.leq))
  {
    var matching := OnWeekday(p, AvailableDates(p, orders, f), weekday);
    forall d | d in matching ensures Normal(d) && ',' !in d {
      assert d in Matching(p, orders, f, weekday);
      MatchingAre(p, orders, f, weekday, d);
    }
    assert Undecided(f.(weekday := weekday)) == Undecided(f);
    NormalizeAllNormal(matching);
    SortUniqueSorts(matching, p.leq);
    ToggleAsSets(matching, f.deliveryDates, p.leq);
    ToggleIsCanonical(matching, f.deliveryDates, p.leq);
  }

  lemma ToggledIsValid(p: Platform, orders: seq<Order>, f: Filters, weekday: string)
    requires Lawful(p) && Tidy(p, orders) && ValidDates(p, f)
    ensures ValidDates(p, Edited(p, orders, f, weekday))
  {
    var g := Edited(p, orders, f, weekday);
    BlankHasNoDates(p);
    ToggledSelection(p, orders, f, weekday);
    forall d | d in Parse(g.deliveryDates, p.leq) ensures p.isDate(d) {
      assert d in Selected(p, g);
      if d !in Selected(p, f) { MatchingAre(p, orders, f, weekday, d); }
    }
  }

  ghost predicate SomeShown(p: Platform, orders: seq<Order>, f: Filters) {
    exists o :: o in orders && Shown(p, o, f)
  }

  lemma ShownWithDates(p: Platform, o: Order, f: Filters, weekday: string)
    requires Lawful(p) && weekday in WEEKDAYS && f.deliveryDate == "" && f.weekday == weekday
    ensures Shown(p, o, f) <==>
              && Shown(p, o, Undecided(f)) && OrderWeekday(p, o) == Some(weekday)
              && (Selected(p, f) != {} ==> o.deliveryDate.Some? && o.deliveryDate.value in Selected(p, f))
  {
    BlankHasNoDates(p);
    WeekdayIsNormal(weekday);
    HasElements(Parse(f.deliveryDates, p.leq));
  }

  /** Unless the edit removes the weekday's dates and leaves others, it has an order in view. */
  lemma ToggledShows(p: Platform, orders: seq<Order>, f: Filters, weekday: string) returns (o: Order)
    requires Lawful(p) && Tidy(p, orders) && WeekdayOffered(p, orders, f, weekday)
    requires !(Matching(p, orders, f, weekday) < Selected(p, f))
    ensures o in orders && OrderWeekday(p, o) == Some(weekday) && Shown(p, o, Edited(p, orders, f, weekday))
  {
    var g := Edited(p, orders, f, weekday);
    o :| o in ApplyFilters(p, orders, Undecided(f)) && OrderWeekday(p, o) == Some(weekday);
    ApplyFiltersMember(p, orders, Undecided(f), o);
    assert Undecided(g) == Undecided(f);
    MatchingAre(p, orders, f, weekday, o.deliveryDate.value);
    ToggledSelection(p, orders, f, weekday);
    ShownWithDates(p, o, g, weekday);
  }

  lemma SetRemoval(selected: set<string>, matching: set<string>)
    requires matching < selected
    ensures SetToggle(selected, matching) == selected - matching != {}
  {
    var d :| d in selected && d !in matching;
    assert d in selected - matching;
  }

  lemma ToggledRest(p: Platform, orders: seq<Order>, f: Filters, weekday: string)
    requires Lawful(p) && Tidy(p, orders) && Matching(p, orders, f, weekday) < Selected(p, f)
    ensures Selected(p, Edited(p, orders, f, weekday)) == Selected(p, f) - Matching(p, orders, f, weekday) != {}
  {
    ToggledSelection(p, orders, f, weekday);
    SetRemoval(Selected(p, f), Matching(p, orders, f, weekday));
  }

  // ----- pruning after the edit -----

  /** The state after choosing the weekday. */
  function Chosen(p: Platform, orders: seq<Order>, s: Facets, weekday: string): Facets {
    Reconcile(p, orders, Weekday, s.(filters := s.filters.(weekday := weekday)))
  }

  function ChosenOrder(p: Platform, orders: seq<Order>, s: Facets, weekday: string): seq<Field> {
    var undated := Drop(Drop(Drop(s.order, Weekday) + [Weekday], Date), Dates);
    if Parse(Edited(p, orders, s.filters, weekday).deliveryDates, p.leq) != [] then undated + [Dates] else undated
  }

  lemma {:induction false} DropMember(order: seq<Field>, field: Field, x: Field)
    ensures x in Drop(order, field) <==> x in order && x != field
  {
    if order == [] {
    } else {
      DropMember(order[..|order| - 1], field, x);
      assert order == order[..|order| - 1] + [order[|order| - 1]];
    }
  }

  lemma ChosenOrderMember(p: Platform, orders: seq<Order>, s: Facets, weekday: string, x: Field)
    ensures x in ChosenOrder(p, orders, s, weekday) <==>
              match x
              case Weekday => true
              case Date => false
              case Dates => Parse(Edited(p, orders, s.filters, weekday).deliveryDates, p.leq) != []
              case _ => x in s.order
  {
    var moved := Drop(s.order, Weekday) + [Weekday];
    DropMember(s.order, Weekday, x);
    DropMember(moved, Date, x);
    DropMember(Drop(moved, Date), Dates, x);
  }

  lemma SettledIs(p: Platform, orders: seq<Order>, s: Facets, weekday: string)
    requires weekday != ""
    ensures Settle(p, orders, Weekday, s.(filters := s.filters.(weekday := weekday)))
         == Facets(Edited(p, orders, s.filters, weekday), ChosenOrder(p, orders, s, weekday))
  {
  }

  lemma ChosenIs(p: Platform, orders: seq<Order>, s: Facets, weekday: string)
    requires weekday in WEEKDAYS
    ensures Chosen(p, orders, s, weekday)
         == Prune(p, orders, Facets(Edited(p, orders, s.filters, weekday), ChosenOrder(p, orders, s, weekday)))
  {
    WeekdayIsNormal(weekday);
    NormalizeIsNormal(weekday);
    SettledIs(p, orders, s, weekday);
  }

  lemma ChosenIsPruned(p: Platform, orders: seq<Order>, s: Facets, weekday: string)
    requires weekday in WEEKDAYS
    ensures var g, order := Edited(p, orders, s.filters, weekday), ChosenOrder(p, orders, s, weekday);
            Chosen(p, orders, s, weekday).filters == Sync(p, PruneFields(p, orders, g, order).filters, true)
  {
    ChosenIs(p, orders, s, weekday);
    ChosenOrderMember(p, orders, s, weekday, Weekday);
  }

  /** Valid dates are never blanked. */
  lemma {:induction false} PruneFieldsKeepsDates(p: Platform, orders: seq<Order>, f: Filters, order: seq<Field>)
    requires Lawful(p) && ValidDates(p, f)
    ensures var r := PruneFields(p, orders, f, order).filters;
            r.deliveryDates == f.deliveryDates && r.deliveryDate == f.deliveryDate
  {
    if order == [] {
    } else {
      PruneFieldsKeepsDates(p, orders, f, order[..|order| - 1]);
      var s, field := PruneFields(p, orders, f, order[..|order| - 1]), order[|order| - 1];
      if field == Dates && Normalize(s.filters.deliveryDates).Some? {
        DatesAvailable(p, orders, s.filters);
      }
    }
  }

  lemma {:induction false} AreasOrigin(orders: seq<Order>, a: string) returns (o: Order)
    requires a in Areas(orders)
    ensures o in orders && Trim(Present(o.deliveryArea)) == a != ""
  {
    var init, last := orders[..|orders| - 1], orders[|orders| - 1];
    if a in Areas(init) {
      o := AreasOrigin(init, a);
    } else {
      o := last;
    }
  }

  lemma AreaHasOrder(p: Platform, orders: seq<Order>, f: Filters, a: string) returns (o: Order)
    requires Lawful(p) && Tidy(p, orders) && a in AreaOptions(p, orders, f)
    ensures o in orders && o.deliveryArea == Some(a) && Shown(p, o, f.(deliveryArea := ""))
  {
    var shown := ApplyFilters(p, orders, f.(deliveryArea := ""));
    SortUniqueSorts(Areas(shown), p.leq);
    assert a in Elements(AreaOptions(p, orders, f));
    o := AreasOrigin(shown, a);
    ApplyFiltersMember(p, orders, f.(deliveryArea := ""), o);
    TrimIsTrimmed(Present(o.deliveryArea));
  }

  lemma AreaUnavailable(p: Platform, orders: seq<Order>, f: Filters)
    requires Lawful(p) && Tidy(p, orders) && Normalize(f.deliveryArea).Some? && !SomeShown(p, orders, f)
    ensures !Available(p, orders, f, Area, Normalize(f.deliveryArea).value)
  {
    forall a | a in AreaOptions(p, orders, f) ensures p.lower(a) != p.lower(Normalize(f.deliveryArea).value) {
      var o := AreaHasOrder(p, orders, f, a);
      assert !Shown(p, o, f);
    }
  }

  lemma SourceTypeIsNormal(o: Order, value: string)
    requires Normalize(Present(SourceType(o))) == Some(value)
    ensures SourceType(o) == Some(value)
  {
    BlankIsNone();
    NormalizeIsNormal(Present(o.serviceType));
    NormalizeIsNormal(Present(o.deliverySession));
    NormalizeIsNormal(Present(SourceType(o)));
  }

  lemma TypeHasOrder(p: Platform, orders: seq<Order>, f: Filters, kind: string) returns (o: Order)
    requires Lawful(p) && kind in TypeOptions(p, orders, f)
    ensures o in orders && SourceType(o) == Some(kind) && Shown(p, o, f.(routeType := ""))
  {
    var shown := ApplyFilters(p, orders, f.(routeType := ""));
    var types := SourceTypes(shown);
    NormalizeAllElements(types);
    SortUniqueSorts(NormalizeAll(types), p.leq);
    assert kind in Elements(TypeOptions(p, orders, f));
    var v :| v in types && Normalize(v) == Some(kind);
    var i :| 0 <= i < |types| && types[i] == v;
    o := shown[i];
    ApplyFiltersMember(p, orders, f.(routeType := ""), o);
    SourceTypeIsNormal(o, kind);
  }

  lemma TypeUnavailable(p: Platform, orders: seq<Order>, f: Filters)
    requires Lawful(p) && Normalize(f.routeType).Some? && !SomeShown(p, orders, f)
    ensures !Available(p, orders, f, RouteType, Normalize(f.routeType).value)
  {
    var kind := Normalize(f.routeType).value;
    if kind in TypeOptions(p, orders, f) {
      var o := TypeHasOrder(p, orders, f, kind);
      assert Shown(p, o, f);
    }
  }

  // ----- choosing an offered weekday -----

  /** After choosing an offered weekday the selection is the old one with the weekday's dates toggled. */
  lemma ChosenWeekdaySelects(p: Platform, orders: seq<Order>, s: Facets, weekday: string)
    requires Lawful(p) && Tidy(p, orders) && ValidDates(p, s.filters) && weekday in WEEKDAYS
    ensures Selected(p, Chosen(p, orders, s, weekday).filters)
         == SetToggle(Selected(p, s.filters), Matching(p, orders, s.filters, weekday))
  {
    ToggledIsValid(p, orders, s.filters, weekday);
    ToggledSelection(p, orders, s.filters, weekday);
    PruneFieldsKeepsDates(p, orders, Edited(p, orders, s.filters, weekday), ChosenOrder(p, orders, s, weekday));
    ChosenIsPruned(p, orders, s, weekday);
  }

  lemma SyncKeepsWeekday(p: Platform, f: Filters, o: Order, weekday: string)
    requires Lawful(p) && TidyOrder(p, o) && Shown(p, o, f)
    requires f.weekday == weekday && OrderWeekday(p, o) == Some(weekday)
    ensures Sync(p, f, true) == f
  {
    if SyncedWeekday(p, f).Some? {
      ShownHasSyncedWeekday(p, f, o);
    }
  }

  /**
   Unless it removes the weekday's dates and leaves others selected, choosing an offered
   weekday leaves an order of that weekday in view and keeps the area and type filters.
   */
  lemma ChosenWeekdayShowsAnOrder(p: Platform, orders: seq<Order>, s: Facets, weekday: string) returns (o: Order)
    requires Lawful(p) && Tidy(p, orders) && ValidDates(p, s.filters) && WeekdayOffered(p, orders, s.filters, weekday)
    requires !(Matching(p, orders, s.filters, weekday) < Selected(p, s.filters))
    ensures o in orders && OrderWeekday(p, o) == Some(weekday)
    ensures var r := Chosen(p, orders, s, weekday).filters;
            && Shown(p, o, r)
            && r == s.filters.(deliveryDate := "", deliveryDates := r.deliveryDates, weekday := weekday)
  {
    o := ToggledShows(p, orders, s.filters, weekday);
    ToggledIsValid(p, orders, s.filters, weekday);
    ChosenIsPruned(p, orders, s, weekday);
    var g := Edited(p, orders, s.filters, weekday);
    PruneFieldsKeepsAll(p, orders, g, ChosenOrder(p, orders, s, weekday), o);
    SyncKeepsWeekday(p, g, o, weekday);
  }

  // ----- every run selects valid dates -----

  /** Every facet that is set, but for the weekday, is in the edit history. */
  ghost predicate Listed(s: Facets) {
    forall field :: field != Weekday && Normalize(Get(s.filters, field)).Some? ==> field in s.order
  }

  predicate DateStands(p: Platform, f: Filters) {
    Normalize(f.deliveryDate).Some? ==> p.isDate(Normalize(f.deliveryDate).value)
  }

  predicate DatesStand(p: Platform, f: Filters) {
    Normalize(f.deliveryDates).Some? ==>
      var dates := Parse(Normalize(f.deliveryDates).value, p.leq);
      dates != [] && forall d :: d in dates ==> p.isDate(d)
  }

  lemma PruneFieldDates(p: Platform, orders: seq<Order>, s: Facets, field: Field)
    ensures var r := PruneField(p, orders, s, field).filters;
            && (if field == Date then DateStands(p, r) else r.deliveryDate == s.filters.deliveryDate)
            && (if field == Dates then DatesStand(p, r) else r.deliveryDates == s.filters.deliveryDates)
  {
    BlankIsNone();
  }

  lemma {:induction false} ListedDatesAreValid(p: Platform, orders: seq<Order>, f: Filters, order: seq<Field>)
    requires NoRepeats(order)
    ensures var r := PruneFields(p, orders, f, order).filters;
            (Date in order ==> DateStands(p, r)) && (Dates in order ==> DatesStand(p, r))
  {
    if order == [] {
    } else {
      var init, field := order[..|order| - 1], order[|order| - 1];
      ListedDatesAreValid(p, orders, f, init);
      PruneFieldDates(p, orders, PruneFields(p, orders, f, init), field);
      assert order == init + [field];
    }
  }

  lemma NormalizeTwice(value: string)
    ensures Normalize(value).Some? ==> Normalize(Normalize(value).value) == Normalize(value)
  {
    NormalizeIsNormal(value);
    if Normalize(value).Some? { NormalizeIsNormal(Normalize(value).value); }
  }

  lemma ListedIsValid(p: Platform, orders: seq<Order>, f: Filters, order: seq<Field>)
    requires Lawful(p) && NoRepeats(order) && Listed(Facets(f, order))
    ensures var r := PruneFields(p, orders, f, order); Listed(r) && ValidDates(p, r.filters)
  {
    var r := PruneFields(p, orders, f, order);
    BlankIsNone();
    PruneFieldsResult(p, orders, f, order);
    ListedDatesAreValid(p, orders, f, order);
    forall field | field != Weekday && Normalize(Get(r.filters, field)).Some? ensures field in order {
      assert Get(r.filters, field) == Get(f, field);
    }
    assert Normalize(Get(r.filters, Dates)).Some? ==> Dates in order;
    assert Normalize(Get(r.filters, Date)).Some? ==> Date in order;
    NormalizeTwice(r.filters.deliveryDates);
  }

  lemma OnlyWeekdayDiffers(p: Platform, f: Filters, order: seq<Field>, weekday: string)
    requires Listed(Facets(f, order))
    ensures Listed(Facets(f.(weekday := weekday), order))
    ensures ValidDates(p, f) ==> ValidDates(p, f.(weekday := weekday))
  {
    var g := f.(weekday := weekday);
    forall field | field != Weekday ensures Get(g, field) == Get(f, field) {}
  }

  lemma PruneIsValid(p: Platform, orders: seq<Order>, s: Facets)
    requires Lawful(p) && NoRepeats(s.order) && Listed(s)
    ensures var r := Prune(p, orders, s); Listed(r) && ValidDates(p, r.filters)
  {
    var f := Unstale(p, s.filters, Weekday in s.order);
    OnlyWeekdayDiffers(p, s.filters, s.order, f.weekday);
    ListedIsValid(p, orders, f, s.order);
    var pruned, r := PruneFields(p, orders, f, s.order), Prune(p, orders, s);
    OnlyWeekdayDiffers(p, pruned.filters, pruned.order, r.filters.weekday);
    assert r == Facets(pruned.filters.(weekday := r.filters.weekday), pruned.order);
  }

  lemma EditedIsListed(s: Facets, changed: Field, value: string, field: Field)
    requires Listed(s) && field != Weekday && Normalize(Get(Set(s.filters, changed, value), field)).Some?
    ensures field in Drop(s.order, changed) + [changed]
  {
    GetSet(s.filters, changed, value, field);
    DropMember(s.order, changed, field);
  }

  lemma SettleWeekdayIsListed(p: Platform, orders: seq<Order>, s: Facets, weekday: string)
    requires Lawful(p) && Tidy(p, orders) && Listed(s) && weekday != ""
    ensures Listed(Settle(p, orders, Weekday, s.(filters := s.filters.(weekday := weekday))))
  {
    var g := Edited(p, orders, s.filters, weekday);
    BlankIsNone();
    SettledIs(p, orders, s, weekday);
    ToggledSelection(p, orders, s.filters, weekday);
    forall field | field != Weekday && Normalize(Get(g, field)).Some?
      ensures field in ChosenOrder(p, orders, s, weekday)
    {
      ChosenOrderMember(p, orders, s, weekday, field);
      assert field == Area || field == RouteType ==> Get(g, field) == Get(s.filters, field);
    }
  }

  lemma SettleIsListed(p: Platform, orders: seq<Order>, changed: Field, s: Facets, value: string)
    requires Lawful(p) && Tidy(p, orders) && Listed(s)
    ensures Listed(Settle(p, orders, changed, s.(filters := Set(s.filters, changed, value))))
  {
    if changed == Weekday && value != "" {
      SettleWeekdayIsListed(p, orders, s, value);
    } else {
      var edited := Set(s.filters, changed, value);
      var settled, moved := Settle(p, orders, changed, s.(filters := edited)), Drop(s.order, changed) + [changed];
      BlankIsNone();
      forall field | field != Weekday && Normalize(Get(settled.filters, field)).Some? ensures field in settled.order {
        assert Get(settled.filters, field) == "" || Get(settled.filters, field) == Get(edited, field);
        EditedIsListed(s, changed, value, field);
        DropMember(moved, Weekday, field);
      }
    }
  }

  /** Along every run, with tidy orders, the selected dates are valid and every set facet but the weekday is listed. */
  lemma {:induction false} EveryRunIsValid(p: Platform, actions: seq<Action>)
    requires Lawful(p) && forall a :: a in actions ==> Tidy(p, a.pool)
    ensures var s := After(p, actions); Listed(s) && ValidDates(p, s.filters)
  {
    BlankHasNoDates(p);
    if actions == [] {
      assert forall field :: field != Weekday ==> Get(DEFAULT_FILTERS, field) == "";
    } else {
      var init, a := actions[..|actions| - 1], actions[|actions| - 1];
      EveryRunIsValid(p, init);
      EveryRunIsConsistent(p, init);
      assert a in actions;
      var s := After(p, init);
      match a
      case Edit(field, value, pool) =>
        SettleIsListed(p, pool, field, s, value);
        SettleResult(p, pool, field, s, value);
        PruneIsValid(p, pool, Settle(p, pool, field, s.(filters := Set(s.filters, field, value))));
      case Refresh(pool) =>
        PruneIsValid(p, pool, s);
    }
  }
}
