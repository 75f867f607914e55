/**
 What is in view after a choice of weekday that removes the weekday's dates and leaves
 others selected. Pruning then blanks the listed area and type filters in turn while no
 order is shown.
 */
module FacetRemovals {
  import opened DateSets
  import opened FacetRuns
  import opened FacetWeekdays
  import opened OrderFilters
  import opened SortedSets
  import opened Text
  import opened Wrappers

  // ----- the weekday that dates share -----

  ghost predicate OneWeekday(p: Platform, dates: set<string>) {
    exists w :: w in WEEKDAYS && forall d :: d in dates ==> p.weekdayOf(d) == Some(w)
  }

  lemma {:induction false} WeekdaysOrigin(p: Platform, dates: seq<string>, w: string)
    requires w in Weekdays(p, dates)
    ensures exists d :: d in dates && WeekdayFor(p, d) == Some(w)
  {
    var init, last := dates[..|dates| - 1], dates[|dates| - 1];
    assert dates == init + [last];
    if w in Weekdays(p, init) {
      WeekdaysOrigin(p, init, w);
    } else {
      assert last in dates;
    }
  }

  lemma WeekdaysOfValid(p: Platform, dates: seq<string>, w: string)
    requires Lawful(p) && forall d :: d in dates ==> p.isDate(d)
    ensures w in Weekdays(p, dates) <==> exists d :: d in dates && p.weekdayOf(d) == Some(w)
  {
    forall d | d in dates ensures WeekdayFor(p, d) == p.weekdayOf(d) {
      NormalizeIsNormal(d);
    }
    if w in Weekdays(p, dates) { WeekdaysOrigin(p, dates, w); }
    if d :| d in dates && p.weekdayOf(d) == Some(w) { WeekdaysMember(p, dates, d); }
  }

  lemma CommonWeekday(p: Platform, dates: seq<string>)
    requires Lawful(p) && dates != [] && forall d :: d in dates ==> p.isDate(d)
    ensures var ws := Weekdays(p, dates);
            && ws != []
            && ((forall w :: w in ws ==> w == ws[0]) <==> OneWeekday(p, Elements(dates)))
            && ((forall w :: w in ws ==> w == ws[0]) ==> forall d :: d in dates ==> p.weekdayOf(d) == Some(ws[0]))
  {
    var ws := Weekdays(p, dates);
    forall d | d in dates ensures p.weekdayOf(d).Some? && p.weekdayOf(d).value in ws {
      WeekdaysOfValid(p, dates, p.weekdayOf(d).value);
    }
    assert dates[0] in dates;
    WeekdaysAreWeekdays(p, dates);
    if OneWeekday(p, Elements(dates)) {
      var v :| v in WEEKDAYS && forall d :: d in Elements(dates) ==> p.weekdayOf(d) == Some(v);
      forall w | w in ws ensures w == v {
        WeekdaysOfValid(p, dates, w);
        var d :| d in dates && p.weekdayOf(d) == Some(w);
        assert d in Elements(dates);
      }
    } else {
      assert ws[0] in WEEKDAYS;
    }
  }

  /** Valid dates imply a weekday exactly if they all fall on it. */
  lemma ImpliedWeekday(p: Platform, f: Filters)
    requires Lawful(p) && ValidDates(p, f) && Selected(p, f) != {}
    ensures SyncedWeekday(p, f).Some? <==> OneWeekday(p, Selected(p, f))
    ensures SyncedWeekday(p, f).Some? ==> forall d :: d in Selected(p, f) ==> p.weekdayOf(d) == SyncedWeekday(p, f)
  {
    var dates := Parse(f.deliveryDates, p.leq);
    HasElements(dates);
    CommonWeekday(p, dates);
    assert forall d :: d in dates <==> d in Selected(p, f);
  }

  // ----- which filters a removal clears -----

  /** An order on the weekday is hidden by nothing but the dates, and has one of these dates. */
  ghost predicate OffersOn(p: Platform, orders: seq<Order>, f: Filters, dates: set<string>, weekday: string) {
    exists d :: d in dates && OffersDate(p, orders, f, d) && p.weekdayOf(d) == Some(weekday)
  }

  predicate IsPlace(field: Field) {
    field == Area || field == RouteType
  }

  /** The listed area and type filters are blanked in turn while no date is offered on the weekday. */
  ghost function Cleared(p: Platform, orders: seq<Order>, f: Filters, order: seq<Field>, dates: set<string>,
                         weekday: string): Filters
  {
    if order == [] then f else
    var h, field := Cleared(p, orders, f, order[..|order| - 1], dates, weekday), order[|order| - 1];
    if IsPlace(field) && Normalize(Get(h, field)).Some? && !OffersOn(p, orders, h, dates, weekday)
    then Set(h, field, "") else h
  }

  /** f with the dates and the weekday of g. */
  function Overlay(f: Filters, g: Filters): Filters {
    f.(deliveryDate := g.deliveryDate, deliveryDates := g.deliveryDates, weekday := g.weekday)
  }

  /** The filters select dates and a weekday, in the way the edit leaves them. */
  ghost predicate Dated(p: Platform, g: Filters, weekday: string) {
    && ValidDates(p, g) && g.deliveryDate == "" && Selected(p, g) != {}
    && g.weekday == weekday && weekday in WEEKDAYS
  }

  lemma ShownIsOffered(p: Platform, orders: seq<Order>, f: Filters, weekday: string)
    requires Lawful(p) && Dated(p, f, weekday)
    ensures SomeShown(p, orders, f) <==> OffersOn(p, orders, f, Selected(p, f), weekday)
  {
    forall o | o in orders
      ensures Shown(p, o, f) <==>
                && Shown(p, o, Undecided(f)) && o.deliveryDate.Some?
                && o.deliveryDate.value in Selected(p, f) && p.weekdayOf(o.deliveryDate.value) == Some(weekday)
    {
      ShownWithDates(p, o, f, weekday);
    }
    if SomeShown(p, orders, f) {
      var o :| o in orders && Shown(p, o, f);
      assert OffersDate(p, orders, f, o.deliveryDate.value);
    }
  }

  /** One of the dates is offered, and they all share its weekday or it falls on the chosen one. */
  ghost predicate LeavesInView(p: Platform, orders: seq<Order>, f: Filters, dates: set<string>, weekday: string) {
    exists d :: d in dates && OffersDate(p, orders, f, d) && (OneWeekday(p, dates) || p.weekdayOf(d) == Some(weekday))
  }

  lemma SameOffers(p: Platform, orders: seq<Order>, f: Filters, g: Filters, dates: set<string>, weekday: string)
    requires Undecided(f) == Undecided(g)
    ensures OffersOn(p, orders, f, dates, weekday) == OffersOn(p, orders, g, dates, weekday)
    ensures LeavesInView(p, orders, f, dates, weekday) == LeavesInView(p, orders, g, dates, weekday)
  {
    assert forall d :: OffersDate(p, orders, f, d) <==> OffersDate(p, orders, g, d);
  }

  ghost predicate WeekdayStands(p: Platform, orders: seq<Order>, f: Filters) {
    Normalize(f.weekday).Some? && WeekdayOffered(p, orders, f, Normalize(f.weekday).value)
  }

  lemma BlankingKeepsWeekday(p: Platform, orders: seq<Order>, f: Filters, field: Field)
    requires Lawful(p) && IsPlace(field) && WeekdayStands(p, orders, f)
    ensures WeekdayStands(p, orders, Set(f, field, ""))
  {
    var g, weekday := Set(f, field, ""), Normalize(f.weekday).value;
    var o :| o in ApplyFilters(p, orders, Undecided(f)) && OrderWeekday(p, o) == Some(weekday);
    BlankIsNone();
    ApplyFiltersMember(p, orders, Undecided(f), o);
    assert Shown(p, o, Undecided(g));
    ApplyFiltersMember(p, orders, Undecided(g), o);
    OfferedBy(p, orders, g, o, weekday);
  }

  lemma OtherFieldStays(p: Platform, orders: seq<Order>, s: Facets, field: Field)
    requires Lawful(p) && ValidDates(p, s.filters) && WeekdayStands(p, orders, s.filters) && !IsPlace(field)
    ensures PruneField(p, orders, s, field).filters == s.filters
  {
    if field == Dates && Normalize(s.filters.deliveryDates).Some? {
      DatesAvailable(p, orders, s.filters);
    }
  }

  /** A set area or type filter is blanked exactly if no order is shown. */
  lemma PlaceBlankedIff(p: Platform, orders: seq<Order>, s: Facets, field: Field)
    requires Lawful(p) && Tidy(p, orders) && ValidDates(p, s.filters) && IsPlace(field)
    ensures PruneField(p, orders, s, field).filters
         == if Normalize(Get(s.filters, field)).Some? && !SomeShown(p, orders, s.filters) then Set(s.filters, field, "")
            else s.filters
  {
    if Normalize(Get(s.filters, field)).Some? {
      if o :| o in orders && Shown(p, o, s.filters) {
        FieldAvailable(p, orders, s.filters, o, field);
      } else if field == Area {
        AreaUnavailable(p, orders, s.filters);
      } else {
        TypeUnavailable(p, orders, s.filters);
      }
    }
  }

  lemma OverlayKeepsDates(p: Platform, f: Filters, g: Filters, weekday: string)
    requires Dated(p, g, weekday)
    ensures Dated(p, Overlay(f, g), weekday) && Selected(p, Overlay(f, g)) == Selected(p, g)
    ensures Undecided(Overlay(f, g)) == Undecided(f)
  {
  }

  lemma ClearedStep(p: Platform, orders: seq<Order>, h: Filters, g: Filters, weekday: string, s: Facets, field: Field)
    requires Lawful(p) && Tidy(p, orders) && Dated(p, g, weekday)
    requires s.filters == Overlay(h, g) && WeekdayStands(p, orders, s.filters)
    ensures var blank := IsPlace(field) && Normalize(Get(h, field)).Some?
                         && !OffersOn(p, orders, h, Selected(p, g), weekday);
            var r := PruneField(p, orders, s, field).filters;
            r == Overlay(if blank then Set(h, field, "") else h, g) && WeekdayStands(p, orders, r)
  {
    OverlayKeepsDates(p, h, g, weekday);
    if IsPlace(field) {
      ShownIsOffered(p, orders, s.filters, weekday);
      SameOffers(p, orders, s.filters, h, Selected(p, g), weekday);
      PlaceBlankedIff(p, orders, s, field);
      BlankingKeepsWeekday(p, orders, s.filters, field);
    } else {
      OtherFieldStays(p, orders, s, field);
    }
  }

  /** Pruning blanks exactly the filters that `Cleared` does, and leaves the dates and the weekday. */
  lemma {:induction false} PruningIsClearing(p: Platform, orders: seq<Order>, f: Filters, g: Filters, order: seq<Field>,
                                             weekday: string)
    requires Lawful(p) && Tidy(p, orders) && Dated(p, g, weekday) && g == Overlay(f, g) && WeekdayStands(p, orders, g)
    ensures var r := PruneFields(p, orders, g, order).filters;
            r == Overlay(Cleared(p, orders, f, order, Selected(p, g), weekday), g) && WeekdayStands(p, orders, r)
  {
    if order == [] {
    } else {
      var init, field := order[..|order| - 1], order[|order| - 1];
      PruningIsClearing(p, orders, f, g, init, weekday);
      var h := Cleared(p, orders, f, init, Selected(p, g), weekday);
      ClearedStep(p, orders, h, g, weekday, PruneFields(p, orders, g, init), field);
    }
  }

  lemma ClearedMore(p: Platform, orders: seq<Order>, f: Filters, init: seq<Field>, field: Field, dates: set<string>,
                    weekday: string)
    ensures var h := Cleared(p, orders, f, init, dates, weekday);
            Cleared(p, orders, f, init + [field], dates, weekday)
            == if IsPlace(field) && Normalize(Get(h, field)).Some? && !OffersOn(p, orders, h, dates, weekday)
               then Set(h, field, "") else h
  {
    assert (init + [field])[..|init|] == init;
  }

  /** Only the listed area and type matter. */
  lemma {:induction false} ClearedIgnores(p: Platform, orders: seq<Order>, f: Filters, order: seq<Field>, field: Field,
                                          dates: set<string>, weekday: string)
    requires !IsPlace(field)
    ensures Cleared(p, orders, f, Drop(order, field), dates, weekday) == Cleared(p, orders, f, order, dates, weekday)
  {
    if order == [] {
    } else {
      var init, last := order[..|order| - 1], order[|order| - 1];
      ClearedIgnores(p, orders, f, init, field, dates, weekday);
      ClearedMore(p, orders, f, Drop(init, field), last, dates, weekday);
    }
  }

  lemma ClearedIgnoresLast(p: Platform, orders: seq<Order>, f: Filters, init: seq<Field>, field: Field,
                           dates: set<string>, weekday: string)
    requires !IsPlace(field)
    ensures Cleared(p, orders, f, init + [field], dates, weekday) == Cleared(p, orders, f, init, dates, weekday)
  {
    ClearedMore(p, orders, f, init, field, dates, weekday);
  }

  lemma ClearedMoved(p: Platform, orders: seq<Order>, f: Filters, order: seq<Field>, dates: set<string>,
                     weekday: string)
    ensures Cleared(p, orders, f, Drop(order, Weekday) + [Weekday], dates, weekday)
         == Cleared(p, orders, f, order, dates, weekday)
  {
    ClearedIgnores(p, orders, f, order, Weekday, dates, weekday);
    ClearedIgnoresLast(p, orders, f, Drop(order, Weekday), Weekday, dates, weekday);
  }

  lemma ClearedDateless(p: Platform, orders: seq<Order>, f: Filters, order: seq<Field>, dates: set<string>,
                        weekday: string)
    ensures Cleared(p, orders, f, Drop(Drop(order, Date), Dates), dates, weekday)
         == Cleared(p, orders, f, order, dates, weekday)
  {
    ClearedIgnores(p, orders, f, order, Date, dates, weekday);
    ClearedIgnores(p, orders, f, Drop(order, Date), Dates, dates, weekday);
  }

  lemma ClearedUndated(p: Platform, orders: seq<Order>, f: Filters, order: seq<Field>, dates: set<string>,
                       weekday: string)
    ensures var undated := Drop(Drop(Drop(order, Weekday) + [Weekday], Date), Dates);
            && Cleared(p, orders, f, undated, dates, weekday) == Cleared(p, orders, f, order, dates, weekday)
            && Cleared(p, orders, f, undated + [Dates], dates, weekday) == Cleared(p, orders, f, order, dates, weekday)
  {
    var moved := Drop(order, Weekday) + [Weekday];
    ClearedMoved(p, orders, f, order, dates, weekday);
    ClearedDateless(p, orders, f, moved, dates, weekday);
    ClearedIgnoresLast(p, orders, f, Drop(Drop(moved, Date), Dates), Dates, dates, weekday);
  }

  lemma ClearedByChoice(p: Platform, orders: seq<Order>, s: Facets, weekday: string, dates: set<string>)
    ensures Cleared(p, orders, s.filters, ChosenOrder(p, orders, s, weekday), dates, weekday)
         == Cleared(p, orders, s.filters, s.order, dates, weekday)
  {
    ClearedUndated(p, orders, s.filters, s.order, dates, weekday);
  }

  // ----- what is in view after a removal -----

  lemma SyncedShows(p: Platform, orders: seq<Order>, f: Filters, weekday: string)
    requires Lawful(p) && Dated(p, f, weekday) && SyncedWeekday(p, f).Some?
    ensures SomeShown(p, orders, Sync(p, f, true)) <==> LeavesInView(p, orders, f, Selected(p, f), weekday)
  {
    var r := Sync(p, f, true);
    SyncedIsWeekday(p, f);
    ImpliedWeekday(p, f);
    assert Dated(p, r, r.weekday) && Undecided(r) == Undecided(f);
    ShownIsOffered(p, orders, r, r.weekday);
    SameOffers(p, orders, r, f, Selected(p, f), r.weekday);
  }

  lemma SyncShows(p: Platform, orders: seq<Order>, f: Filters, weekday: string)
    requires Lawful(p) && Dated(p, f, weekday)
    ensures SomeShown(p, orders, Sync(p, f, true)) <==> LeavesInView(p, orders, f, Selected(p, f), weekday)
  {
    if SyncedWeekday(p, f).Some? {
      SyncedShows(p, orders, f, weekday);
    } else {
      ImpliedWeekday(p, f);
      ShownIsOffered(p, orders, f, weekday);
    }
  }

  /** After a removal the filters are the cleared ones with the dates that are left. */
  lemma RemovalIsClearing(p: Platform, orders: seq<Order>, s: Facets, weekday: string)
    requires Lawful(p) && Tidy(p, orders) && ValidDates(p, s.filters) && WeekdayOffered(p, orders, s.filters, weekday)
    requires Matching(p, orders, s.filters, weekday) < Selected(p, s.filters)
    ensures var g, rest := Edited(p, orders, s.filters, weekday),
                           Selected(p, s.filters) - Matching(p, orders, s.filters, weekday);
            && Dated(p, g, weekday) && Selected(p, g) == rest
            && Chosen(p, orders, s, weekday).filters
               == Sync(p, Overlay(Cleared(p, orders, s.filters, s.order, rest, weekday), g), true)
  {
    var g := Edited(p, orders, s.filters, weekday);
    ToggledIsValid(p, orders, s.filters, weekday);
    ToggledRest(p, orders, s.filters, weekday);
    WeekdayIsNormal(weekday);
    assert Undecided(g) == Undecided(s.filters);
    assert g == Overlay(s.filters, g);
    PruningIsClearing(p, orders, s.filters, g, ChosenOrder(p, orders, s, weekday), weekday);
    ClearedByChoice(p, orders, s, weekday, Selected(p, g));
    ChosenIsPruned(p, orders, s, weekday);
  }

  // ----- when a choice of weekday clears a filter -----

  /** One of the listed area and type filters has been blanked. */
  ghost predicate OneCleared(f: Filters, order: seq<Field>) {
    (Area in order && f.deliveryArea == "") || (RouteType in order && f.routeType == "")
  }

  /** A listed area or type filter has been cleared, or there was none to clear and nothing changed. */
  ghost predicate ClearedOrSame(f: Filters, r: Filters, order: seq<Field>) {
    if Area in order || RouteType in order then OneCleared(r, order) else r == f
  }

  lemma {:induction false} ClearsFirst(p: Platform, orders: seq<Order>, f: Filters, order: seq<Field>,
                                       dates: set<string>, weekday: string)
    requires !OffersOn(p, orders, f, dates, weekday)
    requires forall field :: field in order ==> Normalize(Get(f, field)).Some?
    ensures ClearedOrSame(f, Cleared(p, orders, f, order, dates, weekday), order)
  {
    if order == [] {
    } else {
      var init, field := order[..|order| - 1], order[|order| - 1];
      assert order == init + [field] && field in order;
      ClearsFirst(p, orders, f, init, dates, weekday);
    }
  }

  /** A date of the weekday that is offered was removed with the others. */
  lemma RestIsNotOffered(p: Platform, orders: seq<Order>, f: Filters, weekday: string)
    requires Lawful(p) && Tidy(p, orders)
    ensures !OffersOn(p, orders, f, Selected(p, f) - Matching(p, orders, f, weekday), weekday)
  {
    forall d | OffersDate(p, orders, f, d) && p.weekdayOf(d) == Some(weekday)
      ensures d in Matching(p, orders, f, weekday)
    {
      MatchingAre(p, orders, f, weekday, d);
    }
  }

  lemma ClearedIsNoticed(p: Platform, s: Facets, g: Filters, r: Filters)
    requires Consistent(p, s) && g.deliveryArea == s.filters.deliveryArea && g.routeType == s.filters.routeType
    requires ClearedOrSame(g, r, s.order)
    ensures r.deliveryArea == s.filters.deliveryArea && r.routeType == s.filters.routeType
            <==> Area !in s.order && RouteType !in s.order
  {
    BlankIsNone();
    assert Area in s.order ==> Normalize(Get(s.filters, Area)).Some?;
    assert RouteType in s.order ==> Normalize(Get(s.filters, RouteType)).Some?;
  }

  lemma RemovalClears(p: Platform, orders: seq<Order>, s: Facets, weekday: string)
    requires Lawful(p) && Tidy(p, orders) && Consistent(p, s) && ValidDates(p, s.filters)
    requires WeekdayOffered(p, orders, s.filters, weekday)
    requires Matching(p, orders, s.filters, weekday) < Selected(p, s.filters)
    ensures var r, cleared := Chosen(p, orders, s, weekday).filters,
                              Cleared(p, orders, s.filters, s.order,
                                      Selected(p, s.filters) - Matching(p, orders, s.filters, weekday), weekday);
            && r.deliveryArea == cleared.deliveryArea && r.routeType == cleared.routeType
            && ClearedOrSame(s.filters, cleared, s.order)
  {
    var rest := Selected(p, s.filters) - Matching(p, orders, s.filters, weekday);
    RemovalIsClearing(p, orders, s, weekday);
    RestIsNotOffered(p, orders, s.filters, weekday);
    ClearsFirst(p, orders, s.filters, s.order, rest, weekday);
  }

  /**
   Choosing an offered weekday clears an area or type filter exactly if one is set and
   the edit removes the weekday's dates while others stay selected.
   */
  lemma ChosenWeekdayKeepsFiltersIff(p: Platform, orders: seq<Order>, s: Facets, weekday: string)
    requires Lawful(p) && Tidy(p, orders) && Consistent(p, s) && ValidDates(p, s.filters)
    requires WeekdayOffered(p, orders, s.filters, weekday)
    ensures var r := Chosen(p, orders, s, weekday).filters;
            r.deliveryArea == s.filters.deliveryArea && r.routeType == s.filters.routeType <==>
              || !(Matching(p, orders, s.filters, weekday) < Selected(p, s.filters))
              || (Area !in s.order && RouteType !in s.order)
  {
    if Matching(p, orders, s.filters, weekday) < Selected(p, s.filters) {
      var rest := Selected(p, s.filters) - Matching(p, orders, s.filters, weekday);
      RemovalClears(p, orders, s, weekday);
      ClearedIsNoticed(p, s, s.filters, Cleared(p, orders, s.filters, s.order, rest, weekday));
    } else {
      var o := ChosenWeekdayShowsAnOrder(p, orders, s, weekday);
    }
  }

  // ----- when a choice of weekday leaves an order in view -----

  /**
   Choosing an offered weekday leaves an order in view exactly if it does not just remove
   the weekday's dates, or, with the listed area and type filters cleared in turn while no
   order is shown, one of the dates left is offered and they all share its weekday or it
   falls on the chosen one.
   */
  lemma ChosenWeekdayShowsIff(p: Platform, orders: seq<Order>, s: Facets, weekday: string)
    requires Lawful(p) && Tidy(p, orders) && ValidDates(p, s.filters) && WeekdayOffered(p, orders, s.filters, weekday)
    ensures var matching, selected := Matching(p, orders, s.filters, weekday), Selected(p, s.filters);
            var r, cleared := Chosen(p, orders, s, weekday).filters,
                              Cleared(p, orders, s.filters, s.order, selected - matching, weekday);
            if matching < selected then
              && r.deliveryArea == cleared.deliveryArea && r.routeType == cleared.routeType
              && (SomeShown(p, orders, r) <==> LeavesInView(p, orders, cleared, selected - matching, weekday))
            else SomeShown(p, orders, r)
  {
    if Matching(p, orders, s.filters, weekday) < Selected(p, s.filters) {
      var g, rest := Edited(p, orders, s.filters, weekday),
                     Selected(p, s.filters) - Matching(p, orders, s.filters, weekday);
      var cleared := Cleared(p, orders, s.filters, s.order, rest, weekday);
      RemovalIsClearing(p, orders, s, weekday);
      OverlayKeepsDates(p, cleared, g, weekday);
      SyncShows(p, orders, Overlay(cleared, g), weekday);
      SameOffers(p, orders, Overlay(cleared, g), cleared, rest, weekday);
    } else {
      var o := ChosenWeekdayShowsAnOrder(p, orders, s, weekday);
    }
  }

  // ----- removals that clear a filter or hide every order -----

  function PlacedOrder(area: string, d: string): Order {
    Order(Some(area), Some(d), None, None, "", false, false, false, [])
  }

  /** Two dates are selected, and perhaps an area. */
  function TwoDates(p: Platform, area: string, d: string, e: string): Filters {
    DEFAULT_FILTERS.(deliveryArea := area, deliveryDates := Serialize([d, e], p.leq))
  }

  lemma TwoDatesSelected(p: Platform, area: string, d: string, e: string)
    requires Lawful(p) && p.isDate(d) && p.isDate(e)
    ensures var f := TwoDates(p, area, d, e);
            Selected(p, f) == {d, e} && ValidDates(p, f) && Normalize(f.deliveryDates).Some?
  {
    var f := TwoDates(p, area, d, e);
    SerializedElements([d, e], p.leq);
    assert Elements([d, e]) == {d, e};
    HasElements(Parse(f.deliveryDates, p.leq));
    BlankHasNoDates(p);
    forall x | x in Parse(f.deliveryDates, p.leq) ensures p.isDate(x) {
      assert x in Selected(p, f);
    }
  }

  lemma TwoDatesImplyNoWeekday(p: Platform, area: string, d: string, e: string)
    requires Lawful(p) && p.isDate(d) && p.isDate(e) && p.weekdayOf(d) != p.weekdayOf(e)
    ensures SyncedWeekday(p, TwoDates(p, area, d, e)).None?
  {
    var f := TwoDates(p, area, d, e);
    TwoDatesSelected(p, area, d, e);
    ImpliedWeekday(p, f);
    assert d in Selected(p, f) && e in Selected(p, f);
  }

  lemma PlacedOrderIsOffered(p: Platform, area: string, d: string, e: string)
    requires Lawful(p) && p.isDate(d) && (area == "" || Normal(area))
    ensures var o, f := PlacedOrder(area, d), TwoDates(p, area, d, e);
            Shown(p, o, Undecided(f)) && TidyOrder(p, o)
  {
    BlankHasNoDates(p);
    NormalizeIsNormal(area);
  }

  lemma PlacedOrderMatches(p: Platform, area: string, d: string, e: string)
    requires Lawful(p) && p.isDate(d) && (area == "" || Normal(area))
    ensures var orders, f := [PlacedOrder(area, d)], TwoDates(p, area, d, e);
            && Tidy(p, orders) && WeekdayOffered(p, orders, f, p.weekdayOf(d).value)
            && Matching(p, orders, f, p.weekdayOf(d).value) == {d}
            && forall x :: OffersDate(p, orders, f, x) <==> x == d
  {
    var o, f := PlacedOrder(area, d), TwoDates(p, area, d, e);
    PlacedOrderIsOffered(p, area, d, e);
    ApplyFiltersMember(p, [o], Undecided(f), o);
    OrderWeekdayIsListed(p, o);
    OfferedBy(p, [o], f, o, p.weekdayOf(d).value);
    assert o in [o] && o.deliveryDate == Some(d);
    assert forall x :: OffersDate(p, [o], f, x) <==> x == d;
    forall x ensures x in Matching(p, [o], f, p.weekdayOf(d).value) <==> x == d {
      MatchingAre(p, [o], f, p.weekdayOf(d).value, x);
    }
  }

  lemma PlacedOrderShown(p: Platform, area: string, d: string, e: string)
    requires Lawful(p) && p.isDate(d) && p.isDate(e) && (area == "" || Normal(area))
    ensures Shown(p, PlacedOrder(area, d), TwoDates(p, area, d, e))
  {
    TwoDatesSelected(p, area, d, e);
    PlacedOrderIsOffered(p, area, d, e);
    BlankHasNoDates(p);
    assert d in Selected(p, TwoDates(p, area, d, e));
  }

  /** Pruning changes nothing while an order is shown, every listed filter is set and no weekday is implied. */
  lemma PruneKeepsFacets(p: Platform, orders: seq<Order>, s: Facets, o: Order)
    requires Lawful(p) && o in orders && TidyOrder(p, o) && Shown(p, o, s.filters) && ValidDates(p, s.filters)
    requires forall field :: field in s.order ==> Normalize(Get(s.filters, field)).Some?
    requires s.filters.weekday == "" && SyncedWeekday(p, s.filters).None?
    ensures Prune(p, orders, s) == s
  {
    PruneFieldsKeepsAll(p, orders, s.filters, s.order, o);
  }

  // ----- runs that lead to these pages -----

  /** The area is chosen, unless there is none, and then the two dates. */
  function TwoDatesRun(p: Platform, area: string, d: string, e: string): seq<Action> {
    var pool := [PlacedOrder(area, d)];
    (if area == "" then [] else [Edit(Area, area, pool)]) + [Edit(Dates, Serialize([d, e], p.leq), pool)]
  }

  function TwoDatesPage(p: Platform, area: string, d: string, e: string): Facets {
    Facets(TwoDates(p, area, d, e), if area == "" then [Dates] else [Area, Dates])
  }

  function AreaPage(area: string): Facets {
    Facets(DEFAULT_FILTERS.(deliveryArea := area), if area == "" then [] else [Area])
  }

  lemma AreaIsChosen(p: Platform, area: string, d: string)
    requires Lawful(p) && p.isDate(d) && Normal(area)
    ensures After(p, [Edit(Area, area, [PlacedOrder(area, d)])]) == AreaPage(area)
  {
    var o, f := PlacedOrder(area, d), DEFAULT_FILTERS.(deliveryArea := area);
    var run := [Edit(Area, area, [o])];
    BlankHasNoDates(p);
    NormalizeIsNormal(area);
    assert run[..0] == [] && After(p, run[..0]) == Facets(DEFAULT_FILTERS, []);
    assert Settle(p, [o], Area, Facets(f, [])) == Facets(f, [Area]);
    assert Get(f, Area) == area;
    PruneKeepsFacets(p, [o], Facets(f, [Area]), o);
  }

  lemma SharedWeekdayOfTwo(p: Platform, area: string, d: string, e: string)
    requires Lawful(p) && p.isDate(d) && p.isDate(e) && p.weekdayOf(d) != p.weekdayOf(e)
    ensures WeekdayForDates(p, TwoDates(p, area, d, e).deliveryDates).None?
    ensures WithDates(p, TwoDates(p, area, d, e)) == TwoDates(p, area, d, e)
  {
    TwoDatesSelected(p, area, d, e);
    TwoDatesImplyNoWeekday(p, area, d, e);
    HasElements(Parse(TwoDates(p, area, d, e).deliveryDates, p.leq));
  }

  lemma DatesSettle(p: Platform, area: string, d: string, e: string)
    requires Lawful(p) && p.isDate(d) && p.isDate(e) && p.weekdayOf(d) != p.weekdayOf(e)
    ensures var page := TwoDatesPage(p, area, d, e);
            Settle(p, [PlacedOrder(area, d)], Dates, Facets(page.filters, AreaPage(area).order)) == page
  {
    var page, order := TwoDatesPage(p, area, d, e), AreaPage(area).order;
    SharedWeekdayOfTwo(p, area, d, e);
    assert order + [Dates] == page.order && Drop(order, Dates) == order;
  }

  lemma DatesAreChosen(p: Platform, area: string, d: string, e: string)
    requires Lawful(p) && p.isDate(d) && p.isDate(e) && p.weekdayOf(d) != p.weekdayOf(e) && (area == "" || Normal(area))
    ensures Next(p, AreaPage(area), Edit(Dates, Serialize([d, e], p.leq), [PlacedOrder(area, d)]))
         == TwoDatesPage(p, area, d, e)
  {
    var o, page := PlacedOrder(area, d), TwoDatesPage(p, area, d, e);
    DatesSettle(p, area, d, e);
    TwoDatesSelected(p, area, d, e);
    TwoDatesImplyNoWeekday(p, area, d, e);
    NormalizeIsNormal(area);
    PlacedOrderIsOffered(p, area, d, e);
    PlacedOrderShown(p, area, d, e);
    assert Get(page.filters, Area) == area && Get(page.filters, Dates) == page.filters.deliveryDates;
    PruneKeepsFacets(p, [o], page, o);
  }

  lemma PageIsReached(p: Platform, area: string, d: string, e: string)
    requires Lawful(p) && p.isDate(d) && p.isDate(e) && p.weekdayOf(d) != p.weekdayOf(e) && (area == "" || Normal(area))
    ensures After(p, TwoDatesRun(p, area, d, e)) == TwoDatesPage(p, area, d, e)
  {
    var run := TwoDatesRun(p, area, d, e);
    DatesAreChosen(p, area, d, e);
    if area == "" {
      assert run[..0] == [];
    } else {
      AreaIsChosen(p, area, d);
      assert run[..1] == [Edit(Area, area, [PlacedOrder(area, d)])];
    }
  }

  lemma AreaIsCleared(p: Platform, orders: seq<Order>, s: Facets, weekday: string)
    requires Lawful(p) && Tidy(p, orders) && Consistent(p, s) && ValidDates(p, s.filters)
    requires WeekdayOffered(p, orders, s.filters, weekday) && Area in s.order && RouteType !in s.order
    requires Matching(p, orders, s.filters, weekday) < Selected(p, s.filters)
    ensures Chosen(p, orders, s, weekday).filters.deliveryArea == ""
  {
    RemovalClears(p, orders, s, weekday);
  }

  lemma AreaPageIsCleared(p: Platform, area: string, d: string, e: string)
    requires Lawful(p) && Normal(area) && p.isDate(d) && p.isDate(e) && d != e
    requires Consistent(p, TwoDatesPage(p, area, d, e))
    ensures var orders, s := [PlacedOrder(area, d)], TwoDatesPage(p, area, d, e);
            && Tidy(p, orders) && WeekdayOffered(p, orders, s.filters, p.weekdayOf(d).value)
            && Chosen(p, orders, s, p.weekdayOf(d).value).filters.deliveryArea == ""
  {
    TwoDatesSelected(p, area, d, e);
    PlacedOrderMatches(p, area, d, e);
    AreaIsCleared(p, [PlacedOrder(area, d)], TwoDatesPage(p, area, d, e), p.weekdayOf(d).value);
  }

  /** On a page reached by two edits, choosing the weekday of one of the two selected dates clears the area filter. */
  lemma RemovalClearsAreaWitness(p: Platform, area: string, d: string, e: string)
    requires Lawful(p) && Normal(area) && p.isDate(d) && p.isDate(e) && p.weekdayOf(d) != p.weekdayOf(e)
    ensures var orders, s := [PlacedOrder(area, d)], After(p, TwoDatesRun(p, area, d, e));
            && Tidy(p, orders) && WeekdayOffered(p, orders, s.filters, p.weekdayOf(d).value)
            && s.filters.deliveryArea == area
            && Chosen(p, orders, s, p.weekdayOf(d).value).filters.deliveryArea == ""
  {
    PageIsReached(p, area, d, e);
    EveryRunIsConsistent(p, TwoDatesRun(p, area, d, e));
    AreaPageIsCleared(p, area, d, e);
  }

  lemma NothingToClear(p: Platform, orders: seq<Order>, f: Filters, dates: set<string>, weekday: string)
    ensures Cleared(p, orders, f, [Dates], dates, weekday) == f
  {
    ClearedMore(p, orders, f, [], Dates, dates, weekday);
    assert [] + [Dates] == [Dates];
  }

  lemma NothingLeftInView(p: Platform, orders: seq<Order>, s: Facets, weekday: string, d: string, e: string)
    requires Lawful(p) && Tidy(p, orders) && ValidDates(p, s.filters) && WeekdayOffered(p, orders, s.filters, weekday)
    requires s.order == [Dates] && d != e
    requires Matching(p, orders, s.filters, weekday) == {d} && Selected(p, s.filters) == {d, e}
    requires !OffersDate(p, orders, s.filters, e)
    ensures !SomeShown(p, orders, Chosen(p, orders, s, weekday).filters)
  {
    assert {d, e} - {d} == {e};
    ChosenWeekdayShowsIff(p, orders, s, weekday);
    NothingToClear(p, orders, s.filters, {e}, weekday);
  }

  /** Without an area filter the same choice hides the only order, which was in view. */
  lemma RemovalHidesWitness(p: Platform, d: string, e: string)
    requires Lawful(p) && p.isDate(d) && p.isDate(e) && p.weekdayOf(d) != p.weekdayOf(e)
    ensures var orders, s := [PlacedOrder("", d)], After(p, TwoDatesRun(p, "", d, e));
            && Tidy(p, orders) && WeekdayOffered(p, orders, s.filters, p.weekdayOf(d).value)
            && SomeShown(p, orders, s.filters)
            && !SomeShown(p, orders, Chosen(p, orders, s, p.weekdayOf(d).value).filters)
  {
    var orders, s, weekday := [PlacedOrder("", d)], TwoDatesPage(p, "", d, e), p.weekdayOf(d).value;
    PageIsReached(p, "", d, e);
    TwoDatesSelected(p, "", d, e);
    PlacedOrderMatches(p, "", d, e);
    PlacedOrderShown(p, "", d, e);
    assert orders[0] in orders;
    NothingLeftInView(p, orders, s, weekday, d, e);
  }
}
