/**
 What each filter of the orders page means on its own, and that several of them show
 exactly the orders that each of them shows.
 */
module FilterMeanings {
  import opened DateSets
  import opened FacetRuns
  import opened OrderFilters
  import opened SortedSets
  import opened Text
  import opened Wrappers

  /** An order passes several filters exactly if it passes each of them alone; the two date fields count as one. */
  lemma FiltersIntersect(p: Platform, o: Order, f: Filters)
    requires Lawful(p)
    ensures Shown(p, o, f) <==>
              && Shown(p, o, DEFAULT_FILTERS.(deliveryDate := f.deliveryDate, deliveryDates := f.deliveryDates))
              && Shown(p, o, DEFAULT_FILTERS.(weekday := f.weekday))
              && Shown(p, o, DEFAULT_FILTERS.(deliveryArea := f.deliveryArea))
              && Shown(p, o, DEFAULT_FILTERS.(routeType := f.routeType))
              && Shown(p, o, DEFAULT_FILTERS.(serviceType := f.serviceType))
              && Shown(p, o, DEFAULT_FILTERS.(deliverySession := f.deliverySession))
              && Shown(p, o, DEFAULT_FILTERS.(tab := f.tab))
              && Shown(p, o, DEFAULT_FILTERS.(status := f.status))
              && Shown(p, o, DEFAULT_FILTERS.(deliveryStatus := f.deliveryStatus))
              && Shown(p, o, DEFAULT_FILTERS.(search := f.search))
  {
    BlankHasNoDates(p);
  }

  /** A blank filter, or one that is set to "all", shows every order. */
  lemma NoFilterShowsAll(p: Platform, o: Order, blank: string)
    requires Lawful(p) && Normalize(blank).None?
    ensures Shown(p, o, Filters(blank, blank, blank, blank, blank, blank, blank, blank, blank, blank, "all"))
  {
  }

  lemma DateFilter(p: Platform, o: Order, d: string)
    requires Lawful(p) && Normal(d)
    ensures Shown(p, o, DEFAULT_FILTERS.(deliveryDate := d)) <==> o.deliveryDate == Some(d)
  {
    BlankHasNoDates(p);
    NormalizeIsNormal(d);
  }

  /** A set of dates shows the orders on one of them, whatever the single date says. */
  lemma DatesFilter(p: Platform, o: Order, values: seq<string>, d: string)
    requires Lawful(p) && values != [] && forall x :: x in values ==> Normal(x) && ',' !in x
    ensures Shown(p, o, DEFAULT_FILTERS.(deliveryDates := Serialize(values, p.leq), deliveryDate := d))
            <==> o.deliveryDate.Some? && o.deliveryDate.value in values
  {
    var dates := Parse(Serialize(values, p.leq), p.leq);
    BlankHasNoDates(p);
    SerializedElements(values, p.leq);
    assert values[0] in Elements(values);
    HasElements(dates);
    assert forall x :: x in dates <==> x in Elements(dates);
    assert forall x :: x in values <==> x in Elements(values);
  }

  lemma WeekdayFilter(p: Platform, o: Order, weekday: string)
    requires Lawful(p) && weekday in WEEKDAYS
    ensures Shown(p, o, DEFAULT_FILTERS.(weekday := weekday))
            <==> o.deliveryDate.Some? && p.weekdayOf(o.deliveryDate.value) == Some(weekday)
  {
    BlankHasNoDates(p);
    WeekdayIsNormal(weekday);
  }

  /** Areas are compared without regard to case. */
  lemma AreaFilter(p: Platform, o: Order, area: string)
    requires Lawful(p) && Normal(area)
    ensures Shown(p, o, DEFAULT_FILTERS.(deliveryArea := area))
            <==> o.deliveryArea.Some? && p.lower(o.deliveryArea.value) == p.lower(area)
  {
    BlankHasNoDates(p);
    NormalizeIsNormal(area);
  }

  /** The type of an order is its service type, or its session if it has none. */
  lemma TypeFilter(p: Platform, o: Order, kind: string)
    requires Lawful(p) && Normal(kind)
    ensures Shown(p, o, DEFAULT_FILTERS.(routeType := kind)) <==>
              || (o.serviceType.Some? && Trim(o.serviceType.value) == kind)
              || ((o.serviceType.None? || Normalize(o.serviceType.value).None?)
                  && o.deliverySession.Some? && Trim(o.deliverySession.value) == kind)
  {
    BlankHasNoDates(p);
    NormalizeIsNormal(kind);
  }

  lemma ServiceSessionAndStatusFilters(p: Platform, o: Order, value: string)
    requires Lawful(p) && Normal(value)
    ensures Shown(p, o, DEFAULT_FILTERS.(serviceType := value)) <==> o.serviceType == Some(value)
    ensures Shown(p, o, DEFAULT_FILTERS.(deliverySession := value)) <==> o.deliverySession == Some(value)
    ensures Shown(p, o, DEFAULT_FILTERS.(deliveryStatus := value)) <==> o.deliveryStatus == value
  {
    BlankHasNoDates(p);
    NormalizeIsNormal(value);
  }

  /** Planned and unplanned orders partition the list; any other status restricts nothing. */
  lemma PlanningFilter(p: Platform, o: Order, other: string)
    requires Lawful(p) && other != "planned" && other != "unplanned" && Normal(other)
    ensures Shown(p, o, DEFAULT_FILTERS.(status := "planned")) <==> o.planned
    ensures Shown(p, o, DEFAULT_FILTERS.(status := "unplanned")) <==> !o.planned
    ensures Shown(p, o, DEFAULT_FILTERS.(status := other))
  {
    BlankHasNoDates(p);
    NormalizeIsNormal(other);
    assert Normal("planned") && Normal("unplanned");
    NormalizeIsNormal("planned");
    NormalizeIsNormal("unplanned");
  }

  lemma TabFilter(p: Platform, o: Order, tab: string)
    requires Lawful(p)
    ensures Shown(p, o, DEFAULT_FILTERS.(tab := tab)) <==>
              || tab == "all"
              || (tab == "planned" && o.planned)
              || (tab == "needs_review" && o.needsReview)
              || (tab != "planned" && tab != "needs_review" && !o.planned && o.eligible)
  {
    BlankHasNoDates(p);
  }

  lemma ContainsIff(text: string, part: string)
    ensures Contains(text, part) <==> exists before, after :: text == before + part + after
  {
    if Contains(text, part) {
      var k :| 0 <= k <= |text| && part <= text[k..];
      assert text == text[..k] + part + text[k + |part|..];
    }
    if before, after :| text == before + part + after {
      assert part <= text[|before|..];
    }
  }

  /** A search finds an order by any part of any of its texts, without regard to case. */
  lemma SearchFilter(p: Platform, o: Order, text: string)
    requires Lawful(p) && Normal(text)
    ensures Shown(p, o, DEFAULT_FILTERS.(search := text)) <==>
              exists found, before, after :: found in o.searchable && p.lower(found) == before + p.lower(text) + after
  {
    BlankHasNoDates(p);
    NormalizeIsNormal(text);
    var part := p.lower(text);
    forall found ensures Contains(p.lower(found), part) <==>
                           exists before, after :: p.lower(found) == before + part + after
    {
      ContainsIff(p.lower(found), part);
    }
  }
}
