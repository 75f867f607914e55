/**
 Sets of delivery dates kept as comma-separated text: normalising, parsing,
 serialising and toggling all dates of one weekday.
 */
module DateSets {
  import opened SortedSets
  import opened Text
  import opened Wrappers

  /** normalizeFilterValue; a missing value is passed as "" and normalises alike. */
  function Normalize(value: string): Option<string> {
    var trimmed := Trim(value);
    if trimmed == "" || trimmed == "all" then None else Some(trimmed)
  }

  predicate Normal(s: string) {
    Trimmed(s) && s != "" && s != "all"
  }

  lemma NormalizeIsNormal(s: string)
    ensures Normalize(s).Some? ==> Normal(Normalize(s).value)
    ensures Normalize(s) == Some(s) <==> Normal(s)
  {
    TrimIsTrimmed(s);
  }

  /** localeCompare(a, b) <= 0 */
  type Collation = (string, string) -> bool

  function NormalizeAll(values: seq<string>): seq<string> {
    if values == [] then [] else
    var init, last := NormalizeAll(values[..|values| - 1]), Normalize(values[|values| - 1]);
    if last.Some? then init + [last.value] else init
  }

  /** uniqueSortedValues */
  function UniqueSorted(values: seq<string>, leq: Collation): seq<string> {
    SortUnique(NormalizeAll(values), leq)
  }

  lemma {:induction false} NormalizeAllElements(values: seq<string>)
    ensures forall x :: x in NormalizeAll(values) ==> Normal(x)
    ensures forall v :: v in values && Normalize(v).Some? ==> Normalize(v).value in NormalizeAll(values)
    ensures forall x :: x in NormalizeAll(values) ==> exists v :: v in values && Normalize(v) == Some(x)
  {
    if values == [] {
    } else {
      var init, last := values[..|values| - 1], values[|values| - 1];
      NormalizeAllElements(init);
      NormalizeIsNormal(last);
      assert values == init + [last];
    }
  }

  lemma {:induction false} NormalizeAllNormal(values: seq<string>)
    requires forall x :: x in values ==> Normal(x)
    ensures NormalizeAll(values) == values
  {
    if values == [] {
    } else {
      var init, last := values[..|values| - 1], values[|values| - 1];
      NormalizeAllNormal(init);
      NormalizeIsNormal(last);
      assert last in values && values == init + [last];
    }
  }

  // ----- comma-separated text -----

  function Join(parts: seq<string>): string {
    if parts == [] then "" else if |parts| == 1 then parts[0] else parts[0] + "," + Join(parts[1..])
  }

  function Split(s: string): (parts: seq<string>)
    ensures parts != []
  {
    if s == "" then [""] else
    var rest := Split(s[1..]);
    if s[0] == ',' then [""] + rest else [[s[0]] + rest[0]] + rest[1..]
  }

  lemma {:induction false} SplitPlain(p: string)
    requires ',' !in p
    ensures Split(p) == [p]
  {
    if p == "" {
    } else {
      SplitPlain(p[1..]);
      assert p == [p[0]] + p[1..];
    }
  }

  lemma {:induction false} SplitFirst(p: string, rest: string)
    requires ',' !in p
    ensures Split(p + "," + rest) == [p] + Split(rest)
  {
    var s := p + "," + rest;
    if p == "" {
      assert s[1..] == rest;
    } else {
      SplitFirst(p[1..], rest);
      assert s[1..] == p[1..] + "," + rest;
      assert p == [p[0]] + p[1..];
    }
  }

  lemma {:induction false} SplitJoin(parts: seq<string>)
    requires parts != [] && forall i :: 0 <= i < |parts| ==> ',' !in parts[i]
    ensures Split(Join(parts)) == parts
  {
    if |parts| == 1 {
      SplitPlain(parts[0]);
    } else {
      SplitFirst(parts[0], Join(parts[1..]));
      SplitJoin(parts[1..]);
    }
  }

  /** Joining the parts of a text gives it back. */
  lemma {:induction false} JoinSplit(s: string)
    ensures Join(Split(s)) == s
  {
    if s == "" {
    } else {
      JoinSplit(s[1..]);
      var rest := Split(s[1..]);
      assert s == [s[0]] + s[1..];
      if s[0] == ',' {
        assert ([""] + rest)[1..] == rest;
      } else {
        assert ([[s[0]] + rest[0]] + rest[1..])[1..] == rest[1..];
      }
    }
  }

  lemma {:induction false} SplitHasNoCommas(s: string)
    ensures forall i :: 0 <= i < |Split(s)| ==> ',' !in Split(s)[i]
  {
    if s == "" {
    } else {
      SplitHasNoCommas(s[1..]);
    }
  }

  lemma {:induction false} JoinEnds(parts: seq<string>)
    requires parts != [] && forall i :: 0 <= i < |parts| ==> parts[i] != ""
    ensures Join(parts) != ""
    ensures Join(parts)[0] == parts[0][0]
    ensures var j, last := Join(parts), parts[|parts| - 1]; j[|j| - 1] == last[|last| - 1]
    ensures |parts| > 1 ==> ',' in Join(parts)
  {
    if |parts| == 1 {
    } else {
      JoinEnds(parts[1..]);
      assert Join(parts)[|parts[0]|] == ',';
    }
  }

  lemma JoinIsNormal(parts: seq<string>)
    requires parts != [] && forall i :: 0 <= i < |parts| ==> Normal(parts[i])
    ensures Normal(Join(parts))
  {
    JoinEnds(parts);
    assert ',' !in "all";
  }

  // ----- date sets -----

  /** parseDeliveryDateSet */
  function Parse(value: string, leq: Collation): seq<string> {
    var normalized := Normalize(value);
    if normalized.None? then [] else UniqueSorted(Split(normalized.value), leq)
  }

  /** serializeDeliveryDateSet */
  function Serialize(values: seq<string>, leq: Collation): string {
    Join(UniqueSorted(values, leq))
  }

  predicate CommaFree(values: seq<string>) {
    forall v :: v in values ==> ',' !in v
  }

  lemma UniqueSortedNormal(values: seq<string>, leq: Collation)
    requires TotalOrder(leq)
    ensures var r := UniqueSorted(values, leq);
            && Sorted(r, leq) && (forall i :: 0 <= i < |r| ==> Normal(r[i]))
            && UniqueSorted(r, leq) == r
  {
    var n, r := NormalizeAll(values), UniqueSorted(values, leq);
    NormalizeAllElements(values);
    SortUniqueSorts(n, leq);
    forall x | x in r ensures Normal(x) { assert x in Elements(r); }
    NormalizeAllNormal(r);
    SortUniqueSorts(r, leq);
    SortedIsCanonical(SortUnique(r, leq), r, leq);
  }

  lemma UniqueSortedCommaFree(values: seq<string>, leq: Collation)
    requires TotalOrder(leq) && CommaFree(values)
    ensures CommaFree(UniqueSorted(values, leq))
  {
    var n, r := NormalizeAll(values), UniqueSorted(values, leq);
    NormalizeAllElements(values);
    SortUniqueSorts(n, leq);
    forall x | x in r ensures ',' !in x {
      assert x in Elements(r);
      var v :| v in values && Normalize(v) == Some(x);
      if ',' in x { TrimKeeps(v, ','); }
    }
  }

  /** Serialising comma-free values and parsing the text gives back the same set of dates. */
  lemma ParseSerialize(values: seq<string>, leq: Collation)
    requires TotalOrder(leq) && CommaFree(values)
    ensures Parse(Serialize(values, leq), leq) == UniqueSorted(values, leq)
  {
    var r := UniqueSorted(values, leq);
    UniqueSortedNormal(values, leq);
    UniqueSortedCommaFree(values, leq);
    if r == [] {
      assert Trim("") == "";
    } else {
      JoinIsNormal(r);
      NormalizeIsNormal(Join(r));
      SplitJoin(r);
    }
  }

  lemma ParsedDates(value: string, leq: Collation)
    requires TotalOrder(leq)
    ensures var r := Parse(value, leq);
            Sorted(r, leq) && CommaFree(r) && UniqueSorted(r, leq) == r && forall i :: 0 <= i < |r| ==> Normal(r[i])
  {
    var normalized := Normalize(value);
    if normalized.Some? {
      SplitHasNoCommas(normalized.value);
      UniqueSortedNormal(Split(normalized.value), leq);
      UniqueSortedCommaFree(Split(normalized.value), leq);
    } else {
      assert NormalizeAll([]) == [];
    }
  }

  // ----- toggling a weekday -----

  function Without(s: seq<string>, removed: seq<string>): seq<string> {
    if s == [] then [] else
    var init, last := Without(s[..|s| - 1], removed), s[|s| - 1];
    if last in removed then init else init + [last]
  }

  lemma {:induction false} WithoutElements(s: seq<string>, removed: seq<string>)
    ensures forall x :: x in Without(s, removed) <==> x in s && x !in removed
  {
    if s == [] {
    } else {
      WithoutElements(s[..|s| - 1], removed);
      assert s == s[..|s| - 1] + [s[|s| - 1]];
    }
  }

  /** The dates selected after toggling: without the matching ones if all are in, else with them. */
  function ToggledDates(selected: seq<string>, dates: seq<string>): seq<string> {
    if dates == [] then selected
    else if forall d :: d in dates ==> d in selected then Without(selected, dates)
    else selected + dates
  }

  /** toggleWeekdayDeliveryDates, given the available dates that fall on the weekday. */
  function Toggle(matching: seq<string>, current: string, leq: Collation): string {
    Serialize(ToggledDates(Parse(current, leq), UniqueSorted(matching, leq)), leq)
  }

  function SetToggle(s: set<string>, d: set<string>): set<string> {
    if d <= s then s - d else s + d
  }

  lemma ToggledElements(selected: seq<string>, dates: seq<string>)
    ensures Elements(ToggledDates(selected, dates)) == SetToggle(Elements(selected), Elements(dates))
    ensures forall x :: x in ToggledDates(selected, dates) ==> x in selected || x in dates
  {
    WithoutElements(selected, dates);
    assert forall d :: d in dates <==> d in Elements(dates);
  }

  lemma ToggledAreDates(matching: seq<string>, current: string, leq: Collation)
    requires TotalOrder(leq) && CommaFree(matching)
    ensures var r := ToggledDates(Parse(current, leq), UniqueSorted(matching, leq));
            CommaFree(r) && forall x :: x in r ==> Normal(x)
  {
    ParsedDates(current, leq);
    UniqueSortedNormal(matching, leq);
    UniqueSortedCommaFree(matching, leq);
    ToggledElements(Parse(current, leq), UniqueSorted(matching, leq));
  }

  lemma SerializedElements(values: seq<string>, leq: Collation)
    requires TotalOrder(leq) && forall x :: x in values ==> Normal(x) && ',' !in x
    ensures Elements(Parse(Serialize(values, leq), leq)) == Elements(values)
  {
    ParseSerialize(values, leq);
    NormalizeAllNormal(values);
    SortUniqueSorts(values, leq);
  }

  /** Toggling removes the weekday's dates if all are selected and adds them otherwise. */
  lemma ToggleAsSets(matching: seq<string>, current: string, leq: Collation)
    requires TotalOrder(leq) && CommaFree(matching)
    ensures Elements(Parse(Toggle(matching, current, leq), leq))
         == SetToggle(Elements(Parse(current, leq)), Elements(UniqueSorted(matching, leq)))
  {
    ToggledAreDates(matching, current, leq);
    ToggledElements(Parse(current, leq), UniqueSorted(matching, leq));
    SerializedElements(ToggledDates(Parse(current, leq), UniqueSorted(matching, leq)), leq);
  }

  /** The text of a set of dates depends on the set alone. */
  lemma SerializeCanonical(a: seq<string>, b: seq<string>, leq: Collation)
    requires TotalOrder(leq) && Elements(a) == Elements(b)
    requires forall x :: x in a || x in b ==> Normal(x)
    ensures Serialize(a, leq) == Serialize(b, leq)
  {
    NormalizeAllNormal(a);
    NormalizeAllNormal(b);
    SortUniqueSorts(a, leq);
    SortUniqueSorts(b, leq);
    SortedIsCanonical(SortUnique(a, leq), SortUnique(b, leq), leq);
  }

  lemma ToggleIsCanonical(matching: seq<string>, current: string, leq: Collation)
    requires TotalOrder(leq) && CommaFree(matching)
    ensures Toggle(matching, current, leq) == Join(Parse(Toggle(matching, current, leq), leq))
  {
    ToggledAreDates(matching, current, leq);
    ParseSerialize(ToggledDates(Parse(current, leq), UniqueSorted(matching, leq)), leq);
  }

  lemma SameDatesSameText(a: string, b: string, leq: Collation)
    requires TotalOrder(leq) && Elements(Parse(a, leq)) == Elements(Parse(b, leq))
    requires a == Join(Parse(a, leq)) && b == Join(Parse(b, leq))
    ensures a == b
  {
    ParsedDates(a, leq);
    ParsedDates(b, leq);
    SortedIsCanonical(Parse(a, leq), Parse(b, leq), leq);
  }

  lemma SetToggleThrice(s: set<string>, d: set<string>)
    ensures SetToggle(SetToggle(SetToggle(s, d), d), d) == SetToggle(s, d)
  {
    if d == {} {
    } else if d <= s {
      assert !(d <= s - d);
      assert (s - d) + d == s;
    } else {
      assert d <= s + d && (s + d) - d == s - d;
      assert !(d <= s - d) && (s - d) + d == s + d;
    }
  }

  /** Toggling a weekday three times is toggling it once. */
  lemma ThreeTogglesAreOne(matching: seq<string>, current: string, leq: Collation)
    requires TotalOrder(leq) && CommaFree(matching)
    ensures var once := Toggle(matching, current, leq);
            Toggle(matching, Toggle(matching, once, leq), leq) == once
  {
    var once := Toggle(matching, current, leq);
    var twice := Toggle(matching, once, leq);
    ToggleAsSets(matching, current, leq);
    ToggleAsSets(matching, once, leq);
    ToggleAsSets(matching, twice, leq);
    SetToggleThrice(Elements(Parse(current, leq)), Elements(UniqueSorted(matching, leq)));
    ToggleIsCanonical(matching, current, leq);
    ToggleIsCanonical(matching, twice, leq);
    SameDatesSameText(once, Toggle(matching, twice, leq), leq);
  }

  ghost predicate Toggled(was: seq<string>, dates: seq<string>, remove: bool, selected: seq<string>) {
    forall x :: x in selected <==> if remove then x in was && x !in dates else x in was || x in dates
  }

  lemma ToggledStep(was: seq<string>, dates: seq<string>, i: nat, remove: bool, selected: seq<string>)
    requires i < |dates| && Toggled(was, dates[..i], remove, selected)
    ensures Toggled(was, dates[..i + 1], remove,
                    if remove then Without(selected, [dates[i]])
                    else if dates[i] !in selected then selected + [dates[i]] else selected)
  {
    assert dates[..i + 1] == dates[..i] + [dates[i]];
    WithoutElements(selected, [dates[i]]);
  }

  lemma SameMembers(a: seq<string>, b: seq<string>)
    requires forall x :: x in a <==> x in b
    ensures Elements(a) == Elements(b)
  {
  }

  lemma ToggledAll(matching: seq<string>, current: string, remove: bool, selected: seq<string>, leq: Collation)
    requires TotalOrder(leq)
    requires var was, dates := Parse(current, leq), UniqueSorted(matching, leq);
             dates != [] && remove == (forall d :: d in dates ==> d in was) && Toggled(was, dates, remove, selected)
    ensures Serialize(selected, leq) == Toggle(matching, current, leq)
  {
    var was, dates := Parse(current, leq), UniqueSorted(matching, leq);
    ParsedDates(current, leq);
    UniqueSortedNormal(matching, leq);
    WithoutElements(was, dates);
    var expected := if remove then Without(was, dates) else was + dates;
    SameMembers(selected, expected);
    SerializeCanonical(selected, expected, leq);
  }

  /** The code: a Set filled from the text, from which dates are deleted or to which they are added. */
  method ToggleDates(matching: seq<string>, current: string, leq: Collation) returns (r: string)
    requires TotalOrder(leq)
    ensures r == Toggle(matching, current, leq)
  {
    var selected := Parse(current, leq);
    var matchingDates := UniqueSorted(matching, leq);
    if matchingDates == [] { return Serialize(selected, leq); }
    var remove := forall d :: d in matchingDates ==> d in selected;
    ghost var was := selected;
    for i := 0 to |matchingDates|
      invariant Toggled(was, matchingDates[..i], remove, selected)
    {
      ToggledStep(was, matchingDates, i, remove, selected);
      if remove {
        selected := Without(selected, [matchingDates[i]]);
      } else if matchingDates[i] !in selected {
        selected := selected + [matchingDates[i]];
      }
    }
    assert matchingDates[..|matchingDates|] == matchingDates;
    ToggledAll(matching, current, remove, selected, leq);
    r := Serialize(selected, leq);
  }
}
