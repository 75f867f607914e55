/** Lists made from a set by sorting: Array.from(new Set(values)).sort(compare). */
module SortedSets {

  ghost predicate TotalOrder<T(!new)>(leq: (T, T) -> bool) {
    && (forall a, b :: leq(a, b) || leq(b, a))
    && (forall a, b :: leq(a, b) && leq(b, a) ==> a == b)
    && (forall a, b, c :: leq(a, b) && leq(b, c) ==> leq(a, c))
  }

  ghost predicate Sorted<T(!new)>(s: seq<T>, leq: (T, T) -> bool) {
    forall i, j :: 0 <= i < j < |s| ==> leq(s[i], s[j]) && s[i] != s[j]
  }

  function Elements<T>(s: seq<T>): set<T> {
    set x | x in s
  }

  function Insert<T(==)>(s: seq<T>, v: T, leq: (T, T) -> bool): seq<T> {
    if s == [] then [v]
    else if s[0] == v then s
    else if leq(v, s[0]) then [v] + s
    else [s[0]] + Insert(s[1..], v, leq)
  }

  function SortUnique<T(==)>(values: seq<T>, leq: (T, T) -> bool): seq<T> {
    if values == [] then [] else Insert(SortUnique(values[..|values| - 1], leq), values[|values| - 1], leq)
  }

  lemma Decompose<T>(s: seq<T>)
    requires s != []
    ensures s == [s[0]] + s[1..]
    ensures Elements(s) == {s[0]} + Elements(s[1..])
  {
    assert s == [s[0]] + s[1..];
  }

  lemma {:induction false} InsertElements<T>(s: seq<T>, v: T, leq: (T, T) -> bool)
    ensures Elements(Insert(s, v, leq)) == Elements(s) + {v}
  {
    if s == [] {
    } else {
      Decompose(s);
      if s[0] != v && !leq(v, s[0]) {
        InsertElements(s[1..], v, leq);
        Decompose(Insert(s, v, leq));
      } else if s[0] != v {
        Decompose([v] + s);
      }
    }
  }

  lemma SortedCons<T(!new)>(x: T, s: seq<T>, leq: (T, T) -> bool)
    requires Sorted(s, leq) && forall y :: y in Elements(s) ==> leq(x, y) && x != y
    ensures Sorted([x] + s, leq)
  {
    forall j | 0 <= j < |s| ensures leq(x, s[j]) && x != s[j] {
      assert s[j] in Elements(s);
    }
  }

  lemma FirstIsLeast<T(!new)>(s: seq<T>, y: T, leq: (T, T) -> bool)
    requires TotalOrder(leq) && Sorted(s, leq) && y in Elements(s)
    ensures leq(s[0], y) && (y in Elements(s[1..]) ==> s[0] != y)
  {
    var i :| 0 <= i < |s| && s[i] == y;
    if y in Elements(s[1..]) {
      var j :| 0 <= j < |s[1..]| && s[1..][j] == y;
      assert s[j + 1] == y;
    }
  }

  lemma {:induction false} InsertSorts<T(!new)>(s: seq<T>, v: T, leq: (T, T) -> bool)
    requires TotalOrder(leq) && Sorted(s, leq)
    ensures Sorted(Insert(s, v, leq), leq)
  {
    if s == [] || s[0] == v {
    } else {
      if leq(v, s[0]) {
        forall y | y in Elements(s) ensures leq(v, y) && v != y {
          FirstIsLeast(s, y, leq);
        }
        SortedCons(v, s, leq);
      } else {
        InsertSorts(s[1..], v, leq);
        InsertElements(s[1..], v, leq);
        Decompose(s);
        forall y | y in Elements(Insert(s[1..], v, leq)) ensures leq(s[0], y) && s[0] != y {
          if y != v { FirstIsLeast(s, y, leq); }
        }
        SortedCons(s[0], Insert(s[1..], v, leq), leq);
      }
    }
  }

  /** The result is strictly sorted and has exactly the given elements. */
  lemma {:induction false} SortUniqueSorts<T(!new)>(values: seq<T>, leq: (T, T) -> bool)
    requires TotalOrder(leq)
    ensures Sorted(SortUnique(values, leq), leq)
    ensures Elements(SortUnique(values, leq)) == Elements(values)
  {
    if values == [] {
    } else {
      var n := |values| - 1;
      SortUniqueSorts(values[..n], leq);
      InsertSorts(SortUnique(values[..n], leq), values[n], leq);
      InsertElements(SortUnique(values[..n], leq), values[n], leq);
      assert values == values[..n] + [values[n]];
    }
  }

  lemma TailElements<T(!new)>(s: seq<T>, leq: (T, T) -> bool)
    requires TotalOrder(leq) && Sorted(s, leq) && s != []
    ensures Sorted(s[1..], leq) && Elements(s[1..]) == Elements(s) - {s[0]}
  {
    Decompose(s);
    if s[0] in Elements(s[1..]) {
      FirstIsLeast(s, s[0], leq);
    }
  }

  lemma HasElements<T>(s: seq<T>)
    ensures s != [] <==> Elements(s) != {}
  {
    if s != [] { assert s[0] in Elements(s); }
  }

  /** A strictly sorted list is determined by its elements. */
  lemma {:induction false} SortedIsCanonical<T(!new)>(a: seq<T>, b: seq<T>, leq: (T, T) -> bool)
    requires TotalOrder(leq) && Sorted(a, leq) && Sorted(b, leq) && Elements(a) == Elements(b)
    ensures a == b
  {
    if a != [] && b != [] {
      assert a[0] in Elements(a) && b[0] in Elements(b);
      FirstIsLeast(a, b[0], leq);
      FirstIsLeast(b, a[0], leq);
      TailElements(a, leq);
      TailElements(b, leq);
      SortedIsCanonical(a[1..], b[1..], leq);
      Decompose(a);
      Decompose(b);
    } else {
      HasElements(a);
      HasElements(b);
    }
  }
}
