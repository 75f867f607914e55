/**
 Parity of a symmetric edge relation along open and closed vertex lists: how many
 consecutive pairs of a list are hit, modulo two. The ray-cast test of
 routeGrouping.ts is one instance; everything here is independent of coordinates.
 */
module Rings {

  /** True when an odd number of consecutive pairs of `vs` is hit. */
  function Parity<T>(hit: (T, T) -> bool, vs: seq<T>): bool {
    if |vs| < 2 then false else hit(vs[1], vs[0]) != Parity(hit, vs[1..])
  }

  /** The closed walk that visits `vs` and returns to its first vertex. */
  function Ring<T>(vs: seq<T>): seq<T>
    requires vs != []
  {
    vs + [vs[0]]
  }

  function Reverse<T>(vs: seq<T>): seq<T> {
    if vs == [] then [] else Reverse(vs[1..]) + [vs[0]]
  }

  function Rotate<T>(vs: seq<T>, k: nat): seq<T>
    requires k <= |vs|
  {
    vs[k..] + vs[..k]
  }

  ghost predicate Symmetric<T(!new)>(hit: (T, T) -> bool) {
    forall a, b :: hit(a, b) == hit(b, a)
  }

  lemma {:induction false} ParityJoin<T>(hit: (T, T) -> bool, a: seq<T>, x: T, b: seq<T>)
    ensures Parity(hit, a + [x] + b) == (Parity(hit, a + [x]) != Parity(hit, [x] + b))
  {
    if a == [] {
      assert a + [x] + b == [x] + b && a + [x] == [x];
    } else {
      ParityJoin(hit, a[1..], x, b);
      assert (a + [x] + b)[1..] == a[1..] + [x] + b;
      assert (a + [x])[1..] == a[1..] + [x];
    }
  }

  lemma ParityAppend<T>(hit: (T, T) -> bool, a: seq<T>, x: T)
    requires a != []
    ensures Parity(hit, a + [x]) == (Parity(hit, a) != hit(x, a[|a| - 1]))
  {
    var last := a[|a| - 1];
    ParityJoin(hit, a[..|a| - 1], last, [x]);
    assert a[..|a| - 1] + [last] == a;
    assert [last] + [x] == [last, x] && [last, x][1..] == [x];
  }

  lemma {:induction false} ReverseAppend<T>(a: seq<T>, x: T)
    ensures Reverse(a + [x]) == [x] + Reverse(a)
  {
    if a == [] {
      assert [] + [x] == [x];
    } else {
      ReverseAppend(a[1..], x);
      assert (a + [x])[1..] == a[1..] + [x];
    }
  }

  lemma {:induction false} ReverseEnds<T>(vs: seq<T>)
    ensures |Reverse(vs)| == |vs|
    ensures vs != [] ==> Reverse(vs)[|vs| - 1] == vs[0]
  {
    if vs == [] {
    } else {
      ReverseEnds(vs[1..]);
    }
  }

  lemma {:induction false} ParityReverse<T(!new)>(hit: (T, T) -> bool, vs: seq<T>)
    requires Symmetric(hit)
    ensures Parity(hit, Reverse(vs)) == Parity(hit, vs)
  {
    if |vs| < 2 {
    } else {
      ParityReverse(hit, vs[1..]);
      ReverseEnds(vs[1..]);
      ParityAppend(hit, Reverse(vs[1..]), vs[0]);
    }
  }

  lemma RotateParity<T>(hit: (T, T) -> bool, vs: seq<T>, k: nat)
    requires k < |vs|
    ensures Parity(hit, Ring(Rotate(vs, k))) == Parity(hit, Ring(vs))
  {
    var v0, vk := vs[0], vs[k];
    ParityJoin(hit, vs[..k], vk, vs[k + 1..] + [v0]);
    assert vs[..k] + [vk] + (vs[k + 1..] + [v0]) == Ring(vs);
    assert [vk] + (vs[k + 1..] + [v0]) == vs[k..] + [v0];
    if k == 0 {
      assert Rotate(vs, 0) == vs;
    } else {
      ParityJoin(hit, vs[k..], v0, vs[1..k] + [vk]);
      assert vs[k..] + [v0] + (vs[1..k] + [vk]) == Ring(Rotate(vs, k));
      assert [v0] + (vs[1..k] + [vk]) == vs[..k] + [vk];
    }
  }

  lemma ReverseParity<T(!new)>(hit: (T, T) -> bool, vs: seq<T>)
    requires vs != [] && Symmetric(hit)
    ensures |Reverse(vs)| == |vs|
    ensures Parity(hit, Ring(Reverse(vs))) == Parity(hit, Ring(vs))
  {
    var n, w := |vs|, Reverse(vs);
    ReverseEnds(vs);
    RotateParity(hit, w, n - 1);
    ReverseAppend(vs, vs[0]);
    assert Ring(Rotate(w, n - 1)) == Reverse(Ring(vs)) by {
      assert w == w[..n - 1] + [vs[0]];
    }
    ParityReverse(hit, Ring(vs));
  }

  lemma SplitAtFirst<T(!new)>(hit: (T, T) -> bool, w: seq<T>, d: nat)
    requires d < |w| && Symmetric(hit)
    ensures Parity(hit, Ring(w)) == (Parity(hit, Ring(w[..d + 1])) != Parity(hit, Ring(w[d..] + [w[0]])))
  {
    var a, b, rest := w[0], w[d], w[d + 1..] + [w[0]];
    ParityJoin(hit, w[..d], b, rest);
    assert w[..d] + [b] == w[..d + 1];
    assert w[..d + 1] + rest == Ring(w);
    assert [b] + rest == w[d..] + [a];
    ParityAppend(hit, w[..d + 1], a);
    ParityAppend(hit, w[d..] + [a], b);
  }

  /** Cutting a ring between positions i and j gives two rings whose parities add up. */
  lemma SplitParity<T(!new)>(hit: (T, T) -> bool, vs: seq<T>, i: nat, j: nat)
    requires i < j < |vs| && Symmetric(hit)
    ensures Parity(hit, Ring(vs))
         == (Parity(hit, Ring(vs[i..j + 1])) != Parity(hit, Ring(vs[j..] + vs[..i + 1])))
  {
    var w := Rotate(vs, i);
    RotateParity(hit, vs, i);
    SplitAtFirst(hit, w, j - i);
    assert w[..j - i + 1] == vs[i..j + 1];
    assert w[j - i..] + [w[0]] == vs[j..] + vs[..i + 1];
  }

  /** A new vertex between two neighbours keeps the parity if it splits their edge evenly. */
  lemma InsertParity<T>(hit: (T, T) -> bool, vs: seq<T>, k: nat, v: T)
    requires vs != [] && k <= |vs|
    requires var a, b := vs[if k == 0 then |vs| - 1 else k - 1], vs[if k == |vs| then 0 else k];
             hit(b, a) == (hit(v, a) != hit(b, v))
    ensures Parity(hit, Ring(vs[..k] + [v] + vs[k..])) == Parity(hit, Ring(vs))
  {
    var n, grown := |vs|, vs[..k] + [v] + vs[k..];
    var w := Rotate(vs, if k == n then 0 else k);
    RotateParity(hit, vs, if k == n then 0 else k);
    RotateParity(hit, grown, if k == n then 0 else k + 1);
    assert Rotate(grown, if k == n then 0 else k + 1) == w + [v] by {
      if k == n { assert grown == vs + [v]; }
    }
    ParityAppend(hit, w, w[0]);
    ParityAppend(hit, w, v);
    ParityAppend(hit, w + [v], w[0]);
  }

  /** A ring changes sides of any two-colouring an even number of times. */
  lemma {:induction false} ColourChangesAreEven<T>(colour: T -> bool, change: (T, T) -> bool, vs: seq<T>)
    requires vs != [] && forall a, b :: a in vs && b in vs ==> change(a, b) == (colour(a) != colour(b))
    ensures Parity(change, vs) == (colour(vs[0]) != colour(vs[|vs| - 1]))
  {
    if |vs| < 2 {
    } else {
      ColourChangesAreEven(colour, change, vs[1..]);
    }
  }

  /** Two edge relations that agree on the vertices of a list have the same parity along it. */
  lemma {:induction false} ParityCongruence<T>(f: (T, T) -> bool, g: (T, T) -> bool, vs: seq<T>)
    requires forall a, b :: a in vs && b in vs ==> f(a, b) == g(a, b)
    ensures Parity(f, vs) == Parity(g, vs)
  {
    if |vs| < 2 {
    } else {
      ParityCongruence(f, g, vs[1..]);
    }
  }

  // ----- few hits -----

  /** The k-th pair of the list is hit. */
  predicate HitAt<T>(hit: (T, T) -> bool, vs: seq<T>, k: int) {
    0 <= k < |vs| - 1 && hit(vs[k + 1], vs[k])
  }

  lemma HitAtTail<T>(hit: (T, T) -> bool, vs: seq<T>)
    requires |vs| >= 2
    ensures forall k :: 0 <= k ==> HitAt(hit, vs[1..], k) == HitAt(hit, vs, k + 1)
  {
  }

  lemma {:induction false} NoHitIsEven<T>(hit: (T, T) -> bool, vs: seq<T>)
    requires forall k :: !HitAt(hit, vs, k)
    ensures !Parity(hit, vs)
  {
    if |vs| < 2 {
    } else {
      HitAtTail(hit, vs);
      assert !HitAt(hit, vs, 0);
      forall k ensures !HitAt(hit, vs[1..], k) {
        assert !HitAt(hit, vs, k + 1);
      }
      NoHitIsEven(hit, vs[1..]);
    }
  }

  lemma {:induction false} OneHitIsOdd<T>(hit: (T, T) -> bool, vs: seq<T>, i: int)
    requires forall k :: HitAt(hit, vs, k) <==> k == i
    ensures Parity(hit, vs)
  {
    assert HitAt(hit, vs, i);
    forall k ensures HitAt(hit, vs[1..], k) <==> k == i - 1 && i > 0 {
      assert HitAt(hit, vs, k + 1) <==> k + 1 == i;
    }
    if i == 0 {
      NoHitIsEven(hit, vs[1..]);
    } else {
      assert !HitAt(hit, vs, 0);
      OneHitIsOdd(hit, vs[1..], i - 1);
    }
  }

  lemma {:induction false} TwoHitsAreEven<T>(hit: (T, T) -> bool, vs: seq<T>, i: int, j: int)
    requires i < j && forall k :: HitAt(hit, vs, k) <==> k == i || k == j
    ensures !Parity(hit, vs)
  {
    assert HitAt(hit, vs, i) && HitAt(hit, vs, j);
    forall k ensures HitAt(hit, vs[1..], k) <==> (k == i - 1 && i > 0) || k == j - 1 {
      assert HitAt(hit, vs, k + 1) <==> k + 1 == i || k + 1 == j;
    }
    if i == 0 {
      OneHitIsOdd(hit, vs[1..], j - 1);
    } else {
      assert !HitAt(hit, vs, 0);
      TwoHitsAreEven(hit, vs[1..], i - 1, j - 1);
    }
  }

  // ----- walking around -----

  function Succ(i: nat, n: nat): nat {
    if i + 1 == n then 0 else i + 1
  }

  lemma {:induction false} ChangeBetween(cs: seq<bool>, l: nat, h: nat) returns (i: nat)
    requires l < h < |cs| && cs[l] != cs[h]
    ensures l <= i < h && cs[i] == cs[l] && cs[i + 1] == cs[h]
    decreases h - l
  {
    if cs[l + 1] == cs[h] {
      i := l;
    } else {
      i := ChangeBetween(cs, l + 1, h);
    }
  }

  /** A closed walk that has both colours changes from the first to the second somewhere. */
  lemma ChangeAround(cs: seq<bool>, l: nat, h: nat) returns (i: nat)
    requires l < |cs| && h < |cs| && cs[l] != cs[h]
    ensures i < |cs| && cs[i] == cs[l] && cs[Succ(i, |cs|)] == cs[h]
  {
    var n := |cs| - 1;
    if l < h {
      i := ChangeBetween(cs, l, h);
    } else if cs[0] == cs[l] {
      i := ChangeBetween(cs, 0, h);
    } else if cs[n] == cs[l] {
      i := n;
    } else {
      i := ChangeBetween(cs, l, n);
    }
  }

  /** The pairs of a ring are the pairs of neighbours of its list. */
  lemma RingPairs<T>(hit: (T, T) -> bool, vs: seq<T>, k: int)
    requires vs != []
    ensures HitAt(hit, Ring(vs), k) <==> 0 <= k < |vs| && hit(vs[Succ(k, |vs|)], vs[k])
  {
  }
}
