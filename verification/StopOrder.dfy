/**
 Reordering the stops of a route in the browser: one step up or down, drag and drop,
 and jump to a sequence number.
 */
module StopOrder {
  import opened Wrappers

  /** `details` stands for the fields that no operation reads or changes. */
  datatype RouteStop = RouteStop(
    deliveryStopId: string,
    sourceOrderId: string,
    orderId: string,
    sequence: int,
    details: string)

  /** A sequence number that is not an integer is None. */
  datatype Move =
    | MoveBy(id: string, direction: int)
    | MoveToStop(id: string, target: string, after: bool)
    | MoveToSequence(id: string, sequence: Option<int>)

  /** The first stop with this id, or -1. */
  function FindIndex(stops: seq<RouteStop>, id: string): (k: int)
    ensures k == -1 || 0 <= k < |stops|
    ensures 0 <= k ==> stops[k].deliveryStopId == id
  {
    if stops == [] then -1 else
    var n := |stops| - 1;
    var k := FindIndex(stops[..n], id);
    if k >= 0 then k else if stops[n].deliveryStopId == id then n else -1
  }

  /** It is the first, and there is none only if no stop has the id. */
  lemma {:induction false} FindIndexIsFirst(stops: seq<RouteStop>, id: string, j: nat)
    requires j < |stops| && stops[j].deliveryStopId == id
    ensures 0 <= FindIndex(stops, id) <= j
  {
    var n := |stops| - 1;
    if j == n {
    } else {
      FindIndexIsFirst(stops[..n], id, j);
    }
  }

  ghost predicate DistinctIds(stops: seq<RouteStop>) {
    forall i, j :: 0 <= i < j < |stops| ==> stops[i].deliveryStopId != stops[j].deliveryStopId
  }

  lemma {:induction false} FindsUnique(stops: seq<RouteStop>, k: nat)
    requires k < |stops| && DistinctIds(stops)
    ensures FindIndex(stops, stops[k].deliveryStopId) == k
  {
    var n := |stops| - 1;
    if k == n {
    } else {
      FindsUnique(stops[..n], k);
    }
  }

  function RemoveAt<T>(s: seq<T>, i: nat): seq<T>
    requires i < |s|
  {
    s[..i] + s[i + 1..]
  }

  function InsertAt<T>(s: seq<T>, j: nat, x: T): seq<T>
    requires j <= |s|
  {
    s[..j] + [x] + s[j..]
  }

  /** The element at i is taken out and put back at position j of what remains. */
  function Relocate<T>(s: seq<T>, i: nat, j: nat): seq<T>
    requires i < |s| && j < |s|
  {
    InsertAt(RemoveAt(s, i), j, s[i])
  }

  predicate Numbered(stops: seq<RouteStop>) {
    forall i :: 0 <= i < |stops| ==> stops[i].sequence == i + 1
  }

  function Resequence(stops: seq<RouteStop>): (r: seq<RouteStop>)
    ensures |r| == |stops|
    ensures Numbered(r)
  {
    seq(|stops|, i requires 0 <= i < |stops| => stops[i].(sequence := i + 1))
  }

  predicate ValidTarget(stops: seq<RouteStop>, id: string, t: Option<(nat, nat)>) {
    t.Some? ==> t.value.0 < |stops| && t.value.1 < |stops| && stops[t.value.0].deliveryStopId == id
  }

  function DropTarget(stops: seq<RouteStop>, index: nat, target: string, after: bool): (t: Option<(nat, nat)>)
    requires index < |stops|
    ensures ValidTarget(stops, stops[index].deliveryStopId, t)
  {
    var targetIndex := FindIndex(RemoveAt(stops, index), target);
    if targetIndex < 0 then None else Some((index, if after then targetIndex + 1 else targetIndex))
  }

  /** Where a move takes which stop, or None if it leaves the list as it is. */
  function Target(stops: seq<RouteStop>, move: Move): (t: Option<(nat, nat)>)
    ensures ValidTarget(stops, move.id, t)
  {
    var index := FindIndex(stops, move.id);
    if index < 0 then None else
    match move
    case MoveBy(_, direction) =>
      if index + direction < 0 || index + direction >= |stops| then None else Some((index, index + direction))
    case MoveToStop(id, target, after) =>
      if id == target then None else DropTarget(stops, index, target, after)
    case MoveToSequence(_, sequence) =>
      if sequence.None? || sequence.value < 1 || sequence.value > |stops| || index == sequence.value - 1 then None
      else Some((index, sequence.value - 1))
  }

  function Apply(stops: seq<RouteStop>, move: Move): seq<RouteStop> {
    match Target(stops, move)
    case None => stops
    case Some((i, j)) => Resequence(Relocate(stops, i, j))
  }

  function After(stops: seq<RouteStop>, moves: seq<Move>): seq<RouteStop> {
    if moves == [] then stops else Apply(After(stops, moves[..|moves| - 1]), moves[|moves| - 1])
  }

  // ----- the code: splices on a copy of the list -----

  method MoveStop(stops: seq<RouteStop>, deliveryStopId: string, direction: int) returns (r: seq<RouteStop>)
    ensures r == Apply(stops, MoveBy(deliveryStopId, direction))
  {
    var index := FindIndex(stops, deliveryStopId);
    if index < 0 { return stops; }
    var target := index + direction;
    if target < 0 || target >= |stops| { return stops; }
    var next, removed := RemoveAt(stops, index), stops[index];
    next := InsertAt(next, target, removed);
    r := Resequence(next);
  }

  method MoveStopToDropPosition(stops: seq<RouteStop>, draggedStopId: string, targetStopId: string, after: bool)
    returns (r: seq<RouteStop>)
    ensures r == Apply(stops, MoveToStop(draggedStopId, targetStopId, after))
  {
    if draggedStopId == targetStopId { return stops; }
    var draggedIndex := FindIndex(stops, draggedStopId);
    if draggedIndex < 0 { return stops; }
    var next, dragged := RemoveAt(stops, draggedIndex), stops[draggedIndex];
    var targetIndex := FindIndex(next, targetStopId);
    if targetIndex < 0 { return stops; }
    next := InsertAt(next, if after then targetIndex + 1 else targetIndex, dragged);
    r := Resequence(next);
  }

  method MoveStopToSequence(stops: seq<RouteStop>, deliveryStopId: string, sequence: Option<int>)
    returns (r: seq<RouteStop>)
    ensures r == Apply(stops, MoveToSequence(deliveryStopId, sequence))
  {
    if sequence.None? || sequence.value < 1 || sequence.value > |stops| { return stops; }
    var currentIndex := FindIndex(stops, deliveryStopId);
    var targetIndex := sequence.value - 1;
    if currentIndex < 0 || currentIndex == targetIndex { return stops; }
    assert Target(stops, MoveToSequence(deliveryStopId, sequence)) == Some((currentIndex, targetIndex));
    var next, moved := RemoveAt(stops, currentIndex), stops[currentIndex];
    next := InsertAt(next, targetIndex, moved);
    r := Resequence(next);
  }

  // ----- what a run of moves keeps -----

  /** The stops without their numbers. */
  function Unnumbered(stops: seq<RouteStop>): (r: seq<RouteStop>)
    ensures |r| == |stops|
  {
    seq(|stops|, i requires 0 <= i < |stops| => stops[i].(sequence := 0))
  }

  /** The stops, unnumbered, that are not among the moved ones, in order. */
  function Unmoved(stops: seq<RouteStop>, moved: set<string>): seq<RouteStop> {
    if stops == [] then []
    else
      var init, last := Unmoved(stops[..|stops| - 1], moved), stops[|stops| - 1];
      if last.deliveryStopId in moved then init else init + [last.(sequence := 0)]
  }

  lemma {:induction false} UnmovedConcat(a: seq<RouteStop>, b: seq<RouteStop>, moved: set<string>)
    ensures Unmoved(a + b, moved) == Unmoved(a, moved) + Unmoved(b, moved)
  {
    if b == [] {
      assert a + b == a;
    } else {
      UnmovedConcat(a, b[..|b| - 1], moved);
      assert (a + b)[..|a + b| - 1] == a + b[..|b| - 1];
    }
  }

  lemma UnmovedAround(a: seq<RouteStop>, x: RouteStop, b: seq<RouteStop>, moved: set<string>)
    requires x.deliveryStopId in moved
    ensures Unmoved(a + [x] + b, moved) == Unmoved(a + b, moved)
  {
    UnmovedConcat(a + [x], b, moved);
    UnmovedConcat(a, [x], moved);
    UnmovedConcat(a, b, moved);
    assert [x][..0] == [];
  }

  lemma {:induction false} ResequenceKeepsUnmoved(stops: seq<RouteStop>, moved: set<string>)
    ensures Unmoved(Resequence(stops), moved) == Unmoved(stops, moved)
  {
    if stops == [] {
    } else {
      ResequenceKeepsUnmoved(stops[..|stops| - 1], moved);
      assert Resequence(stops)[..|stops| - 1] == Resequence(stops[..|stops| - 1]);
    }
  }

  lemma RelocateIsPermutation<T>(s: seq<T>, i: nat, j: nat)
    requires i < |s| && j < |s|
    ensures multiset(Relocate(s, i, j)) == multiset(s)
  {
    var w := RemoveAt(s, i);
    assert s == s[..i] + [s[i]] + s[i + 1..];
    assert multiset(w) + multiset{s[i]} == multiset(s);
    assert w == w[..j] + w[j..];
    assert multiset(InsertAt(w, j, s[i])) == multiset(w) + multiset{s[i]};
  }

  /** The position from which position m of a relocated list comes. */
  function Source(i: nat, j: nat, m: nat): int {
    if m == j then i else
    var w := if m < j then m else m - 1;
    if w < i then w else w + 1
  }

  lemma RelocateAt<T>(s: seq<T>, i: nat, j: nat)
    requires i < |s| && j < |s|
    ensures |Relocate(s, i, j)| == |s|
    ensures forall m :: 0 <= m < |s| ==> 0 <= Source(i, j, m) < |s| && Relocate(s, i, j)[m] == s[Source(i, j, m)]
  {
  }

  lemma UnnumberedRelocate(stops: seq<RouteStop>, i: nat, j: nat)
    requires i < |stops| && j < |stops|
    ensures Unnumbered(Resequence(Relocate(stops, i, j))) == Relocate(Unnumbered(stops), i, j)
  {
    RelocateAt(stops, i, j);
    RelocateAt(Unnumbered(stops), i, j);
  }

  lemma RelocateKeepsUnmoved(stops: seq<RouteStop>, i: nat, j: nat, moved: set<string>)
    requires i < |stops| && j < |stops| && stops[i].deliveryStopId in moved
    ensures Unmoved(Relocate(stops, i, j), moved) == Unmoved(stops, moved)
  {
    var w, x := RemoveAt(stops, i), stops[i];
    UnmovedAround(stops[..i], x, stops[i + 1..], moved);
    assert stops == stops[..i] + [x] + stops[i + 1..];
    UnmovedAround(w[..j], x, w[j..], moved);
    assert w == w[..j] + w[j..];
  }

  lemma ApplyKeeps(stops: seq<RouteStop>, move: Move, moved: set<string>)
    requires move.id in moved
    ensures multiset(Unnumbered(Apply(stops, move))) == multiset(Unnumbered(stops))
    ensures Unmoved(Apply(stops, move), moved) == Unmoved(stops, moved)
  {
    match Target(stops, move)
    case None =>
    case Some((i, j)) =>
      RelocateKeepsUnmoved(stops, i, j, moved);
      ResequenceKeepsUnmoved(Relocate(stops, i, j), moved);
      UnnumberedRelocate(stops, i, j);
      RelocateIsPermutation(Unnumbered(stops), i, j);
  }

  function MovedIds(moves: seq<Move>): set<string> {
    set move | move in moves :: move.id
  }

  /**
   After any run of moves the list is a permutation of the original, numbered 1 to n
   if anything moved or if it was so numbered before, and the stops that were not
   moved stand in their original relative order.
   */
  lemma {:induction false} RunIsPermutation(stops: seq<RouteStop>, moves: seq<Move>, moved: set<string>)
    requires MovedIds(moves) <= moved
    ensures multiset(Unnumbered(After(stops, moves))) == multiset(Unnumbered(stops))
    ensures After(stops, moves) == stops || Numbered(After(stops, moves))
    ensures Unmoved(After(stops, moves), moved) == Unmoved(stops, moved)
  {
    if moves == [] {
    } else {
      var init, move := moves[..|moves| - 1], moves[|moves| - 1];
      assert move in moves && move.id in MovedIds(moves);
      assert MovedIds(init) <= moved by {
        forall m | m in init ensures m.id in MovedIds(moves) { assert m in moves; }
      }
      RunIsPermutation(stops, init, moved);
      ApplyKeeps(After(stops, init), move, moved);
    }
  }

  /** The list on screen after any run of moves: the same stops, renumbered once one of them moved. */
  method MoveStops(stops: seq<RouteStop>, moves: seq<Move>) returns (r: seq<RouteStop>)
    ensures r == After(stops, moves)
    ensures multiset(Unnumbered(r)) == multiset(Unnumbered(stops)) && (r == stops || Numbered(r))
  {
    r := stops;
    for i := 0 to |moves|
      invariant r == After(stops, moves[..i])
    {
      assert moves[..i + 1][..i] == moves[..i];
      match moves[i]
      case MoveBy(id, direction) => r := MoveStop(r, id, direction);
      case MoveToStop(id, target, after) => r := MoveStopToDropPosition(r, id, target, after);
      case MoveToSequence(id, sequence) => r := MoveStopToSequence(r, id, sequence);
    }
    assert moves[..|moves|] == moves;
    RunIsPermutation(stops, moves, MovedIds(moves));
  }

  // ----- what a single move does -----

  lemma RelocateKeepsDistinct(stops: seq<RouteStop>, i: nat, j: nat)
    requires i < |stops| && j < |stops| && DistinctIds(stops)
    ensures var r := Resequence(Relocate(stops, i, j)); DistinctIds(r) && FindIndex(r, stops[i].deliveryStopId) == j
  {
    var r := Resequence(Relocate(stops, i, j));
    RelocateAt(stops, i, j);
    forall m, k | 0 <= m < k < |r| ensures r[m].deliveryStopId != r[k].deliveryStopId {
      assert Source(i, j, m) != Source(i, j, k);
    }
    FindsUnique(r, j);
  }

  lemma NeighboursSwap<T>(u: seq<T>, i: nat, j: nat)
    requires i < |u| && j < |u| && (j == i + 1 || i == j + 1)
    ensures Relocate(u, i, j) == u[i := u[j]][j := u[i]]
    ensures Relocate(Relocate(u, i, j), j, i) == u
  {
    RelocateAt(u, i, j);
    RelocateAt(Relocate(u, i, j), j, i);
  }

  /** A step that stays within the list exchanges two neighbours, and the opposite step undoes it. */
  lemma StepIsUndone(stops: seq<RouteStop>, id: string, direction: int)
    requires DistinctIds(stops) && (direction == 1 || direction == -1)
    requires FindIndex(stops, id) >= 0 && 0 <= FindIndex(stops, id) + direction < |stops|
    ensures var i, u := FindIndex(stops, id), Unnumbered(stops);
            var r := Apply(stops, MoveBy(id, direction));
            && Unnumbered(r) == u[i := u[i + direction]][i + direction := u[i]]
            && Unnumbered(Apply(r, MoveBy(id, -direction))) == u
  {
    var i, u := FindIndex(stops, id), Unnumbered(stops);
    var j := i + direction;
    var r := Apply(stops, MoveBy(id, direction));
    RelocateKeepsDistinct(stops, i, j);
    UnnumberedRelocate(stops, i, j);
    NeighboursSwap(u, i, j);
    UnnumberedRelocate(r, j, i);
    assert Target(r, MoveBy(id, -direction)) == Some((j, i));
  }

  lemma BesideAfterRelocate<T>(s: seq<T>, i: nat, k: nat, after: bool)
    requires i < |s| && k < |s| && i != k
    ensures var t := if k < i then k else k - 1;
            && RemoveAt(s, i)[t] == s[k]
            && Relocate(s, i, if after then t + 1 else t)[if after then t else t + 1] == s[k]
  {
  }

  lemma RemoveKeepsDistinct(stops: seq<RouteStop>, i: nat)
    requires i < |stops| && DistinctIds(stops)
    ensures DistinctIds(RemoveAt(stops, i))
  {
    var w := RemoveAt(stops, i);
    assert forall m :: 0 <= m < |w| ==> w[m] == stops[if m < i then m else m + 1];
  }

  /** The dropped stop lands right before or right after the stop it was dropped on. */
  lemma DropLandsBesideTarget(stops: seq<RouteStop>, dragged: string, target: string, after: bool)
    requires DistinctIds(stops) && dragged != target
    requires FindIndex(stops, dragged) >= 0 && FindIndex(stops, target) >= 0
    ensures var r := Apply(stops, MoveToStop(dragged, target, after));
            FindIndex(r, dragged) == FindIndex(r, target) + (if after then 1 else -1)
  {
    var i, k := FindIndex(stops, dragged), FindIndex(stops, target);
    var w, t := RemoveAt(stops, i), if k < i then k else k - 1;
    BesideAfterRelocate(stops, i, k, after);
    RemoveKeepsDistinct(stops, i);
    FindsUnique(w, t);
    var j := if after then t + 1 else t;
    assert Target(stops, MoveToStop(dragged, target, after)) == Some((i, j));
    RelocateKeepsDistinct(stops, i, j);
    FindsUnique(Resequence(Relocate(stops, i, j)), if after then t else t + 1);
  }

  /** A step over the end, or of a stop that is not there, changes nothing. */
  lemma IdleSteps(stops: seq<RouteStop>, id: string, direction: int)
    requires var i := FindIndex(stops, id); i < 0 || i + direction < 0 || i + direction >= |stops|
    ensures Apply(stops, MoveBy(id, direction)) == stops
  {
  }

  lemma NotFoundWithout(stops: seq<RouteStop>, index: nat, target: string)
    requires index < |stops| && FindIndex(stops, target) < 0
    ensures FindIndex(RemoveAt(stops, index), target) < 0
  {
    var k := FindIndex(RemoveAt(stops, index), target);
    if k >= 0 {
      FindIndexIsFirst(stops, target, if k < index then k else k + 1);
    }
  }

  /** A drop of a stop on itself, or of or on a stop that is not there, changes nothing. */
  lemma IdleDrops(stops: seq<RouteStop>, id: string, target: string, after: bool)
    requires id == target || FindIndex(stops, id) < 0 || FindIndex(stops, target) < 0
    ensures Apply(stops, MoveToStop(id, target, after)) == stops
  {
    var i := FindIndex(stops, id);
    if id != target && i >= 0 {
      NotFoundWithout(stops, i, target);
    }
  }

  /** A stop sent to a sequence number carries that number afterwards; any other number changes nothing. */
  lemma MoveToSequenceArrives(stops: seq<RouteStop>, id: string, sequence: Option<int>)
    requires FindIndex(stops, id) >= 0 && Numbered(stops)
    ensures var r := Apply(stops, MoveToSequence(id, sequence));
            if sequence.Some? && 1 <= sequence.value <= |stops| then
              && |r| == |stops|
              && r[sequence.value - 1].deliveryStopId == id && r[sequence.value - 1].sequence == sequence.value
            else r == stops
  {
  }

  // ----- has anything changed? -----

  function Key(stop: RouteStop): string {
    if stop.deliveryStopId != "" then stop.deliveryStopId
    else if stop.sourceOrderId != "" then stop.sourceOrderId
    else stop.orderId
  }

  predicate HasStopSequenceChanged(saved: Option<seq<RouteStop>>, draft: seq<RouteStop>) {
    && saved.Some?
    && (|saved.value| != |draft| || exists i :: 0 <= i < |draft| && Key(saved.value[i]) != Key(draft[i]))
  }

  lemma SameKeySameStop(stops: seq<RouteStop>, draft: seq<RouteStop>, i: nat)
    requires DistinctIds(stops) && forall s :: s in stops ==> s.deliveryStopId != ""
    requires multiset(Unnumbered(draft)) == multiset(Unnumbered(stops)) && i < |draft| == |stops|
    ensures Key(draft[i]) == Key(stops[i]) <==> Unnumbered(draft)[i] == Unnumbered(stops)[i]
  {
    var a, b := Unnumbered(stops), Unnumbered(draft);
    assert b[i] in multiset(b);
    assert b[i] in multiset(a);
    var k :| 0 <= k < |a| && a[k] == b[i];
    assert stops[k] in stops && stops[i] in stops;
    assert Key(draft[i]) == stops[k].deliveryStopId && Key(stops[i]) == stops[i].deliveryStopId;
  }

  lemma ChangedIffDifferent(stops: seq<RouteStop>, draft: seq<RouteStop>)
    requires DistinctIds(stops) && forall s :: s in stops ==> s.deliveryStopId != ""
    requires multiset(Unnumbered(draft)) == multiset(Unnumbered(stops)) && |draft| == |stops|
    ensures HasStopSequenceChanged(Some(stops), draft) <==> Unnumbered(draft) != Unnumbered(stops)
  {
    forall i | 0 <= i < |draft|
      ensures Key(draft[i]) == Key(stops[i]) <==> Unnumbered(draft)[i] == Unnumbered(stops)[i]
    {
      SameKeySameStop(stops, draft, i);
    }
  }

  function FirstNonEmpty(texts: seq<string>): string {
    if texts == [] then "" else if texts[0] != "" then texts[0] else FirstNonEmpty(texts[1..])
  }

  /** What names a stop when lists are compared: its stop id, else its source order id, else its order id. */
  function Name(stop: RouteStop): string {
    FirstNonEmpty([stop.deliveryStopId, stop.sourceOrderId, stop.orderId])
  }

  lemma KeyIsName(stop: RouteStop)
    ensures Key(stop) == Name(stop)
  {
    var three := [stop.deliveryStopId, stop.sourceOrderId, stop.orderId];
    var two, one := [stop.sourceOrderId, stop.orderId], [stop.orderId];
    assert three[1..] == two && two[1..] == one && one[1..] == [];
    assert FirstNonEmpty(one) == stop.orderId;
    assert FirstNonEmpty(two) == if stop.sourceOrderId != "" then stop.sourceOrderId else FirstNonEmpty(one);
  }

  /** A saved list counts as unchanged exactly if the draft names the same stops in the same order. */
  lemma ChangedIffNamesDiffer(saved: Option<seq<RouteStop>>, draft: seq<RouteStop>)
    ensures HasStopSequenceChanged(saved, draft) <==>
              saved.Some? && !(|saved.value| == |draft|
                               && forall i :: 0 <= i < |draft| ==> Name(saved.value[i]) == Name(draft[i]))
  {
    forall stop ensures Key(stop) == Name(stop) {
      KeyIsName(stop);
    }
  }

  /** With distinct, non-empty ids, a run of moves counts as a change exactly when the order differs. */
  lemma ChangedIffReordered(stops: seq<RouteStop>, moves: seq<Move>)
    requires DistinctIds(stops) && forall s :: s in stops ==> s.deliveryStopId != ""
    ensures HasStopSequenceChanged(Some(stops), After(stops, moves))
            <==> Unnumbered(After(stops, moves)) != Unnumbered(stops)
  {
    var draft := After(stops, moves);
    RunIsPermutation(stops, moves, MovedIds(moves));
    assert |stops| == |multiset(Unnumbered(stops))| == |multiset(Unnumbered(draft))| == |draft|;
    ChangedIffDifferent(stops, draft);
  }
}
