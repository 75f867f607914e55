/**
 The bulk geocoding job: it lists the orders of a shop, geocodes those without
 coordinates one after the other and keeps counts and results that can be read while
 it runs. `trail` records what a reader would see at every await.
 */
module BulkGeocoding {
  import opened Wrappers

  datatype Row = Row(
    orderId: string,
    name: string,
    hasCoordinates: bool,
    latitude: Option<real>,
    longitude: Option<real>)

  datatype Geocoded =
    | Located(cached: bool, latitude: real, longitude: real)
    | Refused(code: string, message: string)
    | GeocodeThrows(error: string)

  /** Saving the coordinates; the presenter that shows the saved order may throw as well. */
  datatype Saved = Updated(shown: string) | Missing | SaveThrows(error: string) | PresenterThrows(error: string)

  /** The services, by position among the rows to geocode. */
  datatype Services = Services(
    orders: Result<seq<Row>, string>,
    geocode: nat -> Geocoded,
    save: nat -> Saved,
    saveDiagnostics: nat -> Option<string>)

  datatype ResultStatus = Resolved | Failed | NoAddress

  /**
   `cached` and `order` are there for a resolved order, `code` for the others, and `message`
   for what the geocoder refused; the fixed text for an order that is gone is left out.
   */
  datatype Item = Item(
    orderId: string,
    orderName: string,
    status: ResultStatus,
    code: string,
    message: Option<string>,
    cached: Option<bool>,
    order: Option<string>)

  datatype Status = Accepted | Running | Completed | FailedJob

  datatype Counts = Counts(
    alreadyHasCoordinates: nat,
    attempted: nat,
    failed: nat,
    matched: nat,
    noAddress: nat,
    succeeded: nat)

  datatype Point = Listing | Geocoding | SavingDiagnostics | SavingCoordinates

  datatype Observation = Observation(
    at: Point,
    status: Status,
    completedAt: Option<int>,
    counts: Counts,
    results: seq<Item>)

  predicate HasCoordinates(row: Row) {
    row.hasCoordinates && row.latitude.Some? && row.longitude.Some?
  }

  function ToGeocode(rows: seq<Row>): (r: seq<Row>)
    ensures |r| <= |rows|
  {
    if rows == [] then [] else
    var init, last := ToGeocode(rows[..|rows| - 1]), rows[|rows| - 1];
    if HasCoordinates(last) then init else init + [last]
  }

  // ----- what the job should report -----

  /** The flag, the latitude or the longitude is missing. */
  predicate Lacks(row: Row) {
    !row.hasCoordinates || row.latitude.None? || row.longitude.None?
  }

  /** The rows without coordinates, in order. */
  function Lacking(rows: seq<Row>): (r: seq<Row>)
    ensures |r| <= |rows|
  {
    if rows == [] then []
    else (if Lacks(rows[0]) then [rows[0]] else []) + Lacking(rows[1..])
  }

  lemma {:induction false} LackingAppend(a: seq<Row>, b: seq<Row>)
    ensures Lacking(a + b) == Lacking(a) + Lacking(b)
  {
    if a == [] {
      assert a + b == b;
    } else {
      var first := if Lacks(a[0]) then [a[0]] else [];
      LackingAppend(a[1..], b);
      assert (a + b)[0] == a[0] && (a + b)[1..] == a[1..] + b;
      assert first + (Lacking(a[1..]) + Lacking(b)) == first + Lacking(a[1..]) + Lacking(b);
    }
  }

  /** Filtering keeps each row as often as it was there if it lacks coordinates, and drops it otherwise. */
  lemma {:induction false} LackingMember(rows: seq<Row>, row: Row)
    ensures multiset(Lacking(rows))[row] == if Lacks(row) then multiset(rows)[row] else 0
  {
    if rows == [] {
    } else {
      LackingMember(rows[1..], row);
      assert rows == [rows[0]] + rows[1..];
    }
  }

  /** The filter of the code keeps exactly these rows. */
  lemma {:induction false} ToGeocodeIsLacking(rows: seq<Row>)
    ensures ToGeocode(rows) == Lacking(rows)
  {
    if rows == [] {
    } else {
      var init, last := rows[..|rows| - 1], rows[|rows| - 1];
      ToGeocodeIsLacking(init);
      LackingAppend(init, [last]);
      assert rows == init + [last];
    }
  }

  function Count(results: seq<Item>, status: ResultStatus): nat {
    if results == [] then 0
    else Count(results[..|results| - 1], status) + if results[|results| - 1].status == status then 1 else 0
  }

  lemma CountMore(results: seq<Item>, item: Item)
    ensures forall s :: Count(results + [item], s) == Count(results, s) + if item.status == s then 1 else 0
  {
    assert (results + [item])[..|results|] == results;
  }

  lemma {:induction false} CountsPartition(results: seq<Item>)
    ensures Count(results, Resolved) + Count(results, Failed) + Count(results, NoAddress) == |results|
  {
    if results == [] {
    } else {
      CountsPartition(results[..|results| - 1]);
    }
  }

  function Refusal(row: Row, code: string, message: string): Item {
    Item(row.orderId, row.name, if code == "BLANK_ADDRESS" then NoAddress else Failed, code, Some(message),
         None, None)
  }

  function NotFound(row: Row): Item {
    Item(row.orderId, row.name, Failed, "ORDER_NOT_FOUND", None, None, None)
  }

  function Success(row: Row, cached: bool, shown: string): Item {
    Item(row.orderId, row.name, Resolved, "", None, Some(cached), Some(shown))
  }

  function Expected(s: Services, row: Row, i: nat): Item {
    match s.geocode(i)
    case Refused(code, message) =>
      Refusal(row, code, message)
    case Located(cached, _, _) =>
      if s.save(i).Missing? then NotFound(row)
      else Success(row, cached, if s.save(i).Updated? then s.save(i).shown else "")
    case _ => NotFound(row)
  }

  predicate Throws(s: Services, i: nat) {
    match s.geocode(i)
    case GeocodeThrows(_) => true
    case Refused(_, _) => s.saveDiagnostics(i).Some?
    case Located(_, _, _) => s.save(i).SaveThrows? || s.save(i).PresenterThrows?
  }

  /** A result names its row, and its status says what became of it. */
  lemma ResultMeans(s: Services, row: Row, i: nat)
    requires !Throws(s, i)
    ensures var item := Expected(s, row, i);
            && item.orderId == row.orderId && item.orderName == row.name
            && (item.status == NoAddress <==> s.geocode(i).Refused? && s.geocode(i).code == "BLANK_ADDRESS")
            && (item.status == Resolved <==> s.geocode(i).Located? && s.save(i).Updated?)
            && (item.status == Resolved ==>
                  item.cached == Some(s.geocode(i).cached) && item.order == Some(s.save(i).shown))
            && (s.geocode(i).Refused? ==> item.code == s.geocode(i).code && item.message == Some(s.geocode(i).message))
            && (s.geocode(i).Located? && s.save(i).Missing? ==> item.status == Failed && item.code == "ORDER_NOT_FOUND")
  {
  }

  /** The message of the exception that ends this turn, if one does. */
  function Thrown(s: Services, i: nat): Option<string> {
    match s.geocode(i)
    case GeocodeThrows(error) => Some(error)
    case Refused(_, _) => s.saveDiagnostics(i)
    case Located(_, _, _) =>
      match s.save(i)
      case SaveThrows(error) => Some(error)
      case PresenterThrows(error) => Some(error)
      case _ => None
  }

  lemma ThrowsIff(s: Services, i: nat)
    ensures Throws(s, i) <==> Thrown(s, i).Some?
  {
  }

  /** The message is that of the service that threw. */
  lemma ThrownMeans(s: Services, i: nat, message: string)
    ensures s.geocode(i) == GeocodeThrows(message) ==> Thrown(s, i) == Some(message)
    ensures s.geocode(i).Refused? && s.saveDiagnostics(i) == Some(message) ==> Thrown(s, i) == Some(message)
    ensures s.geocode(i).Located? && (s.save(i) == SaveThrows(message) || s.save(i) == PresenterThrows(message))
            ==> Thrown(s, i) == Some(message)
  {
  }

  /** The first results are those of the first rows without coordinates, in order. */
  ghost predicate Follows(s: Services, todo: seq<Row>, results: seq<Item>) {
    |results| <= |todo| && forall i :: 0 <= i < |results| ==> results[i] == Expected(s, todo[i], i)
  }

  ghost predicate Tallied(counts: Counts, results: seq<Item>) {
    && counts.failed == Count(results, Failed)
    && counts.noAddress == Count(results, NoAddress)
    && counts.succeeded == Count(results, Resolved)
  }

  /** What holds whenever the job is suspended. */
  ghost predicate Sound(s: Services, o: Observation) {
    && o.status == Running && o.completedAt == None
    && Tallied(o.counts, o.results)
    && o.counts.attempted == |o.results| + (if o.at == SavingCoordinates then 1 else 0)
    && (o.at == Listing ==> o.results == [])
    && (o.at != Listing ==>
          && s.orders.Ok? && Follows(s, Lacking(s.orders.value), o.results)
          && o.counts.matched == |s.orders.value|
          && o.counts.alreadyHasCoordinates == |s.orders.value| - |Lacking(s.orders.value)|)
  }

  // ----- where the job is suspended -----

  /** An await, and how many results a reader finds there. */
  datatype Stop = Stop(at: Point, results: nat)

  function Stops(trail: seq<Observation>): (r: seq<Stop>)
    ensures |r| == |trail|
  {
    seq(|trail|, i requires 0 <= i < |trail| => Stop(trail[i].at, |trail[i].results|))
  }

  /** The awaits of one turn of the loop. */
  function TurnStops(s: Services, i: nat): seq<Stop> {
    match s.geocode(i)
    case GeocodeThrows(_) => [Stop(Geocoding, i)]
    case Refused(_, _) => [Stop(Geocoding, i), Stop(SavingDiagnostics, i + 1)]
    case Located(_, _, _) => [Stop(Geocoding, i), Stop(SavingCoordinates, i)]
  }

  function TurnsStops(s: Services, n: nat): seq<Stop> {
    if n == 0 then [] else TurnsStops(s, n - 1) + TurnStops(s, n - 1)
  }

  lemma OneMoreTurn(s: Services, was: seq<Stop>, i: nat)
    ensures was + TurnsStops(s, i) + TurnStops(s, i) == was + TurnsStops(s, i + 1)
  {
  }

  /** How many of n turns are begun: up to and including the first that throws. */
  function TurnsBegun(s: Services, n: nat): (k: nat)
    ensures k <= n
  {
    if n == 0 then 0 else
    var k := TurnsBegun(s, n - 1);
    if k > 0 && Throws(s, k - 1) then k else n
  }

  predicate NoneThrows(s: Services, n: nat) {
    forall i :: 0 <= i < n ==> !Throws(s, i)
  }

  lemma {:induction false} TurnsBegunIs(s: Services, n: nat, k: nat)
    requires k <= n && NoneThrows(s, k)
    ensures k == n ==> TurnsBegun(s, n) == n
    ensures k < n && Throws(s, k) ==> TurnsBegun(s, n) == k + 1
    decreases n
  {
    if n == 0 {
    } else if k < n {
      TurnsBegunIs(s, n - 1, k);
    } else {
      TurnsBegunIs(s, n - 1, n - 1);
    }
  }

  /** The message of the first of n turns that throws. */
  function FirstThrown(s: Services, n: nat): Option<string> {
    if n == 0 then None
    else
      var earlier := FirstThrown(s, n - 1);
      if earlier.Some? then earlier else Thrown(s, n - 1)
  }

  lemma {:induction false} FirstThrownIs(s: Services, n: nat, k: nat)
    requires k <= n && NoneThrows(s, k)
    ensures k == n ==> FirstThrown(s, n) == None
    ensures k < n && Throws(s, k) ==> FirstThrown(s, n) == Thrown(s, k)
    decreases n
  {
    if n == 0 {
    } else if k < n {
      FirstThrownIs(s, n - 1, k);
      ThrowsIff(s, k);
    } else {
      FirstThrownIs(s, n - 1, n - 1);
      ThrowsIff(s, n - 1);
    }
  }

  /** Every await of a whole job, in order. */
  function JobStops(s: Services): seq<Stop> {
    [Stop(Listing, 0)]
    + if s.orders.Err? then [] else TurnsStops(s, TurnsBegun(s, |Lacking(s.orders.value)|))
  }

  function Tally(counts: Counts, status: ResultStatus): Counts {
    match status
    case Resolved => counts.(succeeded := counts.succeeded + 1)
    case Failed => counts.(failed := counts.failed + 1)
    case NoAddress => counts.(noAddress := counts.noAddress + 1)
  }

  /** Counting the attempt and its outcome and recording the result keeps the job sound. */
  lemma Recorded(s: Services, o: Observation, item: Item, at: Point)
    requires Sound(s, o) && o.at == Geocoding && (at == Geocoding || at == SavingDiagnostics)
    requires |o.results| < |Lacking(s.orders.value)|
    requires item == Expected(s, Lacking(s.orders.value)[|o.results|], |o.results|)
    ensures Sound(s, o.(at := at, results := o.results + [item],
                        counts := Tally(o.counts.(attempted := o.counts.attempted + 1), item.status)))
  {
    CountMore(o.results, item);
  }

  // ----- how the job ends -----

  predicate NothingThrows(s: Services) {
    s.orders.Ok? && NoneThrows(s, |Lacking(s.orders.value)|)
  }

  /** What a completed job reports: one result for every row without coordinates, in order, all counted. */
  ghost predicate Finished(s: Services, counts: Counts, results: seq<Item>)
    requires s.orders.Ok?
  {
    var todo := Lacking(s.orders.value);
    && |results| == |todo| == counts.attempted && Follows(s, todo, results) && Tallied(counts, results)
    && counts.matched == |s.orders.value| == counts.alreadyHasCoordinates + counts.attempted
  }

  predicate PresenterFails(s: Services, i: nat) {
    s.geocode(i).Located? && s.save(i).PresenterThrows?
  }

  /** What a turn that threw leaves behind: an attempt without result exactly if it located the address. */
  ghost predicate Stopped(s: Services, todo: seq<Row>, i: nat, counts: Counts, results: seq<Item>) {
    && Follows(s, todo, results)
    && |results| == i + (if s.geocode(i).Refused? then 1 else 0)
    && counts.attempted == |results| + (if s.geocode(i).Located? then 1 else 0)
    && counts.failed == Count(results, Failed) && counts.noAddress == Count(results, NoAddress)
    && counts.succeeded == Count(results, Resolved) + (if PresenterFails(s, i) then 1 else 0)
  }

  ghost predicate StoppedAt(s: Services, todo: seq<Row>, i: nat, counts: Counts, results: seq<Item>) {
    Throws(s, i) && NoneThrows(s, i) && Stopped(s, todo, i, counts, results)
  }

  /** At the first row that threw. */
  ghost predicate StoppedSomewhere(s: Services, todo: seq<Row>, counts: Counts, results: seq<Item>) {
    exists i :: 0 <= i < |todo| && StoppedAt(s, todo, i, counts, results)
  }

  lemma StoppedFirst(s: Services, todo: seq<Row>, i: nat, counts: Counts, results: seq<Item>)
    requires i < |todo| && StoppedAt(s, todo, i, counts, results)
    ensures StoppedSomewhere(s, todo, counts, results) && !NoneThrows(s, |todo|)
    ensures TurnsBegun(s, |todo|) == i + 1 && FirstThrown(s, |todo|) == Thrown(s, i)
  {
    TurnsBegunIs(s, |todo|, i);
    FirstThrownIs(s, |todo|, i);
  }

  /** The three outcome counts are as many as the results. */
  predicate AddsUp(counts: Counts, results: seq<Item>) {
    counts.failed + counts.noAddress + counts.succeeded == |results|
  }

  lemma ObservedCountsAddUp(s: Services, trail: seq<Observation>)
    requires forall o :: o in trail ==> Sound(s, o)
    ensures forall o :: o in trail ==> AddsUp(o.counts, o.results)
  {
    forall o | o in trail ensures AddsUp(o.counts, o.results) {
      CountsPartition(o.results);
    }
  }

  /** The rows with coordinates and those without make up the list. */
  predicate Matched(s: Services, counts: Counts)
    requires s.orders.Ok?
  {
    && counts.matched == |s.orders.value|
    && counts.alreadyHasCoordinates == |s.orders.value| - |Lacking(s.orders.value)|
  }

  /** What a job leaves behind: nothing, all results, or those up to the first row that threw. */
  ghost predicate Left(s: Services, counts: Counts, results: seq<Item>) {
    if s.orders.Err? then results == [] && counts == Counts(0, 0, 0, 0, 0, 0)
    else if !Matched(s, counts) then false
    else if NothingThrows(s) then Finished(s, counts, results)
    else StoppedSomewhere(s, Lacking(s.orders.value), counts, results)
  }

  /** The first row that throws does so in the presenter, after its coordinates were saved. */
  predicate PresenterEndsIt(s: Services) {
    s.orders.Ok? && exists i :: 0 <= i < |Lacking(s.orders.value)| && NoneThrows(s, i) && PresenterFails(s, i)
  }

  /** However the job ended, the counts add up exactly unless the presenter ended it. */
  lemma FinalCountsAddUpIff(s: Services, counts: Counts, results: seq<Item>)
    requires Left(s, counts, results)
    ensures AddsUp(counts, results) <==> !PresenterEndsIt(s)
  {
    CountsPartition(results);
    if s.orders.Err? {
    } else if NothingThrows(s) {
      forall k | 0 <= k < |Lacking(s.orders.value)| ensures !PresenterFails(s, k) {
        assert !Throws(s, k);
      }
    } else {
      var todo := Lacking(s.orders.value);
      var i :| 0 <= i < |todo| && StoppedAt(s, todo, i, counts, results);
      forall k | 0 <= k < |todo| && NoneThrows(s, k) && PresenterFails(s, k) ensures k == i {
        assert Throws(s, k);
      }
    }
  }

  // ----- the code -----

  class Job {
    var status: Status
    var completedAt: Option<int>
    var error: Option<string>
    var counts: Counts
    var results: seq<Item>
    ghost var trail: seq<Observation>

    ghost predicate IsNew()
      reads this
    {
      status == Accepted && completedAt == None && error == None && results == [] && trail == []
      && counts == Counts(0, 0, 0, 0, 0, 0)
    }

    /** createBulkGeocodeJob */
    constructor ()
      ensures IsNew()
    {
      status, completedAt, error, results, trail := Accepted, None, None, [], [];
      counts := Counts(0, 0, 0, 0, 0, 0);
    }

    ghost function Look(at: Point): Observation
      reads this
    {
      Observation(at, status, completedAt, counts, results)
    }

    ghost method Suspend(s: Services, at: Point)
      requires Sound(s, Look(at))
      requires forall o :: o in trail ==> Sound(s, o)
      modifies this`trail
      ensures trail == old(trail) + [Look(at)] && forall o :: o in trail ==> Sound(s, o)
      ensures Stops(trail) == old(Stops(trail)) + [Stop(at, |results|)]
    {
      trail := trail + [Look(at)];
    }

    /** updateBulkGeocodeJob */
    method Update(newStatus: Status, newError: Option<string>, now: int)
      modifies this`status, this`error, this`completedAt
      ensures status == newStatus
      ensures error == if newError.Some? then newError else old(error)
      ensures completedAt == if newStatus == Completed || newStatus == FailedJob then Some(now) else old(completedAt)
    {
      status := newStatus;
      if newError.Some? { error := newError; }
      if newStatus == Completed || newStatus == FailedJob { completedAt := Some(now); }
    }

    method Push(item: Item)
      modifies this`results
      ensures results == old(results) + [item]
    {
      results := results + [item];
    }

    /** Counts an outcome and pushes its result. */
    method Conclude(item: Item)
      modifies this`counts, this`results
      ensures counts == Tally(old(counts), item.status) && results == old(results) + [item]
    {
      match item.status {
        case Resolved => counts := counts.(succeeded := counts.succeeded + 1);
        case Failed => counts := counts.(failed := counts.failed + 1);
        case NoAddress => counts := counts.(noAddress := counts.noAddress + 1);
      }
      Push(item);
    }

    /** State of the job between two rows, before row i. */
    ghost predicate Between(s: Services, i: nat)
      reads this
    {
      |results| == i && Sound(s, Look(Geocoding)) && forall o :: o in trail ==> Sound(s, o)
    }

    /** The branch for an address that was not located. */
    method RecordRefusal(s: Services, row: Row, i: nat, code: string, message: string)
      returns (failure: Option<string>)
      requires s.orders.Ok? && i < |Lacking(s.orders.value)| && row == Lacking(s.orders.value)[i] && Between(s, i)
      requires s.geocode(i) == Refused(code, message)
      modifies this`counts, this`results, this`trail
      ensures failure == s.saveDiagnostics(i)
      ensures counts.matched == old(counts.matched) && counts.alreadyHasCoordinates == old(counts.alreadyHasCoordinates)
      ensures Between(s, i + 1)
      ensures Stops(trail) == old(Stops(trail)) + [Stop(SavingDiagnostics, i + 1)]
    {
      var item := Refusal(row, code, message);
      ghost var before := Look(Geocoding);
      Recorded(s, before, item, SavingDiagnostics);
      Recorded(s, before, item, Geocoding);
      if code == "BLANK_ADDRESS" {
        counts := counts.(noAddress := counts.noAddress + 1);
      } else {
        counts := counts.(failed := counts.failed + 1);
      }
      counts := counts.(attempted := counts.attempted + 1);
      Push(item);
      assert counts == Tally(before.counts.(attempted := before.counts.attempted + 1), item.status);
      Suspend(s, SavingDiagnostics);
      failure := s.saveDiagnostics(i);
    }

    /** The branch for an address that was located. */
    method SaveLocation(s: Services, row: Row, i: nat, cached: bool) returns (failure: Option<string>)
      requires s.orders.Ok? && i < |Lacking(s.orders.value)| && row == Lacking(s.orders.value)[i] && Between(s, i)
      requires s.geocode(i).Located? && s.geocode(i).cached == cached
      modifies this`counts, this`results, this`trail
      ensures failure == Thrown(s, i)
      ensures failure.Some? <==> Throws(s, i)
      ensures counts.matched == old(counts.matched) && counts.alreadyHasCoordinates == old(counts.alreadyHasCoordinates)
      ensures failure.None? ==> Between(s, i + 1)
      ensures forall o :: o in trail ==> Sound(s, o)
      ensures Stops(trail) == old(Stops(trail)) + [Stop(SavingCoordinates, i)]
      // a failed save leaves one attempt without result
      ensures failure.Some? ==>
                && results == old(results) && counts.attempted == i + 1
                && counts.failed == Count(results, Failed) && counts.noAddress == Count(results, NoAddress)
                && counts.succeeded == Count(results, Resolved) + (if PresenterFails(s, i) then 1 else 0)
    {
      failure := None;
      ghost var before := Look(Geocoding);
      counts := counts.(attempted := counts.attempted + 1);
      Suspend(s, SavingCoordinates);
      match s.save(i) {
        case SaveThrows(message) =>
          failure := Some(message);
        case Missing =>
          Conclude(NotFound(row));
          Recorded(s, before, NotFound(row), Geocoding);
        case PresenterThrows(message) =>
          counts := counts.(succeeded := counts.succeeded + 1);
          failure := Some(message);
        case Updated(shown) =>
          Conclude(Success(row, cached, shown));
          Recorded(s, before, Success(row, cached, shown), Geocoding);
      }
    }

    /** One turn of the loop; `failure` is the message of an exception it ended with. */
    method GeocodeRow(s: Services, todo: seq<Row>, i: nat) returns (failure: Option<string>)
      requires s.orders.Ok? && todo == Lacking(s.orders.value) && i < |todo| && Between(s, i)
      modifies this`counts, this`results, this`trail
      ensures failure == Thrown(s, i)
      ensures failure.Some? <==> Throws(s, i)
      ensures counts.matched == old(counts.matched) && counts.alreadyHasCoordinates == old(counts.alreadyHasCoordinates)
      ensures failure.None? ==> Between(s, i + 1)
      ensures forall o :: o in trail ==> Sound(s, o)
      ensures failure.Some? ==> Stopped(s, todo, i, counts, results)
      ensures Stops(trail) == old(Stops(trail)) + TurnStops(s, i)
    {
      Suspend(s, Geocoding);
      match s.geocode(i) {
        case GeocodeThrows(message) =>
          failure := Some(message);
        case Refused(code, message) =>
          failure := RecordRefusal(s, todo[i], i, code, message);
        case Located(cached, _, _) =>
          failure := SaveLocation(s, todo[i], i, cached);
      }
    }

    /** The loop over the rows without coordinates; `turns` counts the turns begun. */
    method GeocodeRows(s: Services, todo: seq<Row>) returns (failure: Option<string>, turns: nat)
      requires s.orders.Ok? && todo == Lacking(s.orders.value) && Between(s, 0)
      modifies this`counts, this`results, this`trail
      ensures forall o :: o in trail ==> Sound(s, o)
      ensures turns <= |todo| && Stops(trail) == old(Stops(trail)) + TurnsStops(s, turns)
      ensures counts.matched == old(counts.matched) && counts.alreadyHasCoordinates == old(counts.alreadyHasCoordinates)
      ensures failure.None? ==> turns == |todo| && NoneThrows(s, turns) && Between(s, turns)
      ensures failure.Some? ==>
                turns > 0 && NoneThrows(s, turns - 1) && Throws(s, turns - 1) && failure == Thrown(s, turns - 1)
                && Stopped(s, todo, turns - 1, counts, results)
    {
      ghost var was := Stops(trail);
      turns := 0;
      while turns < |todo|
        invariant turns <= |todo| && Between(s, turns) && NoneThrows(s, turns)
        invariant Stops(trail) == was + TurnsStops(s, turns)
        invariant counts.matched == old(counts.matched)
        invariant counts.alreadyHasCoordinates == old(counts.alreadyHasCoordinates)
      {
        failure := GeocodeRow(s, todo, turns);
        OneMoreTurn(s, was, turns);
        turns := turns + 1;
        if failure.Some? {
          return;
        }
      }
      failure := None;
    }

    method GeocodeAll(s: Services, todo: seq<Row>) returns (failure: Option<string>)
      requires s.orders.Ok? && todo == Lacking(s.orders.value) && Between(s, 0)
      modifies this`counts, this`results, this`trail
      ensures forall o :: o in trail ==> Sound(s, o)
      ensures failure == FirstThrown(s, |todo|)
      ensures failure.None? <==> NoneThrows(s, |todo|)
      ensures counts.matched == old(counts.matched) && counts.alreadyHasCoordinates == old(counts.alreadyHasCoordinates)
      ensures failure.None? ==> Between(s, |todo|)
      ensures failure.Some? ==> StoppedSomewhere(s, todo, counts, results)
      ensures Stops(trail) == old(Stops(trail)) + TurnsStops(s, TurnsBegun(s, |todo|))
    {
      var turns;
      failure, turns := GeocodeRows(s, todo);
      if failure.Some? {
        StoppedFirst(s, todo, turns - 1, counts, results);
      } else {
        TurnsBegunIs(s, |todo|, |todo|);
        FirstThrownIs(s, |todo|, |todo|);
      }
    }

    /** From the answer of the order list to the end of the loop. */
    method GeocodeOrders(s: Services) returns (failure: Option<string>)
      requires s.orders.Ok? && status == Running && completedAt == None
      requires results == [] && counts == Counts(0, 0, 0, 0, 0, 0) && Stops(trail) == [Stop(Listing, 0)]
      requires forall o :: o in trail ==> Sound(s, o)
      modifies this`counts, this`results, this`trail
      ensures forall o :: o in trail ==> Sound(s, o)
      ensures Stops(trail) == JobStops(s)
      ensures failure == FirstThrown(s, |Lacking(s.orders.value)|)
      ensures failure.None? <==> NothingThrows(s)
      ensures Matched(s, counts)
      ensures failure.None? ==> Finished(s, counts, results)
      ensures failure.Some? ==> StoppedSomewhere(s, Lacking(s.orders.value), counts, results)
    {
      var orders := s.orders.value;
      var todo := ToGeocode(orders);
      ToGeocodeIsLacking(orders);
      counts := counts.(matched := |orders|, alreadyHasCoordinates := |orders| - |todo|);
      failure := GeocodeAll(s, todo);
    }

    /** runBulkGeocodeJob */
    method Run(s: Services, now: int)
      requires IsNew()
      modifies this
      // what a reader can see: one observation at every await, sound, with counts that add up
      ensures Stops(trail) == JobStops(s)
      ensures forall o :: o in trail ==> Sound(s, o) && AddsUp(o.counts, o.results)
      // it ends in one of the two terminal states, and only then has a completion time
      ensures (status == Completed || status == FailedJob) && completedAt == Some(now)
      ensures status == FailedJob <==> error.Some?
      ensures error == if s.orders.Err? then Some(s.orders.error) else FirstThrown(s, |Lacking(s.orders.value)|)
      // it completes exactly when nothing throws; a failed job stopped at the list or at the first row that threw
      ensures status == Completed <==> NothingThrows(s)
      ensures Left(s, counts, results)
      // at the end, too, the counts add up, unless the presenter threw
      ensures AddsUp(counts, results) <==> !PresenterEndsIt(s)
    {
      Update(Running, None, now);
      Suspend(s, Listing);
      assert Stops(trail) == [Stop(Listing, 0)];
      if s.orders.Err? {
        Update(FailedJob, Some(s.orders.error), now);
      } else {
        var failure := GeocodeOrders(s);
        Update(if failure.Some? then FailedJob else Completed, failure, now);
      }
      ObservedCountsAddUp(s, trail);
      FinalCountsAddUpIff(s, counts, results);
    }
  }

  /** One order whose coordinates are saved but whose presenter throws. */
  function PresenterFailure(row: Row, message: string): Services {
    Services(Ok([row]), i => Located(false, 0.0, 0.0), i => PresenterThrows(message), i => None)
  }

  /** Its job fails with one success counted and no result. */
  method PresenterFailureLosesAResult(row: Row, message: string, now: int)
    returns (status: Status, counts: Counts, results: seq<Item>)
    requires Lacks(row)
    ensures status == FailedJob && counts.succeeded == 1 && counts.attempted == 1 && results == []
    ensures PresenterEndsIt(PresenterFailure(row, message)) && !AddsUp(counts, results)
  {
    var job := new Job();
    ghost var s := PresenterFailure(row, message);
    job.Run(PresenterFailure(row, message), now);
    assert [row][1..] == [] && Lacking([row]) == [row];
    assert Throws(s, 0);
    status, counts, results := job.status, job.counts, job.results;
  }
}
