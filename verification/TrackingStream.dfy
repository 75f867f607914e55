/**
 The server-sent event stream of a route's live tracking. The handler subscribes to
 the hub, reads a snapshot, sends it, drains what arrived meanwhile and goes live; on
 every heartbeat it re-reads a snapshot and sends it if something differs. One action
 here is one stretch of handler code between two awaits, or one step of its
 environment; a run is any sequence of actions.
 */
module TrackingStream {
  import opened Wrappers

  type Id = string

  /** A hub event, reduced to its name and event id. */
  datatype Event = Position(id: Id) | Progress(id: Id)

  /** `basis` is the set of stored events that the snapshot was computed from. */
  datatype Snapshot = Snapshot(
    latestPosition: Option<Id>,
    latestProgress: Option<Id>,
    watermark: Option<string>,
    recentPositions: seq<Id>,
    basis: set<Event>)

  /** The operational state service may be absent, know no state, or answer with one. */
  datatype Operational = Undefined | Null | Value(json: string)

  /** JSON.stringify(state ?? null) */
  function Text(operational: Operational): string {
    if operational.Value? then operational.json else "null"
  }

  datatype Item =
    | Retry
    | Heartbeat
    | SnapshotItem(snapshot: Snapshot, operational: Operational)
    | EventItem(event: Event)

  /** The four lastSent variables. */
  datatype Fingerprint = Fingerprint(
    position: Option<Id>,
    progress: Option<Id>,
    watermark: Option<string>,
    operational: string)

  function Remember(snapshot: Snapshot, operational: Operational): Fingerprint {
    Fingerprint(snapshot.latestPosition, snapshot.latestProgress, snapshot.watermark, Text(operational))
  }

  function RememberEvent(last: Fingerprint, event: Event): Fingerprint {
    match event
    case Position(id) => last.(position := Some(id))
    case Progress(id) => last.(progress := Some(id))
  }

  function SnapshotIds(snapshot: Snapshot): set<Id> {
    (set id | id in snapshot.recentPositions)
    + (if snapshot.latestProgress.Some? then {snapshot.latestProgress.value} else {})
  }

  /** The snapshot shows the event with this id. */
  predicate Lists(snapshot: Snapshot, id: Id) {
    id in snapshot.recentPositions || snapshot.latestProgress == Some(id)
  }

  /** Where the handler stands; `since` is what was stored when its read began. */
  datatype Phase =
    | Loading(since: set<Event>)
    | AwaitingOperational(snapshot: Snapshot)
    | Live
    | Ended

  /** A reconciliation in progress: the stream version and the stored events when it began. */
  datatype Task =
    | ReadingSnapshot(version: nat, since: set<Event>)
    | ReadingOperational(version: nat, since: set<Event>, snapshot: Snapshot)

  datatype State = State(
    phase: Phase,
    queued: seq<Event>,
    snapshotSent: bool,
    heartbeat: bool,
    cleanedUp: bool,
    reconciling: bool,
    version: nat,
    last: Fingerprint,
    tasks: seq<Task>,
    subscribed: bool,
    destroyed: bool,
    transcript: seq<Item>,
    // history
    store: set<Event>,
    delivered: seq<Event>,
    first: Option<Snapshot>)

  function Init(store: set<Event>): State {
    State(Loading(store), [], false, false, false, false, 0, Fingerprint(None, None, None, ""),
          [], true, false, [], store, [], None)
  }

  datatype Action =
    | Store(event: Event)
    | Publish(event: Event)
    | InitialRead(snapshot: Snapshot)
    | InitialReadFails
    | InitialOperational(operational: Operational)
    | InitialOperationalFails
    | Close
    | Destroy
    | Tick
    | TaskSnapshot(task: nat, snapshot: Snapshot)
    | TaskOperational(task: nat, operational: Operational)
    | TaskFails(task: nat)

  predicate Enabled(s: State, a: Action) {
    match a
    case Store(_) => true
    case Publish(_) => s.subscribed
    case InitialRead(_) => s.phase.Loading?
    case InitialReadFails => s.phase.Loading?
    case InitialOperational(_) => s.phase.AwaitingOperational?
    case InitialOperationalFails => s.phase.AwaitingOperational?
    case Close => true
    case Destroy => true
    case Tick => s.heartbeat
    case TaskSnapshot(k, _) => k < |s.tasks| && s.tasks[k].ReadingSnapshot?
    case TaskOperational(k, _) => k < |s.tasks| && s.tasks[k].ReadingOperational?
    case TaskFails(k) => k < |s.tasks|
  }

  function Cleanup(s: State): State {
    if s.cleanedUp then s else s.(cleanedUp := true, heartbeat := false, subscribed := false)
  }

  function HubEvent(s: State, event: Event): State {
    var t := s.(version := s.version + 1, delivered := s.delivered + [event]);
    if !s.snapshotSent then t.(queued := s.queued + [event])
    else t.(transcript := s.transcript + [EventItem(event)], last := RememberEvent(s.last, event))
  }

  /** The queued events that the snapshot does not already show, in order. */
  function Unseen(queued: seq<Event>, ids: set<Id>): seq<Event> {
    if queued == [] then []
    else
      var init, event := Unseen(queued[..|queued| - 1], ids), queued[|queued| - 1];
      if event.id in ids then init else init + [event]
  }

  function EventItems(events: seq<Event>): (items: seq<Item>)
    ensures |items| == |events|
  {
    seq(|events|, i requires 0 <= i < |events| => EventItem(events[i]))
  }

  function RememberAll(last: Fingerprint, events: seq<Event>): Fingerprint {
    if events == [] then last
    else RememberEvent(RememberAll(last, events[..|events| - 1]), events[|events| - 1])
  }

  function GoLive(s: State, snapshot: Snapshot, operational: Operational): State {
    var drained := Unseen(s.queued, SnapshotIds(snapshot));
    s.(phase := Live, snapshotSent := true, heartbeat := true, first := Some(snapshot),
       transcript := s.transcript + [SnapshotItem(snapshot, operational)] + EventItems(drained),
       last := RememberAll(Remember(snapshot, operational), drained))
  }

  function DropTask(s: State, k: nat): State
    requires k < |s.tasks|
  {
    s.(tasks := s.tasks[..k] + s.tasks[k + 1..], reconciling := false)
  }

  function FinishTask(s: State, k: nat, operational: Operational): State
    requires k < |s.tasks| && s.tasks[k].ReadingOperational?
  {
    var task := s.tasks[k];
    var t := DropTask(s, k);
    if s.cleanedUp || s.destroyed || task.version != s.version then t
    else if Remember(task.snapshot, operational) == s.last then t
    else t.(transcript := s.transcript + [SnapshotItem(task.snapshot, operational)],
            last := Remember(task.snapshot, operational))
  }

  function Beat(s: State): State {
    var t := s.(transcript := s.transcript + [Heartbeat]);
    if s.cleanedUp || s.reconciling then t
    else t.(reconciling := true, tasks := s.tasks + [ReadingSnapshot(s.version, s.store)])
  }

  function Step(s: State, a: Action): State
    requires Enabled(s, a)
  {
    match a
    case Store(event) => s.(store := s.store + {event})
    case Publish(event) => HubEvent(s, event)
    case InitialRead(snapshot) =>
      if s.destroyed then Cleanup(s).(phase := Ended)
      else s.(phase := AwaitingOperational(snapshot), transcript := s.transcript + [Retry])
    case InitialReadFails => Cleanup(s).(phase := Ended)
    case InitialOperational(operational) => GoLive(s, s.phase.snapshot, operational)
    case InitialOperationalFails => s.(phase := Ended)
    case Close => Cleanup(s)
    case Destroy => s.(destroyed := true)
    case Tick => Beat(s)
    case TaskSnapshot(k, snapshot) =>
      var task := s.tasks[k];
      s.(tasks := s.tasks[k := ReadingOperational(task.version, task.since, snapshot)])
    case TaskOperational(k, operational) => FinishTask(s, k, operational)
    case TaskFails(k) => DropTask(s, k)
  }

  /** An action that cannot happen leaves the state alone. */
  function Next(s: State, a: Action): State {
    if Enabled(s, a) then Step(s, a) else s
  }

  function After(s: State, actions: seq<Action>): State {
    if actions == [] then s else Next(After(s, actions[..|actions| - 1]), actions[|actions| - 1])
  }

  // ----- what the client has been told -----

  /** The hub events written to the stream, in order. */
  function Events(t: seq<Item>): seq<Event> {
    if t == [] then []
    else
      var init, item := Events(t[..|t| - 1]), t[|t| - 1];
      if item.EventItem? then init + [item.event] else init
  }

  /** What a reader of the stream has on the screen. */
  datatype Screen = Screen(
    position: Option<Id>,
    progress: Option<Id>,
    watermark: Option<string>,
    state: Operational)

  function Show(screen: Screen, item: Item): Screen {
    match item
    case SnapshotItem(snapshot, operational) =>
      Screen(snapshot.latestPosition, snapshot.latestProgress, snapshot.watermark, operational)
    case EventItem(Position(id)) => screen.(position := Some(id))
    case EventItem(Progress(id)) => screen.(progress := Some(id))
    case _ => screen
  }

  function OnScreen(t: seq<Item>): Screen {
    if t == [] then Screen(None, None, None, Undefined) else Show(OnScreen(t[..|t| - 1]), t[|t| - 1])
  }

  /** Two operational states that serialise alike: equal values, or none on either side. */
  predicate SameState(a: Operational, b: Operational) {
    match (a, b)
    case (Value(x), Value(y)) => x == y
    case (Value(x), _) => x == "null"
    case (_, Value(y)) => y == "null"
    case _ => true
  }

  /** The screen already shows what was read. */
  predicate Agrees(screen: Screen, snapshot: Snapshot, operational: Operational) {
    && screen.position == snapshot.latestPosition && screen.progress == snapshot.latestProgress
    && screen.watermark == snapshot.watermark && SameState(screen.state, operational)
  }

  /** What the handler remembers of a screen. */
  function Print(screen: Screen): Fingerprint {
    Fingerprint(screen.position, screen.progress, screen.watermark, Text(screen.state))
  }

  lemma SameTextIffSameState(a: Operational, b: Operational)
    ensures Text(a) == Text(b) <==> SameState(a, b)
  {
  }

  /** What the handler compares decides whether the screen shows what was read. */
  lemma ComparedIsShown(screen: Screen, snapshot: Snapshot, operational: Operational)
    ensures Remember(snapshot, operational) == Print(screen) <==> Agrees(screen, snapshot, operational)
  {
    SameTextIffSameState(screen.state, operational);
  }

  function Reflects(item: Item): set<Event> {
    if item.SnapshotItem? then item.snapshot.basis
    else if item.EventItem? then {item.event}
    else {}
  }

  /** Every stored event that some item of the stream reflects. */
  function Known(t: seq<Item>): set<Event> {
    if t == [] then {} else Known(t[..|t| - 1]) + Reflects(t[|t| - 1])
  }

  /** The stream without its keep-alive comments. */
  function Shown(t: seq<Item>): seq<Item> {
    if t == [] then []
    else
      var init, item := Shown(t[..|t| - 1]), t[|t| - 1];
      if item.Heartbeat? then init else init + [item]
  }

  ghost predicate HasSnapshot(t: seq<Item>) {
    exists i :: 0 <= i < |t| && t[i].SnapshotItem?
  }

  lemma Extend(t: seq<Item>, item: Item)
    ensures Events(t + [item]) == if item.EventItem? then Events(t) + [item.event] else Events(t)
    ensures Shown(t + [item]) == if item.Heartbeat? then Shown(t) else Shown(t) + [item]
    ensures Known(t + [item]) == Known(t) + Reflects(item)
    ensures OnScreen(t + [item]) == Show(OnScreen(t), item)
  {
    assert (t + [item])[..|t|] == t;
  }

  lemma SplitLast(t: seq<Item>, events: seq<Event>)
    requires events != []
    ensures events == events[..|events| - 1] + [events[|events| - 1]]
    ensures t + EventItems(events) == t + EventItems(events[..|events| - 1]) + [EventItem(events[|events| - 1])]
  {
  }

  lemma {:induction false} ExtendEvents(t: seq<Item>, events: seq<Event>)
    ensures Events(t + EventItems(events)) == Events(t) + events
  {
    if events == [] {
      assert t + EventItems(events) == t;
    } else {
      var init, event := events[..|events| - 1], events[|events| - 1];
      ExtendEvents(t, init);
      Extend(t + EventItems(init), EventItem(event));
      SplitLast(t, events);
      assert Events(t) + events == Events(t) + init + [event];
    }
  }

  lemma PrintEvent(screen: Screen, event: Event)
    ensures Print(Show(screen, EventItem(event))) == RememberEvent(Print(screen), event)
  {
  }

  lemma {:induction false} ExtendScreen(t: seq<Item>, events: seq<Event>)
    ensures Print(OnScreen(t + EventItems(events))) == RememberAll(Print(OnScreen(t)), events)
  {
    if events == [] {
      assert t + EventItems(events) == t;
    } else {
      var init, event := events[..|events| - 1], events[|events| - 1];
      ExtendScreen(t, init);
      Extend(t + EventItems(init), EventItem(event));
      PrintEvent(OnScreen(t + EventItems(init)), event);
      SplitLast(t, events);
    }
  }

  lemma {:induction false} ExtendKnown(t: seq<Item>, events: seq<Event>, bound: set<Event>)
    requires Known(t) <= bound && forall e :: e in events ==> e in bound
    ensures Known(t + EventItems(events)) <= bound
  {
    if events == [] {
      assert t + EventItems(events) == t;
    } else {
      var init, event := events[..|events| - 1], events[|events| - 1];
      ExtendKnown(t, init, bound);
      Extend(t + EventItems(init), EventItem(event));
      SplitLast(t, events);
    }
  }

  /** The events that the snapshot does not list, in order. */
  function Unlisted(events: seq<Event>, snapshot: Snapshot): seq<Event> {
    if events == [] then []
    else (if Lists(snapshot, events[0].id) then [] else [events[0]]) + Unlisted(events[1..], snapshot)
  }

  lemma {:induction false} UnlistedLast(events: seq<Event>, snapshot: Snapshot, e: Event)
    ensures Unlisted(events + [e], snapshot) == Unlisted(events, snapshot) + if Lists(snapshot, e.id) then [] else [e]
  {
    if events == [] {
    } else {
      assert (events + [e])[1..] == events[1..] + [e];
      UnlistedLast(events[1..], snapshot, e);
    }
  }

  lemma {:induction false} UnseenIsUnlisted(queued: seq<Event>, snapshot: Snapshot)
    ensures Unseen(queued, SnapshotIds(snapshot)) == Unlisted(queued, snapshot)
  {
    if queued == [] {
    } else {
      var init, event := queued[..|queued| - 1], queued[|queued| - 1];
      UnseenIsUnlisted(init, snapshot);
      UnlistedLast(init, snapshot, event);
      assert queued == init + [event];
    }
  }

  lemma {:induction false} UnseenElements(queued: seq<Event>, ids: set<Id>)
    ensures forall e :: e in Unseen(queued, ids) <==> e in queued && e.id !in ids
  {
    if queued == [] {
    } else {
      UnseenElements(queued[..|queued| - 1], ids);
      assert queued == queued[..|queued| - 1] + [queued[|queued| - 1]];
    }
  }

  /** The state in which the first i queued events have been drained. */
  function Drained(s: State, i: nat, ids: set<Id>): State
    requires i <= |s.queued|
  {
    var unseen := Unseen(s.queued[..i], ids);
    s.(transcript := s.transcript + EventItems(unseen), last := RememberAll(s.last, unseen))
  }

  /** One turn of the drain loop. */
  lemma DrainStep(s: State, i: nat, ids: set<Id>)
    requires i < |s.queued|
    ensures var before, event := Drained(s, i, ids), s.queued[i];
            Drained(s, i + 1, ids) ==
              if event.id in ids then before
              else before.(transcript := before.transcript + [EventItem(event)],
                           last := RememberEvent(before.last, event))
  {
    assert s.queued[..i + 1][..i] == s.queued[..i];
    var after := Unseen(s.queued[..i + 1], ids);
    if s.queued[i].id !in ids {
      SplitLast(s.transcript, after);
      assert after[..|after| - 1] == Unseen(s.queued[..i], ids);
    }
  }

  lemma DrainEnds(s: State, ids: set<Id>)
    ensures Drained(s, 0, ids) == s
    ensures var unseen := Unseen(s.queued, ids);
            Drained(s, |s.queued|, ids)
            == s.(transcript := s.transcript + EventItems(unseen), last := RememberAll(s.last, unseen))
  {
    assert s.queued[..|s.queued|] == s.queued;
    assert s.transcript + EventItems([]) == s.transcript;
  }

  // ----- the invariant of every run -----

  ghost predicate Control(s: State) {
    && (s.snapshotSent <==> s.phase.Live?)
    && (s.snapshotSent <==> s.first.Some?)
    && (s.subscribed <==> !s.cleanedUp)
    && (s.heartbeat ==> s.snapshotSent)
    && |s.tasks| == (if s.reconciling then 1 else 0)
    && (s.reconciling ==> s.snapshotSent)
  }

  ghost predicate Delivery(s: State) {
    && s.version == |s.delivered|
    && s.queued <= s.delivered
    && (!s.snapshotSent ==> s.queued == s.delivered && Events(s.transcript) == [])
    && (s.snapshotSent && s.first.Some? ==>
          Events(s.transcript) == Unseen(s.queued, SnapshotIds(s.first.value)) + s.delivered[|s.queued|..])
  }

  ghost predicate Remembered(s: State) {
    s.snapshotSent ==> s.last == Print(OnScreen(s.transcript))
  }

  /** No snapshot after the first repeats what the stream already showed. */
  ghost predicate NoRedundantSnapshot(t: seq<Item>) {
    forall i :: 0 <= i < |t| && t[i].SnapshotItem? && HasSnapshot(t[..i]) ==>
      !Agrees(OnScreen(t[..i]), t[i].snapshot, t[i].operational)
  }

  ghost predicate Quiescent(s: State) {
    && (!s.snapshotSent ==> !HasSnapshot(s.transcript))
    && (s.snapshotSent ==> HasSnapshot(s.transcript))
    && NoRedundantSnapshot(s.transcript)
  }

  ghost predicate Inv(s: State) {
    Control(s) && Delivery(s) && Remembered(s) && Quiescent(s)
  }

  lemma SnapshotsExtend(t: seq<Item>, item: Item)
    requires NoRedundantSnapshot(t)
    requires item.SnapshotItem? && HasSnapshot(t) ==> !Agrees(OnScreen(t), item.snapshot, item.operational)
    ensures NoRedundantSnapshot(t + [item])
    ensures HasSnapshot(t + [item]) <==> HasSnapshot(t) || item.SnapshotItem?
  {
    var u := t + [item];
    forall i | 0 <= i < |u| ensures i < |t| ==> u[i] == t[i] && u[..i] == t[..i] {
      if i < |t| { assert u[..i] == t[..i]; }
    }
    assert u[..|t|] == t;
    if HasSnapshot(t) {
      var i :| 0 <= i < |t| && t[i].SnapshotItem?;
      assert u[i].SnapshotItem?;
    }
    if item.SnapshotItem? { assert u[|t|].SnapshotItem?; }
  }

  lemma {:induction false} SnapshotsExtendEvents(t: seq<Item>, events: seq<Event>)
    requires NoRedundantSnapshot(t)
    ensures NoRedundantSnapshot(t + EventItems(events))
    ensures HasSnapshot(t + EventItems(events)) <==> HasSnapshot(t)
  {
    if events == [] {
      assert t + EventItems(events) == t;
    } else {
      var init, event := events[..|events| - 1], events[|events| - 1];
      SnapshotsExtendEvents(t, init);
      SnapshotsExtend(t + EventItems(init), EventItem(event));
      SplitLast(t, events);
    }
  }

  lemma GoLiveKeepsInv(s: State, operational: Operational)
    requires Inv(s) && s.phase.AwaitingOperational?
    ensures Inv(GoLive(s, s.phase.snapshot, operational))
  {
    var snapshot := s.phase.snapshot;
    var drained := Unseen(s.queued, SnapshotIds(snapshot));
    var item := SnapshotItem(snapshot, operational);
    var t := GoLive(s, snapshot, operational);
    Extend(s.transcript, item);
    ExtendEvents(s.transcript + [item], drained);
    ExtendScreen(s.transcript + [item], drained);
    SnapshotsExtend(s.transcript, item);
    SnapshotsExtendEvents(s.transcript + [item], drained);
    assert t.delivered[|t.queued|..] == [];
  }

  lemma HubEventKeepsInv(s: State, event: Event)
    requires Inv(s)
    ensures Inv(HubEvent(s, event))
  {
    if s.snapshotSent {
      Extend(s.transcript, EventItem(event));
      SnapshotsExtend(s.transcript, EventItem(event));
      assert (s.delivered + [event])[|s.queued|..] == s.delivered[|s.queued|..] + [event];
    }
  }

  lemma SilentKeepsInv(s: State, t: State, item: Item)
    requires Inv(s) && Control(t) && (item.Retry? || item.Heartbeat?)
    requires t.transcript == s.transcript + [item] || t.transcript == s.transcript
    requires t.snapshotSent == s.snapshotSent && t.version == s.version && t.delivered == s.delivered
    requires t.queued == s.queued && t.first == s.first && t.last == s.last
    ensures Inv(t)
  {
    Extend(s.transcript, item);
    SnapshotsExtend(s.transcript, item);
  }

  lemma FinishTaskKeepsInv(s: State, k: nat, operational: Operational)
    requires Inv(s) && Enabled(s, TaskOperational(k, operational))
    ensures Inv(FinishTask(s, k, operational))
  {
    var item := SnapshotItem(s.tasks[k].snapshot, operational);
    var t := FinishTask(s, k, operational);
    if t.transcript == s.transcript {
      SilentKeepsInv(s, t, Heartbeat);
    } else {
      ComparedIsShown(OnScreen(s.transcript), s.tasks[k].snapshot, operational);
      Extend(s.transcript, item);
      SnapshotsExtend(s.transcript, item);
    }
  }

  lemma StepKeepsInv(s: State, a: Action)
    requires Inv(s) && Enabled(s, a)
    ensures Inv(Step(s, a))
  {
    match a
    case Publish(event) => HubEventKeepsInv(s, event);
    case InitialOperational(operational) => GoLiveKeepsInv(s, operational);
    case TaskOperational(k, operational) => FinishTaskKeepsInv(s, k, operational);
    case InitialRead(_) => SilentKeepsInv(s, Step(s, a), Retry);
    case _ => SilentKeepsInv(s, Step(s, a), Heartbeat);
  }

  lemma {:induction false} RunKeepsInv(store: set<Event>, actions: seq<Action>)
    ensures Inv(After(Init(store), actions))
  {
    if actions == [] {
      assert Events([]) == [];
    } else {
      var init, a := actions[..|actions| - 1], actions[|actions| - 1];
      RunKeepsInv(store, init);
      if Enabled(After(Init(store), init), a) {
        StepKeepsInv(After(Init(store), init), a);
      }
    }
  }

  // ----- theorems about every run -----

  lemma UnlistedElements(queued: seq<Event>, snapshot: Snapshot)
    ensures forall e :: e in Unlisted(queued, snapshot) <==> e in queued && !Lists(snapshot, e.id)
  {
    UnseenIsUnlisted(queued, snapshot);
    UnseenElements(queued, SnapshotIds(snapshot));
  }

  lemma DeliveryOfRun(store: set<Event>, actions: seq<Action>)
    ensures var s := After(Init(store), actions);
            s.snapshotSent ==>
              && s.first.Some? && s.queued <= s.delivered
              && Events(s.transcript) == Unlisted(s.queued, s.first.value) + s.delivered[|s.queued|..]
  {
    var s := After(Init(store), actions);
    RunKeepsInv(store, actions);
    if s.snapshotSent {
      UnseenIsUnlisted(s.queued, s.first.value);
    }
  }

  /**
   Once the first snapshot is out, the events written are exactly the queued ones whose
   ids it lacks followed by everything published since, in publication order; so every
   delivered event was written or is shown by that snapshot.
   */
  lemma EveryDeliveredEventIsShown(store: set<Event>, actions: seq<Action>)
    ensures var s := After(Init(store), actions);
            s.snapshotSent ==>
              && s.first.Some? && s.queued <= s.delivered
              && Events(s.transcript) == Unlisted(s.queued, s.first.value) + s.delivered[|s.queued|..]
              && (forall e :: e in s.delivered ==> e in Events(s.transcript) || Lists(s.first.value, e.id))
  {
    var s := After(Init(store), actions);
    DeliveryOfRun(store, actions);
    if s.snapshotSent {
      UnlistedElements(s.queued, s.first.value);
      assert s.delivered == s.queued + s.delivered[|s.queued|..];
    }
  }

  /**
   Delivery is at least once. An event, also one that the first snapshot reflects, is
   written exactly if it was queued and the snapshot does not list its id, or it was
   published after the snapshot.
   */
  lemma WrittenIff(store: set<Event>, actions: seq<Action>, e: Event)
    requires After(Init(store), actions).snapshotSent
    ensures var s := After(Init(store), actions);
            && s.first.Some? && s.queued <= s.delivered
            && (e in Events(s.transcript) <==>
                  (e in s.queued && !Lists(s.first.value, e.id)) || e in s.delivered[|s.queued|..])
  {
    var s := After(Init(store), actions);
    DeliveryOfRun(store, actions);
    UnlistedElements(s.queued, s.first.value);
  }

  function LastProgress(progress: Option<Id>, events: seq<Event>): Option<Id> {
    if events == [] then progress
    else
      var event := events[|events| - 1];
      if event.Progress? then Some(event.id) else LastProgress(progress, events[..|events| - 1])
  }

  lemma {:induction false} RememberedProgress(last: Fingerprint, events: seq<Event>)
    ensures RememberAll(last, events).progress == LastProgress(last.progress, events)
  {
    if events == [] {
    } else {
      RememberedProgress(last, events[..|events| - 1]);
    }
  }

  /** The k-th queued event is the last progress event whose id is not listed. */
  predicate LastUnlisted(queued: seq<Event>, snapshot: Snapshot, k: int) {
    && 0 <= k < |queued| && queued[k].Progress? && !Lists(snapshot, queued[k].id)
    && forall j :: k < j < |queued| && queued[j].Progress? ==> Lists(snapshot, queued[j].id)
  }

  function LastUnlistedIndex(queued: seq<Event>, snapshot: Snapshot): (k: int)
    ensures -1 <= k < |queued|
  {
    if queued == [] then -1
    else
      var n := |queued| - 1;
      if queued[n].Progress? && !Lists(snapshot, queued[n].id) then n else LastUnlistedIndex(queued[..n], snapshot)
  }

  lemma {:induction false} LastUnlistedIndexIs(queued: seq<Event>, snapshot: Snapshot)
    ensures var k := LastUnlistedIndex(queued, snapshot);
            if k < 0 then forall j :: 0 <= j < |queued| && queued[j].Progress? ==> Lists(snapshot, queued[j].id)
            else LastUnlisted(queued, snapshot, k)
  {
    if queued == [] {
    } else {
      LastUnlistedIndexIs(queued[..|queued| - 1], snapshot);
    }
  }

  lemma {:induction false} LastProgressOfUnseen(progress: Option<Id>, queued: seq<Event>, snapshot: Snapshot)
    ensures var k := LastUnlistedIndex(queued, snapshot);
            LastProgress(progress, Unseen(queued, SnapshotIds(snapshot)))
            == if k < 0 then progress else Some(queued[k].id)
  {
    if queued == [] {
    } else {
      var n, ids := |queued| - 1, SnapshotIds(snapshot);
      LastProgressOfUnseen(progress, queued[..n], snapshot);
      if queued[n].id !in ids {
        assert Unseen(queued, ids)[..|Unseen(queued, ids)| - 1] == Unseen(queued[..n], ids);
      }
    }
  }

  lemma LastUnlistedIsUnique(queued: seq<Event>, snapshot: Snapshot, k: int, m: int)
    requires LastUnlisted(queued, snapshot, k) && LastUnlisted(queued, snapshot, m)
    ensures k == m
  {
  }

  /** What the client shows as progress is reflected by the snapshot and is not its latest. */
  ghost predicate ProgressSetBack(t: seq<Item>, snapshot: Snapshot) {
    exists id ::
      OnScreen(t).progress == Some(id) && Progress(id) in snapshot.basis && snapshot.latestProgress != Some(id)
  }

  /**
   When the stream goes live, the drain leaves the client at the snapshot's progress
   exactly if the snapshot lists every queued progress event. It sets the client back to
   a progress that the snapshot reflects and is past exactly if the last queued progress
   event that the snapshot does not list is one that it reflects.
   */
  lemma ProgressSetBackIff(store: set<Event>, actions: seq<Action>, operational: Operational)
    requires After(Init(store), actions).phase.AwaitingOperational?
    ensures var s := After(Init(store), actions);
            var t, snapshot := Next(s, InitialOperational(operational)).transcript, s.phase.snapshot;
            && (OnScreen(t).progress == snapshot.latestProgress <==>
                  forall j :: 0 <= j < |s.queued| && s.queued[j].Progress? ==> Lists(snapshot, s.queued[j].id))
            && (ProgressSetBack(t, snapshot) <==>
                  exists k :: LastUnlisted(s.queued, snapshot, k) && s.queued[k] in snapshot.basis)
  {
    var s := After(Init(store), actions);
    var snapshot, ids := s.phase.snapshot, SnapshotIds(s.phase.snapshot);
    RunKeepsInv(store, actions);
    GoLiveKeepsInv(s, operational);
    RememberedProgress(Remember(snapshot, operational), Unseen(s.queued, ids));
    LastProgressOfUnseen(snapshot.latestProgress, s.queued, snapshot);
    LastUnlistedIndexIs(s.queued, snapshot);
    if k :| LastUnlisted(s.queued, snapshot, k) {
      forall m | LastUnlisted(s.queued, snapshot, m) ensures m == k {
        LastUnlistedIsUnique(s.queued, snapshot, k, m);
      }
      assert s.queued[k] == Progress(s.queued[k].id);
    }
  }

  /** The lastSent variables are what a reader of the stream has on the screen, and no snapshot repeats it. */
  lemma LastSentIsOnScreen(store: set<Event>, actions: seq<Action>)
    ensures var s := After(Init(store), actions);
            var screen := OnScreen(s.transcript);
            && (s.snapshotSent ==>
                  && s.last.position == screen.position && s.last.progress == screen.progress
                  && s.last.watermark == screen.watermark
                  && forall o :: s.last.operational == Text(o) <==> SameState(screen.state, o))
            && NoRedundantSnapshot(s.transcript)
            && |s.tasks| <= 1
  {
    var s := After(Init(store), actions);
    RunKeepsInv(store, actions);
    forall o ensures Text(OnScreen(s.transcript).state) == Text(o) <==> SameState(OnScreen(s.transcript).state, o) {
      SameTextIffSameState(OnScreen(s.transcript).state, o);
    }
  }

  ghost predicate Opening(s: State) {
    match s.phase
    case Loading(_) => s.transcript == []
    case AwaitingOperational(_) => s.transcript == [Retry]
    case Live =>
      && s.first.Some? && |s.transcript| >= 2 && s.transcript[0] == Retry
      && s.transcript[1].SnapshotItem? && s.transcript[1].snapshot == s.first.value
    case Ended => s.transcript <= [Retry]
  }

  lemma OpeningStep(s: State, a: Action)
    requires Inv(s) && Opening(s)
    ensures Opening(Next(s, a))
  {
  }

  /** In every run the stream opens with the retry interval and the first snapshot, or ends before the latter. */
  lemma {:induction false} StreamOpens(store: set<Event>, actions: seq<Action>)
    ensures Opening(After(Init(store), actions))
  {
    if actions == [] {
    } else {
      var init, a := actions[..|actions| - 1], actions[|actions| - 1];
      StreamOpens(store, init);
      RunKeepsInv(store, init);
      OpeningStep(After(Init(store), init), a);
    }
  }

  /** Every tick is written, and starts one read at a time of what is stored by then. */
  lemma TickIsWritten(s: State)
    requires s.heartbeat
    ensures var t := Next(s, Tick);
            && t.transcript == s.transcript + [Heartbeat]
            && t.tasks == if s.cleanedUp || s.reconciling then s.tasks
                          else s.tasks + [ReadingSnapshot(s.version, s.store)]
  {
  }

  /** An environment step that changes nothing on this screen. */
  predicate Unchanging(screen: Screen, a: Action) {
    match a
    case Publish(_) => false
    case TaskSnapshot(_, snapshot) =>
      && snapshot.latestPosition == screen.position && snapshot.latestProgress == screen.progress
      && snapshot.watermark == screen.watermark
    case TaskOperational(_, operational) => SameState(screen.state, operational)
    case _ => true
  }

  ghost predicate TasksMatch(s: State) {
    forall k :: 0 <= k < |s.tasks| && s.tasks[k].ReadingOperational? ==>
      Unchanging(OnScreen(s.transcript), TaskSnapshot(k, s.tasks[k].snapshot))
  }

  lemma QuietFinish(s: State, k: nat, operational: Operational)
    requires Inv(s) && TasksMatch(s) && Enabled(s, TaskOperational(k, operational))
    requires SameState(OnScreen(s.transcript).state, operational)
    ensures FinishTask(s, k, operational) == DropTask(s, k) && DropTask(s, k).tasks == []
  {
    assert Unchanging(OnScreen(s.transcript), TaskSnapshot(k, s.tasks[k].snapshot));
    ComparedIsShown(OnScreen(s.transcript), s.tasks[k].snapshot, operational);
  }

  /** Nothing but keep-alive comments was written. */
  ghost predicate Quiet(s: State, t: State) {
    Shown(t.transcript) == Shown(s.transcript) && OnScreen(t.transcript) == OnScreen(s.transcript)
  }

  lemma QuietStep(s: State, a: Action)
    requires Inv(s) && s.snapshotSent && TasksMatch(s) && Unchanging(OnScreen(s.transcript), a)
    ensures var t := Next(s, a);
            Quiet(s, t) && TasksMatch(t) && Inv(t) && t.snapshotSent
  {
    if Enabled(s, a) {
      StepKeepsInv(s, a);
      if a.Tick? {
        Extend(s.transcript, Heartbeat);
      } else if a.TaskOperational? {
        QuietFinish(s, a.task, a.operational);
      }
    }
  }

  /** On a quiet route the stream shows nothing further, however often the heartbeat fires. */
  lemma {:induction false} QuietRouteStaysSilent(s: State, actions: seq<Action>)
    requires Inv(s) && s.snapshotSent && TasksMatch(s)
    requires forall a :: a in actions ==> Unchanging(OnScreen(s.transcript), a)
    ensures var t := After(s, actions);
            Quiet(s, t) && TasksMatch(t) && Inv(t) && t.snapshotSent
  {
    if actions == [] {
    } else {
      var init, a := actions[..|actions| - 1], actions[|actions| - 1];
      QuietRouteStaysSilent(s, init);
      assert a in actions;
      QuietStep(After(s, init), a);
    }
  }

  /** After cleanup a stream that went live, or never will, shows nothing further. */
  lemma {:induction false} CleanedUpStreamIsSilent(s: State, actions: seq<Action>)
    requires Inv(s) && s.cleanedUp && (s.phase.Live? || s.phase.Ended?)
    ensures var t := After(s, actions);
            && Shown(t.transcript) == Shown(s.transcript)
            && Inv(t) && t.cleanedUp && t.phase == s.phase
  {
    if actions == [] {
    } else {
      var init, a := actions[..|actions| - 1], actions[|actions| - 1];
      CleanedUpStreamIsSilent(s, init);
      var t := After(s, init);
      if Enabled(t, a) {
        StepKeepsInv(t, a);
        Extend(t.transcript, Heartbeat);
      }
    }
  }

  function Snapshots(t: seq<Item>): nat {
    if t == [] then 0 else Snapshots(t[..|t| - 1]) + if t[|t| - 1].SnapshotItem? then 1 else 0
  }

  lemma SnapshotsMore(t: seq<Item>, item: Item)
    ensures Snapshots(t + [item]) == Snapshots(t) + if item.SnapshotItem? then 1 else 0
  {
    assert (t + [item])[..|t|] == t;
  }

  lemma DestroyedStep(s: State, a: Action)
    requires s.destroyed && !s.phase.AwaitingOperational?
    ensures var t := Next(s, a);
            Snapshots(t.transcript) == Snapshots(s.transcript) && t.destroyed && !t.phase.AwaitingOperational?
  {
    SnapshotsMore(s.transcript, Heartbeat);
    if a.Publish? { SnapshotsMore(s.transcript, EventItem(a.event)); }
  }

  /** Once the connection is destroyed no further snapshot is sent, before going live or after. */
  lemma {:induction false} DestroyedStreamSendsNoSnapshot(s: State, actions: seq<Action>)
    requires s.destroyed && !s.phase.AwaitingOperational?
    ensures var t := After(s, actions);
            Snapshots(t.transcript) == Snapshots(s.transcript) && t.destroyed && !t.phase.AwaitingOperational?
  {
    if actions == [] {
    } else {
      var init, a := actions[..|actions| - 1], actions[|actions| - 1];
      DestroyedStreamSendsNoSnapshot(s, init);
      DestroyedStep(After(s, init), a);
    }
  }

  // ----- the subscription -----

  predicate OperationalReadFails(s: State, a: Action) {
    a.InitialOperationalFails? && s.phase.AwaitingOperational?
  }

  /** Somewhere in the run an action is taken in a state as described. */
  predicate Happens(store: set<Event>, actions: seq<Action>, what: (State, Action) -> bool) {
    && actions != []
    && var init := actions[..|actions| - 1];
       Happens(store, init, what) || what(After(Init(store), init), actions[|actions| - 1])
  }

  lemma RunKeepsControl(store: set<Event>, actions: seq<Action>)
    ensures Control(After(Init(store), actions))
  {
    RunKeepsInv(store, actions);
  }

  lemma EndedStep(s: State, a: Action)
    requires Control(s)
    ensures var t := Next(s, a);
            && (t.subscribed ==> s.subscribed)
            && (t.phase.Ended? && t.subscribed <==>
                  t.subscribed && ((s.phase.Ended? && s.subscribed) || OperationalReadFails(s, a)))
  {
  }

  /**
   A handler that gave up before the first snapshot still listens to the hub exactly if
   it was the operational state that could not be read, until the client closes.
   */
  lemma {:induction false} EndedButSubscribedIff(store: set<Event>, actions: seq<Action>)
    ensures var s := After(Init(store), actions);
            && (s.subscribed <==> !s.cleanedUp)
            && (s.phase.Ended? && s.subscribed <==> s.subscribed && Happens(store, actions, OperationalReadFails))
  {
    RunKeepsControl(store, actions);
    if actions == [] {
    } else {
      var init, a := actions[..|actions| - 1], actions[|actions| - 1];
      EndedButSubscribedIff(store, init);
      RunKeepsControl(store, init);
      EndedStep(After(Init(store), init), a);
    }
  }

  /** A failing read of the operational state leaves the ended handler subscribed. */
  lemma SubscriptionLeakWitness(store: set<Event>, snapshot: Snapshot)
    ensures var s := After(Init(store), [InitialRead(snapshot), InitialOperationalFails]);
            s.phase.Ended? && s.subscribed && !s.cleanedUp
  {
    var run := [InitialRead(snapshot), InitialOperationalFails];
    assert run[..1][..0] == [];
    assert After(Init(store), run[..1]) == Next(Init(store), InitialRead(snapshot));
  }

  // ----- the heartbeat timer -----

  /** Cleanup ran while the snapshot or the operational state was still being read; the code does not look again. */
  predicate ClosedBeforeSnapshot(s: State, a: Action) {
    a.InitialOperational? && s.phase.AwaitingOperational? && s.cleanedUp
  }

  lemma TimerStep(s: State, a: Action)
    requires Control(s)
    ensures Next(s, a).heartbeat && Next(s, a).cleanedUp
            <==> (s.heartbeat && s.cleanedUp) || ClosedBeforeSnapshot(s, a)
  {
  }

  /** The timer outlives cleanup in exactly the runs where cleanup came before the first snapshot was written. */
  lemma {:induction false} TimerOutlivesCleanupIff(store: set<Event>, actions: seq<Action>)
    ensures var s := After(Init(store), actions);
            s.heartbeat && s.cleanedUp <==> Happens(store, actions, ClosedBeforeSnapshot)
  {
    if actions == [] {
    } else {
      var init, a := actions[..|actions| - 1], actions[|actions| - 1];
      TimerOutlivesCleanupIff(store, init);
      RunKeepsControl(store, init);
      TimerStep(After(Init(store), init), a);
    }
  }

  lemma LeaksAfter(store: set<Event>, snapshot: Snapshot, a: Action, b: Action)
    requires (a == Close && b == InitialRead(snapshot)) || (a == InitialRead(snapshot) && b == Close)
    ensures var s := After(Init(store), [a, b, InitialOperational(Undefined)]);
            s.heartbeat && s.cleanedUp && !s.subscribed
  {
    var run := [a, b, InitialOperational(Undefined)];
    assert run[..2][..1] == run[..1] && run[..1][..0] == [];
    assert After(Init(store), run[..1]) == Next(Init(store), a);
    assert After(Init(store), run[..2]) == Next(Next(Init(store), a), b);
  }

  /** The client closes during the second read, or the reply reports an error, not yet destroyed, during the first. */
  lemma TimerLeakWitness(store: set<Event>, snapshot: Snapshot)
    ensures var s := After(Init(store), [InitialRead(snapshot), Close, InitialOperational(Undefined)]);
            s.heartbeat && s.cleanedUp && !s.subscribed
    ensures var s := After(Init(store), [Close, InitialRead(snapshot), InitialOperational(Undefined)]);
            s.heartbeat && s.cleanedUp && !s.subscribed
  {
    LeaksAfter(store, snapshot, InitialRead(snapshot), Close);
    LeaksAfter(store, snapshot, Close, InitialRead(snapshot));
  }

  // ----- freshness -----

  /**
   What the design relies on: an event is stored before it is published, and a read
   reflects at least what was stored when it began and nothing that is not stored yet.
   */
  ghost predicate Honest(s: State, a: Action) {
    match a
    case Publish(event) => event in s.store
    case InitialRead(snapshot) => s.phase.Loading? ==> s.phase.since <= snapshot.basis <= s.store
    case TaskSnapshot(k, snapshot) =>
      k < |s.tasks| && s.tasks[k].ReadingSnapshot? ==> s.tasks[k].since <= snapshot.basis <= s.store
    case _ => true
  }

  ghost predicate HonestRun(store: set<Event>, actions: seq<Action>) {
    forall k :: 0 <= k < |actions| ==> Honest(After(Init(store), actions[..k]), actions[k])
  }

  ghost predicate TaskFresh(s: State, task: Task) {
    && task.version <= s.version
    && match task
       case ReadingSnapshot(version, since) =>
         since <= s.store && (version == s.version ==> Known(s.transcript) <= since)
       case ReadingOperational(version, since, snapshot) =>
         since <= snapshot.basis <= s.store && (version == s.version ==> Known(s.transcript) <= snapshot.basis)
  }

  /** Every snapshot of the stream reflects everything written before it. */
  ghost predicate NeverBackwards(t: seq<Item>) {
    forall i :: 0 <= i < |t| && t[i].SnapshotItem? ==> Known(t[..i]) <= t[i].snapshot.basis
  }

  ghost predicate Fresh(s: State) {
    && Known(s.transcript) <= s.store
    && (forall e :: e in s.delivered ==> e in s.store)
    && (s.phase.AwaitingOperational? ==> s.phase.snapshot.basis <= s.store)
    && (!s.snapshotSent ==> Known(s.transcript) == {})
    && (forall k :: 0 <= k < |s.tasks| ==> TaskFresh(s, s.tasks[k]))
    && NeverBackwards(s.transcript)
  }

  lemma NeverBackwardsExtend(t: seq<Item>, item: Item)
    requires NeverBackwards(t) && (item.SnapshotItem? ==> Known(t) <= item.snapshot.basis)
    ensures NeverBackwards(t + [item])
  {
    var u := t + [item];
    forall i | 0 <= i < |u| && u[i].SnapshotItem? ensures Known(u[..i]) <= u[i].snapshot.basis {
      assert u[..i] == t[..i];
      assert i == |t| ==> t[..i] == t;
    }
  }

  lemma {:induction false} NeverBackwardsExtendEvents(t: seq<Item>, events: seq<Event>)
    requires NeverBackwards(t)
    ensures NeverBackwards(t + EventItems(events))
  {
    if events == [] {
      assert t + EventItems(events) == t;
    } else {
      NeverBackwardsExtendEvents(t, events[..|events| - 1]);
      NeverBackwardsExtend(t + EventItems(events[..|events| - 1]), EventItem(events[|events| - 1]));
      SplitLast(t, events);
    }
  }

  lemma GoLiveKeepsFresh(s: State, operational: Operational)
    requires Inv(s) && Fresh(s) && s.phase.AwaitingOperational?
    ensures Fresh(GoLive(s, s.phase.snapshot, operational))
  {
    var drained := Unseen(s.queued, SnapshotIds(s.phase.snapshot));
    var item := SnapshotItem(s.phase.snapshot, operational);
    Extend(s.transcript, item);
    NeverBackwardsExtend(s.transcript, item);
    NeverBackwardsExtendEvents(s.transcript + [item], drained);
    UnseenElements(s.queued, SnapshotIds(s.phase.snapshot));
    ExtendKnown(s.transcript + [item], drained, s.store);
  }

  /** A newer version leaves every running reconciliation to be discarded. */
  lemma OutdatedTaskIsFresh(s: State, t: State, task: Task)
    requires TaskFresh(s, task) && t.version > s.version && t.store == s.store
    ensures TaskFresh(t, task)
  {
  }

  lemma HubEventKeepsFresh(s: State, event: Event)
    requires Inv(s) && Fresh(s) && event in s.store
    ensures Fresh(HubEvent(s, event))
  {
    var t := HubEvent(s, event);
    assert t.tasks == s.tasks && t.version == s.version + 1 && t.store == s.store;
    forall k | 0 <= k < |t.tasks| ensures TaskFresh(t, t.tasks[k]) {
      OutdatedTaskIsFresh(s, t, s.tasks[k]);
    }
    if s.snapshotSent {
      Extend(s.transcript, EventItem(event));
      NeverBackwardsExtend(s.transcript, EventItem(event));
    }
  }

  lemma BeatKeepsFresh(s: State)
    requires Fresh(s)
    ensures Fresh(Beat(s))
  {
    Extend(s.transcript, Heartbeat);
    NeverBackwardsExtend(s.transcript, Heartbeat);
    var t := Beat(s);
    forall k | 0 <= k < |t.tasks| ensures TaskFresh(t, t.tasks[k]) {
      if k < |s.tasks| { assert TaskFresh(s, s.tasks[k]); }
    }
  }

  lemma FinishTaskKeepsFresh(s: State, k: nat, operational: Operational)
    requires Inv(s) && Fresh(s) && Enabled(s, TaskOperational(k, operational))
    ensures Fresh(FinishTask(s, k, operational))
  {
    var task := s.tasks[k];
    assert TaskFresh(s, task);
    assert FinishTask(s, k, operational).tasks == [];
    if task.version == s.version {
      Extend(s.transcript, SnapshotItem(task.snapshot, operational));
      NeverBackwardsExtend(s.transcript, SnapshotItem(task.snapshot, operational));
    }
  }

  lemma TaskSnapshotKeepsFresh(s: State, k: nat, snapshot: Snapshot)
    requires Inv(s) && Fresh(s) && Enabled(s, TaskSnapshot(k, snapshot)) && Honest(s, TaskSnapshot(k, snapshot))
    ensures Fresh(Step(s, TaskSnapshot(k, snapshot)))
  {
    assert TaskFresh(s, s.tasks[k]);
  }

  lemma StoreKeepsFresh(s: State, event: Event)
    requires Inv(s) && Fresh(s)
    ensures Fresh(Step(s, Store(event)))
  {
    var t := Step(s, Store(event));
    forall k | 0 <= k < |t.tasks| ensures TaskFresh(t, t.tasks[k]) {
      assert TaskFresh(s, s.tasks[k]);
    }
  }

  lemma InitialReadKeepsFresh(s: State, snapshot: Snapshot)
    requires Inv(s) && Fresh(s) && Enabled(s, InitialRead(snapshot)) && Honest(s, InitialRead(snapshot))
    ensures Fresh(Step(s, InitialRead(snapshot)))
  {
    Extend(s.transcript, Retry);
    NeverBackwardsExtend(s.transcript, Retry);
  }

  lemma StepKeepsFresh(s: State, a: Action)
    requires Inv(s) && Fresh(s) && Enabled(s, a) && Honest(s, a)
    ensures Fresh(Step(s, a))
  {
    match a
    case Store(event) => StoreKeepsFresh(s, event);
    case Publish(event) => HubEventKeepsFresh(s, event);
    case InitialRead(snapshot) => InitialReadKeepsFresh(s, snapshot);
    case InitialOperational(operational) => GoLiveKeepsFresh(s, operational);
    case Tick => BeatKeepsFresh(s);
    case TaskSnapshot(k, snapshot) => TaskSnapshotKeepsFresh(s, k, snapshot);
    case TaskOperational(k, operational) => FinishTaskKeepsFresh(s, k, operational);
    case _ =>
  }

  /** In every honest run no snapshot takes the client back behind anything it was sent. */
  lemma {:induction false} SnapshotsNeverGoBackwards(store: set<Event>, actions: seq<Action>)
    requires HonestRun(store, actions)
    ensures Fresh(After(Init(store), actions))
    ensures NeverBackwards(After(Init(store), actions).transcript)
  {
    if actions == [] {
    } else {
      var n := |actions| - 1;
      var init, a := actions[..n], actions[n];
      assert forall k :: 0 <= k <= n ==> init[..k] == actions[..k];
      SnapshotsNeverGoBackwards(store, init);
      RunKeepsInv(store, init);
      if Enabled(After(Init(store), init), a) {
        StepKeepsFresh(After(Init(store), init), a);
      }
    }
  }

  // ----- what the client shows never goes back at a snapshot -----

  type EventOrder = (Event, Event) -> bool

  ghost predicate ShowsLatestPosition(leq: EventOrder, snapshot: Snapshot) {
    match snapshot.latestPosition
    case None => forall e :: e in snapshot.basis ==> !e.Position?
    case Some(id) => Position(id) in snapshot.basis
                     && forall e :: e in snapshot.basis && e.Position? ==> leq(e, Position(id))
  }

  ghost predicate ShowsLatestProgress(leq: EventOrder, snapshot: Snapshot) {
    match snapshot.latestProgress
    case None => forall e :: e in snapshot.basis ==> !e.Progress?
    case Some(id) => Progress(id) in snapshot.basis
                     && forall e :: e in snapshot.basis && e.Progress? ==> leq(e, Progress(id))
  }

  /** The snapshot's position and progress are the latest of the events it reflects. */
  ghost predicate ShowsLatest(leq: EventOrder, snapshot: Snapshot) {
    ShowsLatestPosition(leq, snapshot) && ShowsLatestProgress(leq, snapshot)
  }

  ghost predicate ReadsLatest(leq: EventOrder, a: Action) {
    match a
    case InitialRead(snapshot) => ShowsLatest(leq, snapshot)
    case TaskSnapshot(_, snapshot) => ShowsLatest(leq, snapshot)
    case _ => true
  }

  ghost predicate SnapshotsShowLatest(leq: EventOrder, t: seq<Item>) {
    forall i :: 0 <= i < |t| && t[i].SnapshotItem? ==> ShowsLatest(leq, t[i].snapshot)
  }

  /** Every snapshot that is held or was written shows the latest of its events. */
  ghost predicate AllShowLatest(leq: EventOrder, s: State) {
    && (s.phase.AwaitingOperational? ==> ShowsLatest(leq, s.phase.snapshot))
    && (forall k :: 0 <= k < |s.tasks| && s.tasks[k].ReadingOperational? ==> ShowsLatest(leq, s.tasks[k].snapshot))
    && SnapshotsShowLatest(leq, s.transcript)
  }

  lemma GoLiveShowsLatest(leq: EventOrder, s: State, operational: Operational)
    requires AllShowLatest(leq, s) && s.phase.AwaitingOperational?
    ensures AllShowLatest(leq, GoLive(s, s.phase.snapshot, operational))
  {
    var item := SnapshotItem(s.phase.snapshot, operational);
    assert SnapshotsShowLatest(leq, s.transcript + [item]);
  }

  lemma FinishTaskShowsLatest(leq: EventOrder, s: State, k: nat, operational: Operational)
    requires AllShowLatest(leq, s) && Enabled(s, TaskOperational(k, operational))
    ensures AllShowLatest(leq, FinishTask(s, k, operational))
  {
    assert ShowsLatest(leq, s.tasks[k].snapshot);
  }

  lemma StepShowsLatest(leq: EventOrder, s: State, a: Action)
    requires AllShowLatest(leq, s) && Enabled(s, a) && ReadsLatest(leq, a)
    ensures AllShowLatest(leq, Step(s, a))
  {
    match a
    case InitialOperational(operational) => GoLiveShowsLatest(leq, s, operational);
    case TaskOperational(k, operational) => FinishTaskShowsLatest(leq, s, k, operational);
    case _ =>
  }

  lemma {:induction false} RunShowsLatest(leq: EventOrder, store: set<Event>, actions: seq<Action>)
    requires forall a :: a in actions ==> ReadsLatest(leq, a)
    ensures AllShowLatest(leq, After(Init(store), actions))
  {
    if actions == [] {
    } else {
      var init, a := actions[..|actions| - 1], actions[|actions| - 1];
      assert a in actions;
      RunShowsLatest(leq, store, init);
      if Enabled(After(Init(store), init), a) {
        StepShowsLatest(leq, After(Init(store), init), a);
      }
    }
  }

  /** What the client shows is something it knows. */
  lemma {:induction false} ShownIsKnown(leq: EventOrder, t: seq<Item>)
    requires SnapshotsShowLatest(leq, t)
    ensures var shown := OnScreen(t);
            && (shown.position.Some? ==> Position(shown.position.value) in Known(t))
            && (shown.progress.Some? ==> Progress(shown.progress.value) in Known(t))
  {
    if t == [] {
    } else {
      ShownIsKnown(leq, t[..|t| - 1]);
      if t[|t| - 1].SnapshotItem? { assert ShowsLatest(leq, t[|t| - 1].snapshot); }
    }
  }

  /** The snapshot shows a position and a progress that are not before those shown. */
  ghost predicate NotBehind(leq: EventOrder, shown: Screen, snapshot: Snapshot) {
    && (shown.position.Some? ==>
          snapshot.latestPosition.Some? && leq(Position(shown.position.value), Position(snapshot.latestPosition.value)))
    && (shown.progress.Some? ==>
          snapshot.latestProgress.Some? && leq(Progress(shown.progress.value), Progress(snapshot.latestProgress.value)))
  }

  /**
   In every honest run whose reads show the latest position and progress they reflect, in
   whatever order, no snapshot takes the position or the progress on the client's screen
   back.
   */
  lemma ScreenNeverGoesBack(leq: EventOrder, store: set<Event>, actions: seq<Action>)
    requires HonestRun(store, actions) && forall a :: a in actions ==> ReadsLatest(leq, a)
    ensures var t := After(Init(store), actions).transcript;
            forall i :: 0 <= i < |t| && t[i].SnapshotItem? ==> NotBehind(leq, OnScreen(t[..i]), t[i].snapshot)
  {
    var t := After(Init(store), actions).transcript;
    SnapshotsNeverGoBackwards(store, actions);
    RunShowsLatest(leq, store, actions);
    forall i | 0 <= i < |t| && t[i].SnapshotItem? ensures NotBehind(leq, OnScreen(t[..i]), t[i].snapshot) {
      ShownIsKnown(leq, t[..i]);
      assert ShowsLatest(leq, t[i].snapshot);
    }
  }

  // ----- reconciliation repairs -----

  /**
   A reconciliation that finishes without being discarded writes what was read exactly
   if the screen does not show it yet; then the screen does.
   */
  lemma ReconciliationWrites(store: set<Event>, actions: seq<Action>, k: nat, operational: Operational)
    requires Enabled(After(Init(store), actions), TaskOperational(k, operational))
    requires var s := After(Init(store), actions); s.tasks[k].version == s.version && !s.cleanedUp && !s.destroyed
    ensures var s := After(Init(store), actions);
            var t, read := Next(s, TaskOperational(k, operational)), s.tasks[k].snapshot;
            && t.transcript == (if Agrees(OnScreen(s.transcript), read, operational) then s.transcript
                                else s.transcript + [SnapshotItem(read, operational)])
            && Agrees(OnScreen(t.transcript), read, operational)
  {
    var s := After(Init(store), actions);
    RunKeepsInv(store, actions);
    ComparedIsShown(OnScreen(s.transcript), s.tasks[k].snapshot, operational);
    Extend(s.transcript, SnapshotItem(s.tasks[k].snapshot, operational));
  }

  /**
   In an honest run that read reflects everything stored when it began and everything
   written before, and the client knows all of it exactly if the read was written or it
   knew before.
   */
  lemma ReconciliationRepairs(store: set<Event>, actions: seq<Action>, k: nat, operational: Operational)
    requires HonestRun(store, actions) && Enabled(After(Init(store), actions), TaskOperational(k, operational))
    requires var s := After(Init(store), actions); s.tasks[k].version == s.version && !s.cleanedUp && !s.destroyed
    ensures var s := After(Init(store), actions);
            var t, read := Next(s, TaskOperational(k, operational)), s.tasks[k];
            && Agrees(OnScreen(t.transcript), read.snapshot, operational)
            && read.since + Known(s.transcript) <= read.snapshot.basis
            && (read.since <= Known(t.transcript) <==>
                  || !Agrees(OnScreen(s.transcript), read.snapshot, operational)
                  || read.since <= Known(s.transcript))
  {
    var s := After(Init(store), actions);
    SnapshotsNeverGoBackwards(store, actions);
    ReconciliationWrites(store, actions, k, operational);
    assert TaskFresh(s, s.tasks[k]);
    Extend(s.transcript, SnapshotItem(s.tasks[k].snapshot, operational));
  }

  lemma AfterLast(s: State, actions: seq<Action>, a: Action)
    ensures After(s, actions + [a]) == Next(After(s, actions), a)
  {
    assert (actions + [a])[..|actions|] == actions;
  }

  /** After a heartbeat and the answer of its first read, the second read is under way. */
  lemma HeartbeatReads(s: State, snapshot: Snapshot)
    requires Control(s) && s.heartbeat && !s.cleanedUp && !s.destroyed && !s.reconciling
    ensures var u := Next(Next(s, Tick), TaskSnapshot(0, snapshot));
            && u.tasks == [ReadingOperational(s.version, s.store, snapshot)]
            && u.version == s.version && !u.cleanedUp && !u.destroyed
            && u.transcript == s.transcript + [Heartbeat]
  {
  }

  /** However a reconciliation ends, the next heartbeat can start another; a failed one writes nothing. */
  lemma EndedReadFreesTheSlot(store: set<Event>, actions: seq<Action>, a: Action)
    requires Enabled(After(Init(store), actions), a) && (a.TaskOperational? || a.TaskFails?)
    ensures var s := After(Init(store), actions);
            var t := Next(s, a);
            t.tasks == [] && !t.reconciling && (a.TaskFails? ==> t.transcript == s.transcript && t.last == s.last)
  {
    RunKeepsControl(store, actions);
  }

  /**
   On a live stream a heartbeat is written, and if nothing is reconciling it starts a
   read whose two answers bring the client to what is read, whatever it showed before.
   */
  lemma HeartbeatRepairs(store: set<Event>, actions: seq<Action>, snapshot: Snapshot, operational: Operational)
    requires var s := After(Init(store), actions); s.heartbeat && !s.cleanedUp && !s.destroyed && !s.reconciling
    ensures var s := After(Init(store), actions);
            var u := Next(Next(s, Tick), TaskSnapshot(0, snapshot));
            var t := Next(u, TaskOperational(0, operational));
            && u.transcript == s.transcript + [Heartbeat]
            && t.transcript == (if Agrees(OnScreen(s.transcript), snapshot, operational) then u.transcript
                                else u.transcript + [SnapshotItem(snapshot, operational)])
            && Agrees(OnScreen(t.transcript), snapshot, operational) && !t.reconciling
  {
    var s, a, b := After(Init(store), actions), Tick, TaskSnapshot(0, snapshot);
    RunKeepsControl(store, actions);
    HeartbeatReads(s, snapshot);
    Extend(s.transcript, Heartbeat);
    AfterLast(Init(store), actions, a);
    AfterLast(Init(store), actions + [a], b);
    ReconciliationWrites(store, actions + [a] + [b], 0, operational);
    EndedReadFreesTheSlot(store, actions + [a] + [b], TaskOperational(0, operational));
  }

  // ----- the first snapshot -----

  /** What was stored when the client connected is reflected by the first snapshot, as soon as it is read. */
  ghost predicate FirstReadIsFresh(store: set<Event>, s: State) {
    match s.phase
    case Loading(since) => since == store
    case AwaitingOperational(snapshot) => store <= snapshot.basis
    case Live => s.first.Some? && store <= s.first.value.basis && store <= Known(s.transcript)
    case Ended => true
  }

  lemma {:induction false} KnownGrows(t: seq<Item>, more: seq<Item>)
    ensures Known(t) <= Known(t + more)
  {
    if more == [] {
      assert t + more == t;
    } else {
      var init, item := more[..|more| - 1], more[|more| - 1];
      KnownGrows(t, init);
      Extend(t + init, item);
      assert t + more == t + init + [item];
    }
  }

  lemma GoLiveIsFresh(store: set<Event>, s: State, operational: Operational)
    requires s.phase.AwaitingOperational? && store <= s.phase.snapshot.basis
    ensures FirstReadIsFresh(store, GoLive(s, s.phase.snapshot, operational))
  {
    var item := SnapshotItem(s.phase.snapshot, operational);
    Extend(s.transcript, item);
    KnownGrows(s.transcript + [item], EventItems(Unseen(s.queued, SnapshotIds(s.phase.snapshot))));
  }

  lemma LiveStepIsFresh(store: set<Event>, s: State, a: Action)
    requires s.phase.Live? && FirstReadIsFresh(store, s) && Enabled(s, a)
    ensures FirstReadIsFresh(store, Step(s, a))
  {
    match a
    case Publish(event) => Extend(s.transcript, EventItem(event));
    case Tick => Extend(s.transcript, Heartbeat);
    case TaskOperational(k, operational) => Extend(s.transcript, SnapshotItem(s.tasks[k].snapshot, operational));
    case _ =>
  }

  lemma EarlyStepIsFresh(store: set<Event>, s: State, a: Action)
    requires FirstReadIsFresh(store, s) && Enabled(s, a) && Honest(s, a) && !a.InitialOperational? && !s.phase.Live?
    ensures FirstReadIsFresh(store, Step(s, a))
  {
  }

  /** In every honest run the first snapshot reflects, and the client knows, all that was stored when it connected. */
  lemma {:induction false} FirstSnapshotReflectsTheStore(store: set<Event>, actions: seq<Action>)
    requires HonestRun(store, actions)
    ensures FirstReadIsFresh(store, After(Init(store), actions))
  {
    if actions == [] {
    } else {
      var n := |actions| - 1;
      var init, a := actions[..n], actions[n];
      var s := After(Init(store), init);
      assert forall k :: 0 <= k <= n ==> init[..k] == actions[..k];
      FirstSnapshotReflectsTheStore(store, init);
      if Enabled(s, a) {
        if a.InitialOperational? {
          GoLiveIsFresh(store, s, a.operational);
        } else {
          if s.phase.Live? { LiveStepIsFresh(store, s, a); } else { EarlyStepIsFresh(store, s, a); }
        }
      }
    }
  }

  /** A run goes through the given states if each action leads from one to the next. */
  lemma {:induction false} RunThrough(states: seq<State>, run: seq<Action>, k: nat)
    requires k <= |run| && |states| == |run| + 1
    requires forall i :: 0 <= i < |run| ==> Next(states[i], run[i]) == states[i + 1]
    ensures After(states[0], run[..k]) == states[k]
  {
    if k == 0 {
    } else {
      RunThrough(states, run, k - 1);
      assert run[..k][..k - 1] == run[..k - 1];
    }
  }

  /** A read that lists these positions, the latest of which is x. */
  function LatestIs(x: Id, positions: seq<Id>): Snapshot {
    Snapshot(Some(x), None, None, positions, set id | id in positions :: Position(id))
  }

  /** While the stream is live a position is stored that occurred before the latest one. */
  function LatePositionRun(x: Id, late: Id): seq<Action> {
    [InitialRead(LatestIs(x, [x])), InitialOperational(Undefined), Store(Position(late)), Tick,
     TaskSnapshot(0, LatestIs(x, [late, x])), TaskOperational(0, Undefined)]
  }

  function LatePositionStates(x: Id, late: Id): seq<State> {
    var store, more := {Position(x)}, {Position(x), Position(late)};
    var s1 := Init(store).(phase := AwaitingOperational(LatestIs(x, [x])), transcript := [Retry]);
    var s2 := GoLive(s1, LatestIs(x, [x]), Undefined);
    var s3 := s2.(store := more);
    var s4 := s3.(transcript := s2.transcript + [Heartbeat], reconciling := true,
                  tasks := [ReadingSnapshot(0, more)]);
    var s5 := s4.(tasks := [ReadingOperational(0, more, LatestIs(x, [late, x]))]);
    [Init(store), s1, s2, s3, s4, s5, s5.(tasks := [], reconciling := false)]
  }

  lemma LatestIsBasis(x: Id, late: Id)
    ensures LatestIs(x, [x]).basis == {Position(x)} && LatestIs(x, [late, x]).basis == {Position(x), Position(late)}
  {
  }

  lemma LatePositionBegins(x: Id, late: Id, i: nat)
    requires i < 3
    ensures Next(LatePositionStates(x, late)[i], LatePositionRun(x, late)[i]) == LatePositionStates(x, late)[i + 1]
  {
  }

  lemma LatePositionGoes(x: Id, late: Id, i: nat)
    requires 3 <= i < 6
    ensures Next(LatePositionStates(x, late)[i], LatePositionRun(x, late)[i]) == LatePositionStates(x, late)[i + 1]
  {
  }

  lemma LatePositionStep(x: Id, late: Id, i: nat)
    requires i < 6
    ensures Next(LatePositionStates(x, late)[i], LatePositionRun(x, late)[i]) == LatePositionStates(x, late)[i + 1]
  {
    if i < 3 { LatePositionBegins(x, late, i); } else { LatePositionGoes(x, late, i); }
  }

  lemma LatePositionRunIsHonest(x: Id, late: Id)
    ensures HonestRun({Position(x)}, LatePositionRun(x, late))
    ensures After(Init({Position(x)}), LatePositionRun(x, late)) == LatePositionStates(x, late)[6]
    ensures After(Init({Position(x)}), LatePositionRun(x, late)[..5]) == LatePositionStates(x, late)[5]
  {
    var states, run := LatePositionStates(x, late), LatePositionRun(x, late);
    LatestIsBasis(x, late);
    forall i | 0 <= i < 6 ensures Next(states[i], run[i]) == states[i + 1] {
      LatePositionStep(x, late, i);
    }
    forall k | 0 <= k < |run| ensures Honest(After(Init({Position(x)}), run[..k]), run[k]) {
      RunThrough(states, run, k);
    }
    RunThrough(states, run, 5);
    RunThrough(states, run, 6);
    assert run[..6] == run;
  }

  lemma KnownOfThree(snapshot: Snapshot)
    ensures Known([Retry, SnapshotItem(snapshot, Undefined), Heartbeat]) == snapshot.basis
  {
    var item := SnapshotItem(snapshot, Undefined);
    assert [Retry, item, Heartbeat] == [Retry] + [item] + [Heartbeat] && [] + [Retry] == [Retry];
    Extend([], Retry);
    Extend([Retry], item);
    Extend([Retry] + [item], Heartbeat);
  }

  lemma LatePositionTranscript(x: Id, late: Id)
    ensures Known(LatePositionStates(x, late)[6].transcript) == {Position(x)}
  {
    var snapshot := LatestIs(x, [x]);
    KnownOfThree(snapshot);
    LatestIsBasis(x, late);
    assert Unseen([], SnapshotIds(snapshot)) == [];
    assert LatePositionStates(x, late)[6].transcript == [Retry, SnapshotItem(snapshot, Undefined), Heartbeat];
  }

  lemma LatePositionIsRead(x: Id, late: Id, leq: EventOrder)
    requires leq(Position(late), Position(x)) && leq(Position(x), Position(x))
    ensures forall a :: a in LatePositionRun(x, late) ==> ReadsLatest(leq, a)
  {
    LatestIsBasis(x, late);
  }

  /**
   In an honest run a position arrives late. The read that follows lists it, is not
   discarded and, since the latest position is the same, not written: the client never
   learns of it.
   */
  lemma UnwrittenReadWitness(x: Id, late: Id, leq: EventOrder)
    requires late != x && leq(Position(late), Position(x)) && leq(Position(x), Position(x))
    ensures forall a :: a in LatePositionRun(x, late) ==> ReadsLatest(leq, a)
    ensures var run := LatePositionRun(x, late);
            var s, t := After(Init({Position(x)}), run[..5]), After(Init({Position(x)}), run);
            && HonestRun({Position(x)}, run) && t == Next(s, TaskOperational(0, Undefined))
            && |s.tasks| == 1 && s.tasks[0].ReadingOperational? && Position(late) in s.tasks[0].since
            && late in s.tasks[0].snapshot.recentPositions
            && s.tasks[0].version == s.version && !s.cleanedUp && !s.destroyed
            && Position(late) !in Known(t.transcript)
  {
    LatePositionIsRead(x, late, leq);
    LatePositionRunIsHonest(x, late);
    LatePositionStep(x, late, 5);
    LatePositionTranscript(x, late);
  }

  // ----- an honest run that repeats an event -----

  function BothReflected(p: Id, q: Id): Snapshot {
    Snapshot(None, Some(q), None, [], {Progress(p), Progress(q)})
  }

  /** Two progress events are stored and published while the snapshot is read, which reflects both. */
  function RepeatingRun(p: Id, q: Id): seq<Action> {
    [Store(Progress(p)), Publish(Progress(p)), Store(Progress(q)), Publish(Progress(q)),
     InitialRead(BothReflected(p, q)), InitialOperational(Undefined)]
  }

  function RepeatingStates(p: Id, q: Id): seq<State> {
    var s0, x, y := Init({}), Progress(p), Progress(q);
    var s1 := s0.(store := s0.store + {x});
    var s2 := s1.(version := 1, delivered := [x], queued := [x]);
    var s3 := s2.(store := s2.store + {y});
    var s4 := s3.(version := 2, delivered := [x, y], queued := [x, y]);
    var s5 := s4.(phase := AwaitingOperational(BothReflected(p, q)), transcript := [Retry]);
    [s0, s1, s2, s3, s4, s5, GoLive(s5, BothReflected(p, q), Undefined)]
  }

  lemma RepeatingBegins(p: Id, q: Id, i: nat)
    requires i < 3
    ensures Next(RepeatingStates(p, q)[i], RepeatingRun(p, q)[i]) == RepeatingStates(p, q)[i + 1]
  {
  }

  lemma RepeatingGoes(p: Id, q: Id, i: nat)
    requires 3 <= i < 6
    ensures Next(RepeatingStates(p, q)[i], RepeatingRun(p, q)[i]) == RepeatingStates(p, q)[i + 1]
  {
  }

  lemma RepeatingStep(p: Id, q: Id, i: nat)
    requires i < 6
    ensures Next(RepeatingStates(p, q)[i], RepeatingRun(p, q)[i]) == RepeatingStates(p, q)[i + 1]
  {
    if i < 3 { RepeatingBegins(p, q, i); } else { RepeatingGoes(p, q, i); }
  }

  lemma RepeatingRunIsHonest(p: Id, q: Id)
    ensures HonestRun({}, RepeatingRun(p, q))
    ensures After(Init({}), RepeatingRun(p, q)) == RepeatingStates(p, q)[6]
  {
    var states, run := RepeatingStates(p, q), RepeatingRun(p, q);
    forall i | 0 <= i < 6 ensures Next(states[i], run[i]) == states[i + 1] {
      RepeatingStep(p, q, i);
    }
    forall k | 0 <= k < |run| ensures Honest(After(Init({}), run[..k]), run[k]) {
      RunThrough(states, run, k);
    }
    RunThrough(states, run, 6);
    assert run[..6] == run;
  }

  lemma DrainsFirstOfTwo(p: Id, q: Id)
    requires p != q
    ensures var unseen := Unseen([Progress(p), Progress(q)], {q});
            && EventItems(unseen) == [EventItem(Progress(p))]
            && forall last :: RememberAll(last, unseen).progress == Some(p)
  {
    assert [Progress(p), Progress(q)][..1] == [Progress(p)] && [Progress(p)][..0] == [];
    assert Unseen([Progress(p)], {q}) == [Progress(p)];
  }

  lemma RepeatingEnd(p: Id, q: Id)
    requires p != q
    ensures var s := RepeatingStates(p, q)[6];
            && s.transcript == [Retry, SnapshotItem(BothReflected(p, q), Undefined), EventItem(Progress(p))]
            && s.snapshotSent && s.last.progress == Some(p)
  {
    assert SnapshotIds(BothReflected(p, q)) == {q};
    DrainsFirstOfTwo(p, q);
  }

  /**
   In an honest run whose read shows the latest progress, the earlier of two progress
   events is written again although the snapshot reflects both, which sets the client's
   progress back.
   */
  lemma ReflectedProgressIsRepeated(p: Id, q: Id, leq: EventOrder)
    requires p != q && leq(Progress(p), Progress(q)) && leq(Progress(q), Progress(q))
    ensures HonestRun({}, RepeatingRun(p, q)) && forall a :: a in RepeatingRun(p, q) ==> ReadsLatest(leq, a)
    ensures var s, snapshot := After(Init({}), RepeatingRun(p, q)), BothReflected(p, q);
            && s.transcript == [Retry, SnapshotItem(snapshot, Undefined), EventItem(Progress(p))]
            && ProgressSetBack(s.transcript, snapshot)
  {
    RepeatingRunIsHonest(p, q);
    RepeatingEnd(p, q);
    LastSentIsOnScreen({}, RepeatingRun(p, q));
    assert OnScreen(After(Init({}), RepeatingRun(p, q)).transcript).progress == Some(p);
  }
}
