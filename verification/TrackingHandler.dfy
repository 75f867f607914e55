/**
 The tracking stream handler in its own form: the closure variables of the request
 handler as mutable fields, one method for each stretch of code between two awaits.
 Each method is proved to take the step of `TrackingStream.Next` it stands for, and
 `Serve` to reach `TrackingStream.After` for any interleaving of them, so every theorem
 about runs there is a theorem about these methods.
 */
module TrackingHandler {
  import opened Wrappers
  import opened TrackingStream

  class Handler {
    var phase: Phase
    var queuedEvents: seq<Event>
    var isSnapshotSent: bool
    var heartbeat: bool
    var isCleanedUp: bool
    var isReconcilingSnapshot: bool
    var streamVersion: nat
    var lastSentPositionEventId: Option<Id>
    var lastSentProgressEventId: Option<Id>
    var lastSentRoadMatchWatermark: Option<string>
    var lastSentOperationalState: string
    var reconciliations: seq<Task>
    var subscribed: bool
    var destroyed: bool
    var written: seq<Item>
    var store: set<Event>
    ghost var delivered: seq<Event>
    ghost var first: Option<Snapshot>

    ghost function LastSent(): Fingerprint
      reads this
    {
      Fingerprint(lastSentPositionEventId, lastSentProgressEventId, lastSentRoadMatchWatermark,
                  lastSentOperationalState)
    }

    ghost function View(): State
      reads this
    {
      State(phase, queuedEvents, isSnapshotSent, heartbeat, isCleanedUp, isReconcilingSnapshot, streamVersion,
            LastSent(), reconciliations, subscribed, destroyed, written, store, delivered, first)
    }

    /** Subscribes to the hub and starts reading the first snapshot. */
    constructor (stored: set<Event>)
      ensures View() == Init(stored)
    {
      phase, queuedEvents := Loading(stored), [];
      isSnapshotSent, heartbeat, isCleanedUp, isReconcilingSnapshot := false, false, false, false;
      streamVersion := 0;
      lastSentPositionEventId, lastSentProgressEventId := None, None;
      lastSentRoadMatchWatermark, lastSentOperationalState := None, "";
      reconciliations, subscribed, destroyed, written := [], true, false, [];
      store, delivered, first := stored, [], None;
    }

    method Write(item: Item)
      modifies this`written
      ensures View() == old(View()).(transcript := old(written) + [item])
    {
      written := written + [item];
    }

    method RememberSnapshot(snapshot: Snapshot)
      modifies this`lastSentPositionEventId, this`lastSentProgressEventId, this`lastSentRoadMatchWatermark
      ensures View() == old(View()).(last := Fingerprint(snapshot.latestPosition, snapshot.latestProgress,
                                                         snapshot.watermark, old(lastSentOperationalState)))
    {
      lastSentPositionEventId := snapshot.latestPosition;
      lastSentProgressEventId := snapshot.latestProgress;
      lastSentRoadMatchWatermark := snapshot.watermark;
    }

    method RememberEvent(event: Event)
      modifies this`lastSentPositionEventId, this`lastSentProgressEventId
      ensures View() == old(View()).(last := TrackingStream.RememberEvent(old(LastSent()), event))
    {
      match event
      case Position(id) => lastSentPositionEventId := Some(id);
      case Progress(id) => lastSentProgressEventId := Some(id);
    }

    method SendSnapshot(snapshot: Snapshot, operational: Operational)
      modifies this`written, this`lastSentPositionEventId, this`lastSentProgressEventId,
               this`lastSentRoadMatchWatermark, this`lastSentOperationalState
      ensures View() == old(View()).(transcript := old(written) + [SnapshotItem(snapshot, operational)],
                                     last := Remember(snapshot, operational))
    {
      Write(SnapshotItem(snapshot, operational));
      lastSentOperationalState := Text(operational);
      RememberSnapshot(snapshot);
    }

    method SendEvent(event: Event)
      modifies this`written, this`lastSentPositionEventId, this`lastSentProgressEventId
      ensures View() == old(View()).(transcript := old(written) + [EventItem(event)],
                                     last := TrackingStream.RememberEvent(old(LastSent()), event))
    {
      Write(EventItem(event));
      RememberEvent(event);
    }

    /** Writes the queued events that the snapshot does not already show. */
    method Drain(snapshotEventIds: set<Id>)
      modifies this`written, this`lastSentPositionEventId, this`lastSentProgressEventId
      ensures var unseen := Unseen(old(queuedEvents), snapshotEventIds);
              View() == old(View()).(transcript := old(written) + EventItems(unseen),
                                     last := RememberAll(old(LastSent()), unseen))
    {
      ghost var was := View();
      DrainEnds(was, snapshotEventIds);
      for i := 0 to |queuedEvents|
        invariant queuedEvents == was.queued && View() == Drained(was, i, snapshotEventIds)
      {
        DrainStep(was, i, snapshotEventIds);
        if queuedEvents[i].id !in snapshotEventIds {
          SendEvent(queuedEvents[i]);
        }
      }
    }

    /** The listener registered with the hub. */
    method OnHubEvent(event: Event)
      requires subscribed
      modifies this
      ensures View() == Next(old(View()), Publish(event))
    {
      delivered := delivered + [event];
      streamVersion := streamVersion + 1;
      if !isSnapshotSent {
        queuedEvents := queuedEvents + [event];
        return;
      }
      SendEvent(event);
    }

    method Cleanup()
      modifies this`isCleanedUp, this`heartbeat, this`subscribed
      ensures View() == Next(old(View()), Close)
    {
      if isCleanedUp {
        return;
      }
      isCleanedUp := true;
      heartbeat := false;
      subscribed := false;
    }

    method OnInitialSnapshot(snapshot: Snapshot)
      requires phase.Loading?
      modifies this
      ensures View() == Next(old(View()), InitialRead(snapshot))
    {
      if destroyed {
        Cleanup();
        phase := Ended;
        return;
      }
      Write(Retry);
      phase := AwaitingOperational(snapshot);
    }

    method OnInitialSnapshotFailure()
      requires phase.Loading?
      modifies this
      ensures View() == Next(old(View()), InitialReadFails)
    {
      Cleanup();
      phase := Ended;
    }

    method BecomeLive(snapshot: Snapshot)
      modifies this`isSnapshotSent, this`first, this`phase, this`heartbeat
      ensures View() == old(View()).(snapshotSent := true, first := Some(snapshot), phase := Live, heartbeat := true)
    {
      isSnapshotSent, first := true, Some(snapshot);
      phase, heartbeat := Live, true;
    }

    /** Sends the snapshot, drains the queue and starts the heartbeat. */
    method OnInitialOperationalState(operational: Operational)
      requires phase.AwaitingOperational?
      modifies this
      ensures View() == Next(old(View()), InitialOperational(operational))
    {
      var snapshot := phase.snapshot;
      SendSnapshot(snapshot, operational);
      Drain(SnapshotIds(snapshot));
      BecomeLive(snapshot);
    }

    /** The interval callback: a keep-alive comment, then a reconciliation unless one is running. */
    method OnHeartbeat()
      requires heartbeat
      modifies this
      ensures View() == Next(old(View()), Tick)
    {
      Write(Heartbeat);
      if isCleanedUp || isReconcilingSnapshot {
        return;
      }
      isReconcilingSnapshot := true;
      reconciliations := reconciliations + [ReadingSnapshot(streamVersion, store)];
    }

    method EndReconciliation(k: nat)
      requires k < |reconciliations|
      modifies this`reconciliations, this`isReconcilingSnapshot
      ensures View() == DropTask(old(View()), k)
    {
      reconciliations := reconciliations[..k] + reconciliations[k + 1..];
      isReconcilingSnapshot := false;
    }

    method OnReconciledSnapshot(k: nat, snapshot: Snapshot)
      requires k < |reconciliations| && reconciliations[k].ReadingSnapshot?
      modifies this
      ensures View() == Next(old(View()), TaskSnapshot(k, snapshot))
    {
      var task := reconciliations[k];
      reconciliations := reconciliations[k := ReadingOperational(task.version, task.since, snapshot)];
    }

    method OnReconciledOperationalState(k: nat, operational: Operational)
      requires k < |reconciliations| && reconciliations[k].ReadingOperational?
      modifies this
      ensures View() == Next(old(View()), TaskOperational(k, operational))
    {
      var version, snapshot := reconciliations[k].version, reconciliations[k].snapshot;
      EndReconciliation(k);
      if isCleanedUp || destroyed || version != streamVersion {
        return;
      }
      if && snapshot.latestPosition == lastSentPositionEventId
         && snapshot.latestProgress == lastSentProgressEventId
         && snapshot.watermark == lastSentRoadMatchWatermark
         && Text(operational) == lastSentOperationalState {
        return;
      }
      SendSnapshot(snapshot, operational);
    }

    method OnReconciliationFailure(k: nat)
      requires k < |reconciliations|
      modifies this
      ensures View() == Next(old(View()), TaskFails(k))
    {
      EndReconciliation(k);
    }

    /** Nothing catches this failure: the handler ends as it stands. */
    method OnInitialOperationalFailure()
      requires phase.AwaitingOperational?
      modifies this`phase
      ensures View() == Next(old(View()), InitialOperationalFails)
    {
      phase := Ended;
    }

    method OnDestroyed()
      modifies this`destroyed
      ensures View() == Next(old(View()), Destroy)
    {
      destroyed := true;
    }

    method OnStored(event: Event)
      modifies this`store
      ensures View() == Next(old(View()), Store(event))
    {
      store := store + {event};
    }

    /** What can happen while the first snapshot is prepared. */
    method PerformInitial(a: Action)
      requires a.InitialRead? || a.InitialReadFails? || a.InitialOperational? || a.InitialOperationalFails?
      modifies this
      ensures View() == Next(old(View()), a)
    {
      match a
      case InitialRead(snapshot) => if phase.Loading? { OnInitialSnapshot(snapshot); }
      case InitialReadFails => if phase.Loading? { OnInitialSnapshotFailure(); }
      case InitialOperational(operational) =>
        if phase.AwaitingOperational? { OnInitialOperationalState(operational); }
      case InitialOperationalFails => if phase.AwaitingOperational? { OnInitialOperationalFailure(); }
    }

    /** What can happen to a reconciliation. */
    method PerformTask(a: Action)
      requires a.TaskSnapshot? || a.TaskOperational? || a.TaskFails?
      modifies this
      ensures View() == Next(old(View()), a)
    {
      var k := a.task;
      if k < |reconciliations| {
        if a.TaskFails? {
          OnReconciliationFailure(k);
        } else if a.TaskSnapshot? && reconciliations[k].ReadingSnapshot? {
          OnReconciledSnapshot(k, a.snapshot);
        } else if a.TaskOperational? && reconciliations[k].ReadingOperational? {
          OnReconciledOperationalState(k, a.operational);
        }
      }
    }

    /** Runs the stretch of code that the action stands for, if it can happen now. */
    method Perform(a: Action)
      modifies this
      ensures View() == Next(old(View()), a)
    {
      match a
      case Store(event) => OnStored(event);
      case Publish(event) => if subscribed { OnHubEvent(event); }
      case Close => Cleanup();
      case Destroy => OnDestroyed();
      case Tick => if heartbeat { OnHeartbeat(); }
      case TaskSnapshot(_, _) => PerformTask(a);
      case TaskOperational(_, _) => PerformTask(a);
      case TaskFails(_) => PerformTask(a);
      case _ => PerformInitial(a);
    }

    method PerformAll(actions: seq<Action>)
      modifies this
      ensures View() == After(old(View()), actions)
    {
      for i := 0 to |actions|
        invariant View() == After(old(View()), actions[..i])
      {
        assert actions[..i + 1][..i] == actions[..i];
        Perform(actions[i]);
      }
      assert actions[..|actions|] == actions;
    }
  }

  /**
   One request, under any interleaving of its stretches of code with the environment:
   what it has written is what the theorems about runs describe.
   */
  method Serve(stored: set<Event>, actions: seq<Action>) returns (written: seq<Item>)
    ensures written == After(Init(stored), actions).transcript
    ensures NoRedundantSnapshot(written)
    ensures HonestRun(stored, actions) ==> NeverBackwards(written)
  {
    var handler := new Handler(stored);
    handler.PerformAll(actions);
    written := handler.written;
    LastSentIsOnScreen(stored, actions);
    if HonestRun(stored, actions) {
      SnapshotsNeverGoBackwards(stored, actions);
    }
  }
}
