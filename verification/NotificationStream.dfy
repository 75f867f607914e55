/**
 openAdminNotificationStream: acquire a subscription, open the event stream, keep it
 alive, and give everything back, while the connection may close or be destroyed and
 any step may fail. One action is one stretch of code between two awaits.
 */
module NotificationStream {

  datatype Item = Heartbeat | Changed

  datatype Phase = Subscribing | Open | Returned | Rejected

  /** Where an exception is thrown while the stream is being started, if anywhere. */
  datatype Failure = NoFailure | AtHead | AtHeartbeat | AtEvent

  /** History: an invalidation arrived, or something was written to the client. */
  datatype Entry = Invalidated | Wrote(item: Item)

  datatype State = State(
    phase: Phase,
    closed: bool,
    heartbeat: bool,
    pendingInvalidation: bool,
    streamOpen: bool,
    unsubscribe: bool,      // the handler holds the function that releases its subscription
    closeListener: bool,    // cleanup is registered for the close event
    destroyed: bool,        // the request's socket
    replyDestroyed: bool,
    written: seq<Item>,
    acquired: nat,
    released: nat,
    log: seq<Entry>)

  function Init(destroyed: bool): State {
    State(Subscribing, destroyed, false, false, false, false, true, destroyed, false, [], 0, 0, [])
  }

  datatype Action =
    | Subscribed(failure: Failure)
    | ShopNotFound
    | SubscribeFails
    | Invalidate
    | CloseEvent
    | DestroyRequest
    | DestroyReply
    | Tick

  predicate Enabled(s: State, a: Action) {
    match a
    case Subscribed(_) => s.phase.Subscribing?
    case ShopNotFound => s.phase.Subscribing?
    case SubscribeFails => s.phase.Subscribing?
    case Invalidate => s.phase.Subscribing? || s.released < s.acquired
    case CloseEvent => s.closeListener
    case DestroyRequest => true
    case DestroyReply => true
    case Tick => s.heartbeat
  }

  function Cleanup(s: State): State {
    if s.closed then s
    else s.(closed := true, heartbeat := false, unsubscribe := false,
            released := if s.unsubscribe then s.released + 1 else s.released)
  }

  /** The catch block while `cleanup` is set: off with the listener, clean up, answer with an error. */
  function Fail(s: State): State {
    Cleanup(s.(closeListener := false)).(phase := Rejected)
  }

  function Write(s: State, item: Item): State {
    if s.replyDestroyed then s else s.(written := s.written + [item], log := s.log + [Wrote(item)])
  }

  function DeliverPending(s: State, failure: Failure): State {
    if !s.pendingInvalidation then s.(heartbeat := true, phase := Open) else
    var taken := s.(pendingInvalidation := false);
    if failure.AtEvent? then Fail(taken) else Write(taken, Changed).(heartbeat := true, phase := Open)
  }

  function OpenStream(s: State, failure: Failure): State {
    if failure.AtHead? then Fail(s) else
    var started := s.(streamOpen := true);
    if failure.AtHeartbeat? then Fail(started) else
    DeliverPending(Write(started, Heartbeat), failure)
  }

  /** The connection closed while subscribing. */
  function ReleaseNow(s: State): State {
    s.(acquired := s.acquired + 1, released := s.released + 1, closeListener := false, phase := Returned)
  }

  /** The subscription is held: give it back at once if the connection is gone, else open the stream. */
  function Hold(s: State, failure: Failure): State {
    if s.destroyed then Cleanup(s).(phase := Returned) else OpenStream(s, failure)
  }

  function Step(s: State, a: Action): State
    requires Enabled(s, a)
  {
    match a
    case Subscribed(failure) =>
      if s.closed then ReleaseNow(s) else Hold(s.(acquired := s.acquired + 1, unsubscribe := true), failure)
    case ShopNotFound => s.(closeListener := false, phase := Rejected)
    case SubscribeFails => Fail(s)
    case Invalidate =>
      var t := s.(log := s.log + [Invalidated]);
      if s.streamOpen then Write(t, Changed) else t.(pendingInvalidation := true)
    case CloseEvent => Cleanup(s.(closeListener := false))
    case DestroyRequest => s.(destroyed := true)
    case DestroyReply => s.(replyDestroyed := true)
    case Tick => Write(s, Heartbeat)
  }

  function Next(s: State, a: Action): State {
    if Enabled(s, a) then Step(s, a) else s
  }

  function After(s: State, actions: seq<Action>): State {
    if actions == [] then s else Next(After(s, actions[..|actions| - 1]), actions[|actions| - 1])
  }

  // ----- the invariant of every run -----

  /** What the history says was written. */
  function Writes(log: seq<Entry>): seq<Item> {
    if log == [] then []
    else
      var init, entry := Writes(log[..|log| - 1]), log[|log| - 1];
      if entry.Wrote? then init + [entry.item] else init
  }

  /** Every invalidation is followed by a change event on the wire. */
  ghost predicate AllNotified(log: seq<Entry>) {
    forall i :: 0 <= i < |log| && log[i] == Invalidated ==> exists j :: i < j < |log| && log[j] == Wrote(Changed)
  }

  ghost predicate Inv(s: State) {
    // the subscription: acquired once at most, released once at most, and held only while open
    && s.acquired <= 1
    && s.acquired == s.released + (if s.unsubscribe then 1 else 0)
    && (s.unsubscribe <==> s.phase.Open? && !s.closed)
    && (s.phase.Subscribing? ==> s.acquired == 0)
    // the timer runs exactly while the stream is open
    && (s.heartbeat <==> s.phase.Open? && !s.closed)
    && (s.phase.Open? ==> s.streamOpen)
    && (s.streamOpen ==> s.phase.Open? || s.phase.Rejected?)
    // invalidations
    && s.written == Writes(s.log)
    && (s.phase.Subscribing? ==> s.written == [] && (s.pendingInvalidation <==> Invalidated in s.log))
    && (s.phase.Open? ==> !s.pendingInvalidation)
    && (s.phase.Open? && !s.replyDestroyed ==> AllNotified(s.log))
    // a stream that is not closed yet still listens for the close event
    && ((s.phase.Subscribing? || s.phase.Open?) && !s.closed ==> s.closeListener)
    // a rejected request listens no more
    && (s.phase.Rejected? ==> !s.closeListener)
  }

  lemma LogMore(log: seq<Entry>, entry: Entry)
    ensures Writes(log + [entry]) == if entry.Wrote? then Writes(log) + [entry.item] else Writes(log)
    ensures entry == Wrote(Changed) ==> AllNotified(log + [entry])
    ensures entry.Wrote? && AllNotified(log) ==> AllNotified(log + [entry])
  {
    var more := log + [entry];
    assert more[..|log|] == log && more[|log|] == entry;
    if entry.Wrote? && AllNotified(log) {
      forall i | 0 <= i < |more| && more[i] == Invalidated
        ensures exists j :: i < j < |more| && more[j] == Wrote(Changed)
      {
        var j :| i < j < |log| && log[j] == Wrote(Changed);
        assert more[j] == Wrote(Changed);
      }
    }
  }

  lemma InvalidateKeepsInv(s: State)
    requires Inv(s) && Enabled(s, Invalidate)
    ensures Inv(Step(s, Invalidate))
  {
    LogMore(s.log, Invalidated);
    LogMore(s.log + [Invalidated], Wrote(Changed));
  }

  lemma HoldKeepsInv(s: State, failure: Failure)
    requires Inv(s) && s.phase.Subscribing? && !s.closed
    ensures Inv(Hold(s.(acquired := s.acquired + 1, unsubscribe := true), failure))
  {
    LogMore(s.log, Wrote(Heartbeat));
    LogMore(s.log + [Wrote(Heartbeat)], Wrote(Changed));
  }

  lemma SubscribedKeepsInv(s: State, failure: Failure)
    requires Inv(s) && s.phase.Subscribing?
    ensures Inv(Step(s, Subscribed(failure)))
  {
    if !s.closed { HoldKeepsInv(s, failure); }
  }

  lemma OtherStepKeepsInv(s: State, a: Action)
    requires Inv(s) && Enabled(s, a) && !a.Invalidate? && !a.Subscribed?
    ensures Inv(Step(s, a))
  {
    LogMore(s.log, Wrote(Heartbeat));
  }

  lemma StepKeepsInv(s: State, a: Action)
    requires Inv(s)
    ensures Inv(Next(s, a))
  {
    if Enabled(s, a) {
      match a
      case Invalidate => InvalidateKeepsInv(s);
      case Subscribed(failure) => SubscribedKeepsInv(s, failure);
      case _ => OtherStepKeepsInv(s, a);
    }
  }

  /**
   In every interleaving the subscription is released at most once and held by no
   stream that is closed, returned or rejected; the heartbeat exists only while the
   stream is open; and once open every invalidation has been passed on.
   */
  lemma {:induction false} EveryRun(destroyed: bool, actions: seq<Action>)
    ensures Inv(After(Init(destroyed), actions))
  {
    if actions == [] {
    } else {
      var init, a := actions[..|actions| - 1], actions[|actions| - 1];
      EveryRun(destroyed, init);
      StepKeepsInv(After(Init(destroyed), init), a);
    }
  }

  /** However it ends, nothing stays acquired. */
  lemma NothingHeldAtTheEnd(destroyed: bool, actions: seq<Action>)
    ensures var s := After(Init(destroyed), actions);
            s.released <= s.acquired <= 1
            && (s.phase.Returned? || s.phase.Rejected? || (s.closed && s.phase.Open?) ==>
                  s.released == s.acquired && !s.heartbeat)
  {
    EveryRun(destroyed, actions);
  }

  /**
   What the end of subscribing does, for every place where starting the stream may fail.
   A stream opens exactly if the connection is there and nothing throws, and only a
   stream that got as far has written anything.
   */
  lemma SubscribedOutcome(destroyed: bool, actions: seq<Action>, failure: Failure)
    requires After(Init(destroyed), actions).phase.Subscribing?
    ensures var s := After(Init(destroyed), actions);
            var t, notify := Next(s, Subscribed(failure)), Invalidated in s.log;
            && (t.phase.Returned? <==> s.closed || s.destroyed)
            && (t.phase.Open? <==> !s.closed && !s.destroyed && (failure.NoFailure? || (failure.AtEvent? && !notify)))
            && (t.phase.Open? || t.phase.Returned? || t.phase.Rejected?)
            && t.acquired == 1 && t.released == (if t.phase.Open? then 0 else 1)
            && (t.closeListener <==> s.closeListener && !s.closed && !t.phase.Rejected?)
            && t.written == if t.phase.Returned? || failure.AtHead? || failure.AtHeartbeat? || s.replyDestroyed then []
                            else if notify && failure.NoFailure? then [Heartbeat, Changed] else [Heartbeat]
  {
    EveryRun(destroyed, actions);
  }

  lemma SubscribingStep(s: State, a: Action)
    requires Inv(s) && Next(s, a).phase.Subscribing?
    ensures s.phase.Subscribing? && (Next(s, a).closed <==> s.closed || a.CloseEvent?)
  {
  }

  /** While subscribing the stream counts as closed exactly if the request was gone at first or has closed since. */
  lemma {:induction false} ClosedWhileSubscribingIff(destroyed: bool, actions: seq<Action>)
    requires After(Init(destroyed), actions).phase.Subscribing?
    ensures After(Init(destroyed), actions).closed <==> destroyed || CloseEvent in actions
  {
    if actions == [] {
    } else {
      var init, a := actions[..|actions| - 1], actions[|actions| - 1];
      EveryRun(destroyed, init);
      SubscribingStep(After(Init(destroyed), init), a);
      ClosedWhileSubscribingIff(destroyed, init);
      assert actions == init + [a];
    }
  }

  /** The close event is heard once, and leaves nothing to release but what a pending subscription may bring. */
  lemma CloseIsHeardOnce(destroyed: bool, actions: seq<Action>)
    ensures var s := Next(After(Init(destroyed), actions), CloseEvent);
            !s.closeListener && Next(s, CloseEvent) == s
            && (After(Init(destroyed), actions).closeListener ==> s.closed && !s.heartbeat && s.released == s.acquired)
  {
    EveryRun(destroyed, actions);
  }

  /** The other ways out of subscribing hold nothing and write nothing. */
  lemma NotSubscribedOutcome(destroyed: bool, actions: seq<Action>, a: Action)
    requires After(Init(destroyed), actions).phase.Subscribing? && (a.ShopNotFound? || a.SubscribeFails?)
    ensures var t := Next(After(Init(destroyed), actions), a);
            t.phase.Rejected? && t.acquired == 0 && t.written == [] && !t.closeListener
  {
    EveryRun(destroyed, actions);
  }

  function Announced(actions: seq<Action>): (items: seq<Item>)
    ensures |items| == |actions|
  {
    seq(|actions|, i requires 0 <= i < |actions| => if actions[i].Invalidate? then Changed else Heartbeat)
  }

  lemma AnnouncedMore(init: seq<Action>, a: Action)
    ensures Announced(init + [a]) == Announced(init) + [if a.Invalidate? then Changed else Heartbeat]
  {
  }

  ghost predicate WritesThrough(s: State) {
    Inv(s) && s.phase.Open? && !s.closed && !s.replyDestroyed
  }

  lemma OpenStep(s: State, a: Action)
    requires WritesThrough(s) && (a.Invalidate? || a.Tick?)
    ensures WritesThrough(Next(s, a))
    ensures Next(s, a).written == s.written + [if a.Invalidate? then Changed else Heartbeat]
  {
    StepKeepsInv(s, a);
  }

  /** While the stream is open every invalidation and every tick is on the wire at once, in order. */
  lemma {:induction false} OpenStreamWrites(s: State, actions: seq<Action>)
    requires WritesThrough(s) && forall a :: a in actions ==> a.Invalidate? || a.Tick?
    ensures WritesThrough(After(s, actions)) && After(s, actions).written == s.written + Announced(actions)
  {
    if actions == [] {
    } else {
      var init, a := actions[..|actions| - 1], actions[|actions| - 1];
      assert a in actions;
      OpenStreamWrites(s, init);
      OpenStep(After(s, init), a);
      AnnouncedMore(init, a);
      assert actions == init + [a];
    }
  }

  /** An invalidation that arrived while subscribing is on the wire as soon as the stream opens. */
  lemma PendingInvalidationIsWritten(destroyed: bool, actions: seq<Action>)
    requires var s := After(Init(destroyed), actions);
             && s.phase.Subscribing? && Invalidated in s.log
             && !s.closed && !s.destroyed && !s.replyDestroyed
    ensures var s := After(Init(destroyed), actions + [Subscribed(NoFailure)]);
            s.phase.Open? && s.written == [Heartbeat, Changed]
  {
    EveryRun(destroyed, actions);
    assert (actions + [Subscribed(NoFailure)])[..|actions|] == actions;
  }

  /** After its close event a stream that was open writes nothing and keeps nothing. */
  lemma {:induction false} ClosedStreamIsSilent(s: State, actions: seq<Action>)
    requires Inv(s) && s.closed && !s.phase.Subscribing?
    ensures var t := After(s, actions);
            t.written == s.written && t.released == s.released && t.closed && t.phase == s.phase && Inv(t)
  {
    if actions == [] {
    } else {
      var init, a := actions[..|actions| - 1], actions[|actions| - 1];
      ClosedStreamIsSilent(s, init);
      StepKeepsInv(After(s, init), a);
    }
  }

  // ----- the code -----

  class Handler {
    var phase: Phase
    var closed: bool
    var heartbeat: bool
    var pendingInvalidation: bool
    var streamOpen: bool
    var unsubscribe: bool
    var closeListener: bool
    var destroyed: bool
    var replyDestroyed: bool
    var written: seq<Item>
    var acquired: nat
    var released: nat
    ghost var log: seq<Entry>

    ghost function View(): State
      reads this
    {
      State(phase, closed, heartbeat, pendingInvalidation, streamOpen, unsubscribe, closeListener, destroyed,
            replyDestroyed, written, acquired, released, log)
    }

    constructor (requestDestroyed: bool)
      ensures View() == Init(requestDestroyed)
    {
      phase, closed, destroyed := Subscribing, requestDestroyed, requestDestroyed;
      heartbeat, pendingInvalidation, streamOpen, unsubscribe := false, false, false, false;
      closeListener, replyDestroyed, written := true, false, [];
      acquired, released, log := 0, 0, [];
    }

    method RunCleanup()
      modifies this`closed, this`heartbeat, this`unsubscribe, this`released
      ensures View() == Cleanup(old(View()))
    {
      if closed {
        return;
      }
      closed := true;
      heartbeat := false;
      if unsubscribe {
        released := released + 1;
        unsubscribe := false;
      }
    }

    method WriteItem(item: Item)
      modifies this`written, this`log
      ensures View() == Write(old(View()), item)
    {
      if !replyDestroyed {
        written, log := written + [item], log + [Wrote(item)];
      }
    }

    method CatchError()
      modifies this`closeListener, this`closed, this`heartbeat, this`unsubscribe, this`released, this`phase
      ensures View() == Fail(old(View()))
    {
      closeListener := false;
      RunCleanup();
      phase := Rejected;
    }

    method StartHeartbeat()
      modifies this`heartbeat, this`phase
      ensures View() == old(View()).(heartbeat := true, phase := Open)
    {
      heartbeat, phase := true, Open;
    }

    method DeliverInvalidation(failure: Failure)
      modifies this
      ensures View() == DeliverPending(old(View()), failure)
    {
      if !pendingInvalidation {
        StartHeartbeat();
        return;
      }
      pendingInvalidation := false;
      assert View() == old(View()).(pendingInvalidation := false);
      if failure.AtEvent? {
        CatchError();
        return;
      }
      WriteItem(Changed);
      StartHeartbeat();
    }

    /** From hijacking the reply to starting the heartbeat. */
    method OpenReply(failure: Failure)
      modifies this
      ensures View() == OpenStream(old(View()), failure)
    {
      if failure.AtHead? {
        CatchError();
        return;
      }
      streamOpen := true;
      assert View() == old(View()).(streamOpen := true);
      if failure.AtHeartbeat? {
        CatchError();
        return;
      }
      WriteItem(Heartbeat);
      DeliverInvalidation(failure);
    }

    method ReleaseAtOnce()
      modifies this`acquired, this`released, this`closeListener, this`phase
      ensures View() == ReleaseNow(old(View()))
    {
      acquired, released := acquired + 1, released + 1;
      closeListener, phase := false, Returned;
    }

    /** The connection was destroyed before the stream could open. */
    method GiveBack()
      modifies this`closed, this`heartbeat, this`unsubscribe, this`released, this`phase
      ensures View() == Cleanup(old(View())).(phase := Returned)
    {
      RunCleanup();
      phase := Returned;
    }

    method HoldSubscription(failure: Failure)
      modifies this
      ensures View() == Hold(old(View()).(acquired := old(acquired) + 1, unsubscribe := true), failure)
    {
      acquired, unsubscribe := acquired + 1, true;
      assert View() == old(View()).(acquired := old(acquired) + 1, unsubscribe := true);
      if destroyed {
        GiveBack();
      } else {
        OpenReply(failure);
      }
    }

    method OnSubscribed(failure: Failure)
      requires phase.Subscribing?
      modifies this
      ensures View() == Next(old(View()), Subscribed(failure))
    {
      if closed {
        ReleaseAtOnce();
      } else {
        HoldSubscription(failure);
      }
    }

    method OnShopNotFound()
      requires phase.Subscribing?
      modifies this
      ensures View() == Next(old(View()), ShopNotFound)
    {
      closeListener, phase := false, Rejected;
    }

    method OnSubscribeFailure()
      requires phase.Subscribing?
      modifies this
      ensures View() == Next(old(View()), SubscribeFails)
    {
      CatchError();
    }

    method OnNotificationsChanged()
      requires phase.Subscribing? || released < acquired
      modifies this
      ensures View() == Next(old(View()), Invalidate)
    {
      log := log + [Invalidated];
      if streamOpen {
        WriteItem(Changed);
        return;
      }
      pendingInvalidation := true;
    }

    method OnClose()
      requires closeListener
      modifies this
      ensures View() == Next(old(View()), CloseEvent)
    {
      closeListener := false;
      RunCleanup();
    }

    method OnRequestDestroyed()
      modifies this`destroyed
      ensures View() == Next(old(View()), DestroyRequest)
    {
      destroyed := true;
    }

    method OnReplyDestroyed()
      modifies this`replyDestroyed
      ensures View() == Next(old(View()), DestroyReply)
    {
      replyDestroyed := true;
    }

    method OnHeartbeat()
      requires heartbeat
      modifies this`written, this`log
      ensures View() == Next(old(View()), Tick)
    {
      WriteItem(Heartbeat);
    }

    /** Runs the stretch of code that the action stands for, if it can happen now. */
    method Perform(a: Action)
      modifies this
      ensures View() == Next(old(View()), a)
    {
      match a
      case Subscribed(failure) => if phase.Subscribing? { OnSubscribed(failure); }
      case ShopNotFound => if phase.Subscribing? { OnShopNotFound(); }
      case SubscribeFails => if phase.Subscribing? { OnSubscribeFailure(); }
      case Invalidate => if phase.Subscribing? || released < acquired { OnNotificationsChanged(); }
      case CloseEvent => if closeListener { OnClose(); }
      case DestroyRequest => OnRequestDestroyed();
      case DestroyReply => OnReplyDestroyed();
      case Tick => if heartbeat { OnHeartbeat(); }
    }

    method PerformAll(actions: seq<Action>)
      modifies this
      ensures View() == After(old(View()), actions)
    {
      for i := 0 to |actions|
        invariant View() == After(old(View()), actions[..i])
      {
        assert actions[..i + 1][..i] == actions[..i];
        Perform(actions[i]);
      }
      assert actions[..|actions|] == actions;
    }
  }

  /** One request under any interleaving: what it wrote, and what it still holds of the subscription. */
  method Serve(requestDestroyed: bool, actions: seq<Action>) returns (written: seq<Item>, held: nat)
    ensures var s := After(Init(requestDestroyed), actions);
            && written == s.written == Writes(s.log)
            && (s.phase.Open? && !s.replyDestroyed ==> AllNotified(s.log))
            && held == if s.phase.Open? && !s.closed then 1 else 0
  {
    var handler := new Handler(requestDestroyed);
    handler.PerformAll(actions);
    EveryRun(requestDestroyed, actions);
    written, held := handler.written, handler.acquired - handler.released;
  }
}
