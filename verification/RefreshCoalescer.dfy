/**
 startNotificationRefresh: every trigger asks for a reload of the notification list;
 loads never overlap, and triggers that arrive during a load are folded into one more.
 */
module RefreshCoalescer {

  datatype Entry = Trigger | Start | Settle | Closing

  /** `loads` counts the loads in flight; `log` is the history of what happened. */
  datatype State = State(closed: bool, inFlight: bool, queued: bool, loads: nat, log: seq<Entry>)

  const IDLE := State(false, false, false, 0, [])

  datatype Action = Run | Resolve | Reject | Close

  predicate Enabled(s: State, a: Action) {
    a.Resolve? || a.Reject? ==> s.loads > 0
  }

  function Begin(s: State): State {
    s.(inFlight := true, queued := false, loads := s.loads + 1, log := s.log + [Start])
  }

  /** run() */
  function RunStep(s: State): State {
    if s.closed then s
    else if s.inFlight then s.(queued := true)
    else Begin(s)
  }

  function Step(s: State, a: Action): State
    requires Enabled(s, a)
  {
    match a
    case Run => RunStep(s.(log := s.log + [Trigger]))
    case Close => s.(closed := true, log := s.log + [Closing])
    case Resolve =>
      var t := s.(loads := s.loads - 1, log := s.log + [Settle]);
      if t.queued && !t.closed then Begin(t) else t.(inFlight := false)
    case Reject =>
      var t := s.(loads := s.loads - 1, inFlight := false, log := s.log + [Settle]);
      if t.queued && !t.closed then RunStep(t) else t
  }

  function Next(s: State, a: Action): State {
    if Enabled(s, a) then Step(s, a) else s
  }

  function After(s: State, actions: seq<Action>): State {
    if actions == [] then s else Next(After(s, actions[..|actions| - 1]), actions[|actions| - 1])
  }

  function Count(log: seq<Entry>, e: Entry): nat {
    multiset(log)[e]
  }

  /** A load starts after the i-th entry. */
  ghost predicate Served(log: seq<Entry>, i: int) {
    exists j :: i < j < |log| && 0 <= j && log[j] == Start
  }

  ghost predicate ClosedBefore(log: seq<Entry>, i: int) {
    exists j :: 0 <= j < i && j < |log| && log[j] == Closing
  }

  /** Every trigger before close is served, or remembered behind a load or a close. */
  ghost predicate NoLostTrigger(s: State) {
    forall i :: 0 <= i < |s.log| && s.log[i] == Trigger && !ClosedBefore(s.log, i) ==>
      Served(s.log, i) || (s.queued && (s.inFlight || s.closed))
  }

  ghost predicate Inv(s: State) {
    && s.loads == (if s.inFlight then 1 else 0)
    && (s.queued && !s.closed ==> s.inFlight)
    && Count(s.log, Start) + (if s.queued then 1 else 0) <= Count(s.log, Trigger)
    && Count(s.log, Start) == Count(s.log, Settle) + s.loads
    && (s.closed <==> Closing in s.log)
    && (forall i :: 0 <= i < |s.log| && s.log[i] == Start ==> !ClosedBefore(s.log, i))
    && NoLostTrigger(s)
  }

  lemma LogGrows(log: seq<Entry>, e: Entry)
    ensures forall x :: Count(log + [e], x) == Count(log, x) + (if x == e then 1 else 0)
    ensures forall i :: 0 <= i < |log| ==>
              (Served(log + [e], i) <==> Served(log, i) || e == Start)
              && (ClosedBefore(log + [e], i) <==> ClosedBefore(log, i))
    ensures ClosedBefore(log + [e], |log|) <==> Closing in log
    ensures Closing in log + [e] <==> Closing in log || e == Closing
  {
    var grown := log + [e];
    forall i | 0 <= i < |log|
      ensures (Served(grown, i) <==> Served(log, i) || e == Start) && (ClosedBefore(grown, i) <==> ClosedBefore(log, i))
    {
      if Served(log, i) {
        var j :| i < j < |log| && log[j] == Start;
        assert grown[j] == Start;
      }
      if e == Start { assert grown[|log|] == Start; }
      if ClosedBefore(log, i) {
        var j :| 0 <= j < i && log[j] == Closing;
        assert grown[j] == Closing;
      }
    }
    if Closing in log {
      var j :| 0 <= j < |log| && log[j] == Closing;
      assert grown[j] == Closing;
    }
  }

  lemma RunKeepsInv(s: State)
    requires Inv(s)
    ensures Inv(Step(s, Run))
  {
    LogGrows(s.log, Trigger);
    LogGrows(s.log + [Trigger], Start);
  }

  lemma CloseKeepsInv(s: State)
    requires Inv(s)
    ensures Inv(Step(s, Close))
  {
    LogGrows(s.log, Closing);
  }

  /** Both ways of settling continue alike: one more load if something is queued, else idle. */
  lemma SettleKeepsInv(s: State, a: Action)
    requires Inv(s) && Enabled(s, a) && (a.Resolve? || a.Reject?)
    ensures Inv(Step(s, a))
  {
    LogGrows(s.log, Settle);
    if s.queued && !s.closed {
      LogGrows(s.log + [Settle], Start);
      assert Step(s, a) == s.(queued := false, log := s.log + [Settle] + [Start]);
    } else {
      assert Step(s, a) == s.(loads := 0, inFlight := false, log := s.log + [Settle]);
    }
  }

  lemma StepKeepsInv(s: State, a: Action)
    requires Inv(s) && Enabled(s, a)
    ensures Inv(Step(s, a))
  {
    match a
    case Run => RunKeepsInv(s);
    case Close => CloseKeepsInv(s);
    case _ => SettleKeepsInv(s, a);
  }

  /**
   In every run: loads never overlap, no more loads than triggers, no load starts after
   close, and every trigger before close is served or still queued.
   */
  lemma {:induction false} EveryRun(actions: seq<Action>)
    ensures Inv(After(IDLE, actions))
  {
    if actions == [] {
    } else {
      var init, a := actions[..|actions| - 1], actions[|actions| - 1];
      EveryRun(init);
      if Enabled(After(IDLE, init), a) {
        StepKeepsInv(After(IDLE, init), a);
      }
    }
  }

  /** An open coalescer with nothing in flight has served every trigger there ever was. */
  lemma IdleMeansServed(actions: seq<Action>, i: nat)
    requires var s := After(IDLE, actions);
             !s.closed && !s.inFlight && i < |s.log| && s.log[i] == Trigger
    ensures Served(After(IDLE, actions).log, i)
  {
    EveryRun(actions);
    assert !ClosedBefore(After(IDLE, actions).log, i);
  }

  /** Without further triggers two settled loads, failed or not, bring it back to idle. */
  lemma TwoLoadsSuffice(actions: seq<Action>, x: Action, y: Action)
    requires (x.Resolve? || x.Reject?) && (y.Resolve? || y.Reject?)
    ensures var s := Next(Next(After(IDLE, actions), x), y); !s.inFlight && s.loads == 0
  {
    EveryRun(actions);
  }

  // ----- the code -----

  class Controller {
    var closed: bool
    var inFlight: bool
    var queued: bool
    var loads: nat
    ghost var log: seq<Entry>

    ghost function View(): State
      reads this
    {
      State(closed, inFlight, queued, loads, log)
    }

    /** The variables before the stream is opened and the first reload triggered. */
    constructor ()
      ensures View() == IDLE
    {
      closed, inFlight, queued, loads, log := false, false, false, 0, [];
    }

    /** The body of the do loop up to its await. */
    method StartLoad()
      modifies this`queued, this`loads, this`log
      ensures View() == old(View()).(queued := false, loads := old(loads) + 1, log := old(log) + [Start])
    {
      queued := false;
      loads, log := loads + 1, log + [Start];
    }

    method RunLoop()
      modifies this
      ensures View() == RunStep(old(View()))
    {
      if closed {
        return;
      }
      if inFlight {
        queued := true;
        return;
      }
      inFlight := true;
      StartLoad();
    }

    method OnTrigger()
      modifies this
      ensures View() == Next(old(View()), Run)
    {
      log := log + [Trigger];
      RunLoop();
    }

    /** The load settles: the loop condition on success, then the finally block. */
    method OnSettled(resolved: bool)
      requires loads > 0 && inFlight
      modifies this
      ensures View() == Next(old(View()), if resolved then Resolve else Reject)
    {
      loads, log := loads - 1, log + [Settle];
      if resolved && queued && !closed {
        StartLoad();
        return;
      }
      inFlight := false;
      if queued && !closed {
        RunLoop();
      }
    }

    method CloseStream()
      modifies this
      ensures View() == Next(old(View()), Close)
    {
      closed, log := true, log + [Closing];
    }

    method Perform(a: Action)
      requires Inv(View())
      modifies this
      ensures View() == Next(old(View()), a) && Inv(View())
    {
      if Enabled(View(), a) { StepKeepsInv(View(), a); }
      match a
      case Run => OnTrigger();
      case Close => CloseStream();
      case Resolve => if loads > 0 { OnSettled(true); }
      case Reject => if loads > 0 { OnSettled(false); }
    }

    method PerformAll(actions: seq<Action>)
      requires Inv(View())
      modifies this
      ensures View() == After(old(View()), actions) && Inv(View())
    {
      for i := 0 to |actions|
        invariant View() == After(old(View()), actions[..i]) && Inv(View())
      {
        assert actions[..i + 1][..i] == actions[..i];
        Perform(actions[i]);
      }
      assert actions[..|actions|] == actions;
    }
  }

  /** The coalescer under any interleaving of triggers, settling loads and close. */
  method Refresh(actions: seq<Action>) returns (loads: nat, idle: bool)
    ensures var s := After(IDLE, actions); loads == s.loads <= 1 && idle == !s.inFlight
    ensures var s := After(IDLE, actions);
            idle && !s.closed ==> forall i :: 0 <= i < |s.log| && s.log[i] == Trigger ==> Served(s.log, i)
  {
    var controller := new Controller();
    EveryRun([]);
    controller.PerformAll(actions);
    loads, idle := controller.loads, !controller.inFlight;
    ghost var s := After(IDLE, actions);
    if idle && !s.closed {
      forall i | 0 <= i < |s.log| && s.log[i] == Trigger ensures Served(s.log, i) {
        IdleMeansServed(actions, i);
      }
    }
  }
}
