/**
  What ends a pass through the main loop, and where it leaves the machine
  (lib/exec.c:1240-1361): an interrupt is looked at after the pending event has
  been handled and before the next instruction is executed, and nothing else of
  the pass happens then.
 */
module Interrupts {
  import opened Leb
  import opened Code
  import opened Jumps
  import opened Machine
  import opened Runs
  import opened TailCalls

  /** The micro steps that a pending event takes. */
  function OwnSteps(e: Event): nat {
    match e
    case NoEvent => 0
    case CallEvent(_) => 1
    case Branch(_, _) => 1
    case RestartInsn(_) => 0
    case TailCall(_) => 2
    case Exception => 1
  }

  /** The pending event of `s` is handled, in `s1`, and an instruction is next. */
  ghost predicate AboutToExecute(M: Machine, stale: Stale, s: State, s1: State) {
    && StateOk(M, s) && !s.event.RestartInsn? && MicroRun(M, stale, s, OwnSteps(s.event)) == Go(s1)
    && s1.event == NoEvent && StateOk(M, s1) && |s1.frames| != s1.bottom
  }

  lemma HandledIs(M: Machine, stale: Stale, s: State, s1: State, t: Tick)
    requires AboutToExecute(M, stale, s, s1) && !t.hostRetry
    ensures HandleEvent(M, stale, s, t) == Go(s1)
  {
    hide StateOk, DoCall, DoBranch, DoException, LeaveForTailCall, MicroRun;
    ZeroMicro(M, stale, s);
    OneMicro(M, stale, s);
    match s.event {
      case NoEvent =>
      case CallEvent(f) => CallEvents(M, s, f);
      case Branch(i, e) => BranchEvents(M, s, i, e);
      case Exception => ExceptionEvents(M, s);
      case TailCall(f) =>
        TailHandledIs(M, stale, s, s1, f, t);
    }
  }

  lemma TailHandledIs(M: Machine, stale: Stale, s: State, s1: State, f: nat, t: Tick)
    requires StateOk(M, s) && s.event == TailCall(f) && !t.hostRetry
    requires MicroRun(M, stale, s, 2) == Go(s1) && s1.event == NoEvent
    ensures HandleEvent(M, stale, s, t) == Go(s1)
  {
    hide StateOk, DoCall, LeaveForTailCall, MicroRun;
    OneMicro(M, stale, s);
    LeaveEvents(M, s, f);
    MoreMicro(M, stale, s, 1, 1);
    var o := LeaveForTailCall(M, s, f);
    if o.Go? {
      if StateOk(M, o.s) {
        OneMicro(M, stale, o.s);
        CallEvents(M, o.s, f);
      } else {
        NotOkMicro(M, stale, o.s);
      }
    }
  }

  /** An interrupt ends the pass: the event has been handled, no instruction is executed. */
  lemma InterruptReturns(M: Machine, stale: Stale, s: State, s1: State, t: Tick)
    requires AboutToExecute(M, stale, s, s1) && !t.hostRetry && t.interrupt
    ensures Pass(M, stale, s, t) == Yield(s1)
  {
    hide StateOk, HandleEvent;
    HandledIs(M, stale, s, s1, t);
  }

  /** So does an instruction that asks to be restarted; it is what is pending then, again if it was before. */
  lemma RestartReturns(M: Machine, stale: Stale, s: State, s1: State, t: Tick)
    requires t.insnRestart && StateOk(M, s)
    ensures s.event.RestartInsn? ==> Pass(M, stale, s, t) == Yield(s)
    ensures AboutToExecute(M, stale, s, s1) && !t.hostRetry && !t.interrupt ==>
              Pass(M, stale, s, t) == Yield(s1.(event := RestartInsn(s1.p)))
  {
    hide StateOk, HandleEvent;
    if AboutToExecute(M, stale, s, s1) && !t.hostRetry { HandledIs(M, stale, s, s1, t); }
  }

  /** And a host function that is to be called again: the call is still pending, its frame is left if it was a tail call. */
  lemma RetryReturns(M: Machine, stale: Stale, s: State, s1: State, f: nat, t: Tick)
    requires t.hostRetry && StateOk(M, s) && f < |M.finsts| && M.finsts[f].HostFunc?
    ensures s.event == CallEvent(f) ==> Pass(M, stale, s, t) == Yield(s)
    ensures s.event == TailCall(f) && MicroRun(M, stale, s, 1) == Go(s1) && StateOk(M, s1) ==>
              Pass(M, stale, s, t) == Yield(s1) && s1.event == CallEvent(f)
  {
    hide StateOk, LeaveForTailCall;
    OneMicro(M, stale, s);
    if s.event == TailCall(f) { LeaveEvents(M, s, f); }
  }

  /** Undisturbed, the pass executes one instruction. */
  lemma CalmExecutes(M: Machine, stale: Stale, s: State, s1: State, t: Tick)
    requires AboutToExecute(M, stale, s, s1) && Calm(t)
    ensures Pass(M, stale, s, t) == MicroRun(M, stale, s, OwnSteps(s.event) + 1)
  {
    hide StateOk, HandleEvent, FetchExec;
    HandledIs(M, stale, s, s1, t);
    MoreMicro(M, stale, s, OwnSteps(s.event), 1);
    OneMicro(M, stale, s1);
    FetchEvents(M, s1, stale(s1.stack));
  }

  // ---- entering the loop once ----

  /** What exec_expr_continue gives, and the passes it took; Go if there are no more of `ticks`. */
  function EnterLoop(M: Machine, stale: Stale, s: State, ticks: seq<Tick>): (r: (Outcome, nat))
    ensures r.1 <= |ticks|
    decreases |ticks|
  {
    if ticks == [] then (Go(s), 0)
    else match Pass(M, stale, s, ticks[0])
      case Go(s1) => var r := EnterLoop(M, stale, s1, ticks[1..]); (r.0, r.1 + 1)
      case o => (o, 1)
  }

  /** The embedder's loop enters again with what is left. */
  lemma {:induction false} DriveEnters(M: Machine, stale: Stale, s: State, ticks: seq<Tick>)
    ensures var (o, used) := EnterLoop(M, stale, s, ticks);
            Drive(M, stale, s, ticks) == if o.Yield? then Drive(M, stale, o.s, ticks[used..]) else o
    decreases |ticks|
  {
    hide Pass;
    if ticks != [] && Pass(M, stale, s, ticks[0]).Go? {
      var s1 := Pass(M, stale, s, ticks[0]).s;
      DriveEnters(M, stale, s1, ticks[1..]);
      var used := EnterLoop(M, stale, s1, ticks[1..]).1;
      assert ticks[1..][used..] == ticks[1 + used..];
    }
  }

  /** If the loop is still running when it meets an interrupt, it returns there. */
  lemma {:induction false} ReturnsThere(M: Machine, stale: Stale, s: State, ticks: seq<Tick>, i: nat, s1: State)
    requires i < |ticks| && EnterLoop(M, stale, s, ticks[..i]).0.Go?
    requires AboutToExecute(M, stale, EnterLoop(M, stale, s, ticks[..i]).0.s, s1) && ticks[i].interrupt && !ticks[i].hostRetry
    ensures EnterLoop(M, stale, s, ticks) == (Yield(s1), i + 1)
    decreases i
  {
    hide Pass, AboutToExecute;
    if i == 0 {
      assert ticks[..0] == [];
      InterruptReturns(M, stale, s, s1, ticks[0]);
    } else {
      assert ticks[..i][1..] == ticks[1..][..i - 1] && ticks[..i][0] == ticks[0];
      ReturnsThere(M, stale, Pass(M, stale, s, ticks[0]).s, ticks[1..], i - 1, s1);
    }
  }

  /** A pass with an interrupt goes on only back into a host function, or to restart an instruction. */
  lemma OnlyHostsGoOn(M: Machine, stale: Stale, s: State, t: Tick)
    requires t.interrupt && Pass(M, stale, s, t).Go?
    ensures |Pass(M, stale, s, t).s.restarts| + 1 == |s.restarts| || (s.event.RestartInsn? && |Pass(M, stale, s, t).s.restarts| == |s.restarts|)
    ensures !Pass(M, stale, s, t).s.event.RestartInsn?
  {
    hide StateOk, HandleEvent, FetchExec;
    if s.event.RestartInsn? {
      NormOk(M, s);
      FetchKeepsFrames(M, Norm(s), stale(s.stack));
      FetchEvents(M, Norm(s), stale(s.stack));
    } else {
      HandleKeeps(M, stale, s, t);
    }
  }

  lemma HandleKeeps(M: Machine, stale: Stale, s: State, t: Tick)
    requires StateOk(M, s) && !s.event.RestartInsn?
    ensures var o := HandleEvent(M, stale, s, t); o.Go? ==> o.s.restarts == s.restarts
  {
    hide InstOk, StateOk;
    match s.event {
      case NoEvent =>
      case CallEvent(f) => CallKeeps(M, s, f);
      case Branch(i, e) => BranchPops(M, s, i, e);
      case Exception => ExceptionPops(M, s);
      case TailCall(f) =>
        LeaveKeeps(M, s, f);
        var o := LeaveForTailCall(M, s, f);
        if o.Go? && StateOk(M, o.s) { CallKeeps(M, o.s, f); }
    }
  }

  lemma CallKeeps(M: Machine, s: State, f: nat)
    requires StateOk(M, s)
    ensures DoCall(M, s, f).Go? ==> DoCall(M, s, f).s.restarts == s.restarts
  {
    hide InstOk, FinstOk;
  }

  lemma LeaveKeeps(M: Machine, s: State, f: nat)
    requires StateOk(M, s)
    ensures LeaveForTailCall(M, s, f).Go? ==> LeaveForTailCall(M, s, f).s.restarts == s.restarts
  {
    hide InstOk, FinstOk;
  }

  /** Under permanent interrupts the loop returns after as many passes as host functions wait, and two. */
  lemma {:induction false} InterruptsReturn(M: Machine, stale: Stale, s: State, ticks: seq<Tick>)
    requires |ticks| >= |s.restarts| + (if s.event.RestartInsn? then 2 else 1)
    requires forall i :: 0 <= i < |ticks| ==> ticks[i].interrupt
    ensures !EnterLoop(M, stale, s, ticks).0.Go?
    decreases |ticks|
  {
    hide Pass;
    assert ticks[0].interrupt;
    if Pass(M, stale, s, ticks[0]).Go? {
      OnlyHostsGoOn(M, stale, s, ticks[0]);
      InterruptsReturn(M, stale, Pass(M, stale, s, ticks[0]).s, ticks[1..]);
    }
  }
}
