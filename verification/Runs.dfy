/**
  Whole runs. The main loop (lib/exec.c:1240-1361) under any schedule of
  interrupts and restartable errors, driven to its end by the embedder's restart
  loop (lib/instance.c:743-775), is compared with the uninterrupted machine and,
  through it, with the structured semantics.
 */
module Runs {
  import opened Leb
  import opened Code
  import opened Machine
  import opened Structured
  import opened Relation
  import opened Calls
  import opened Steps
  import opened Simulation

  // ---- uninterrupted runs ----

  /** The stale cells in a new exnref are some function of what is on the stack. */
  type Stale = f: seq<cell> -> seq<cell> | forall s :: |f(s)| == EXN_CELLS witness (s => Zeros(EXN_CELLS))

  predicate Ended(o: Outcome) { o.Finished? || o.Trapped? || o.Stuck? }

  /** `n` micro steps; a restartable error is followed by a restart. */
  function MicroRun(M: Machine, stale: Stale, s: State, n: nat): Outcome
    decreases n
  {
    if n == 0 then Go(s)
    else if !StateOk(M, s) then Stuck
    else match Micro(M, s, stale(s.stack))
      case Go(s1) => MicroRun(M, stale, s1, n - 1)
      case Yield(s1) => MicroRun(M, stale, s1, n - 1)
      case Finished(s1) => Finished(s1)
      case Trapped(id) => Trapped(id)
      case Stuck => Stuck
  }

  // ---- the loop with interrupts ----

  /**
    What the outside does to one pass through the loop: a host function that
    returns a restartable error before doing anything, an interrupt found by
    check_interrupt, an instruction that asks to be restarted.
   */
  datatype Tick = Tick(hostRetry: bool, interrupt: bool, insnRestart: bool)

  predicate Calm(t: Tick) { !t.hostRetry && !t.interrupt && !t.insnRestart }

  function CallOrRetry(M: Machine, s: State, f: nat, t: Tick): Outcome
    requires StateOk(M, s)
  {
    if t.hostRetry && f < |M.finsts| && M.finsts[f].HostFunc? then Yield(s) else DoCall(M, s, f)
  }

  /** The switch on the pending event; a tail call whose call is to be retried becomes a call. */
  function HandleEvent(M: Machine, stale: Stale, s: State, t: Tick): Outcome
    requires StateOk(M, s) && !s.event.RestartInsn?
  {
    match s.event
    case NoEvent => Go(s)
    case CallEvent(f) => Quiet(CallOrRetry(M, s, f, t))
    case Branch(i, e) => Quiet(DoBranch(M, s, i, e))
    case Exception => Quiet(DoException(M, s))
    case TailCall(f) =>
      match LeaveForTailCall(M, s, f)
      case Go(s1) => if StateOk(M, s1) then Quiet(CallOrRetry(M, s1, f, t)) else Stuck
      case o => o
  }

  /** One pass through the loop. */
  function Pass(M: Machine, stale: Stale, s: State, t: Tick): Outcome {
    if !StateOk(M, s) then Stuck
    else if s.event.RestartInsn? then
      if t.insnRestart then Yield(s)
      else FetchExec(M, s.(p := s.event.pc, event := NoEvent), stale(s.stack))
    else match HandleEvent(M, stale, s, t)
      case Go(s1) =>
        if !StateOk(M, s1) then Stuck
        else if |s1.frames| == s1.bottom then
          if s1.restarts == [] then Finished(s1) else ReturnToHost(s1)
        else if t.interrupt then Yield(s1)
        else if t.insnRestart then Yield(s1.(event := RestartInsn(s1.p)))
        else FetchExec(M, s1, stale(s1.stack))
      case Yield(s1) => Yield(s1)
      case Finished(s1) => Stuck
      case Trapped(id) => Trapped(id)
      case Stuck => Stuck
  }

  /** The embedder's loop: after a restartable error, enter again. */
  function Drive(M: Machine, stale: Stale, s: State, ticks: seq<Tick>): Outcome
    decreases |ticks|
  {
    if ticks == [] then Go(s)
    else match Pass(M, stale, s, ticks[0])
      case Go(s1) => Drive(M, stale, s1, ticks[1..])
      case Yield(s1) => Drive(M, stale, s1, ticks[1..])
      case Finished(s1) => Finished(s1)
      case Trapped(id) => Trapped(id)
      case Stuck => Stuck
  }

  // ---- a pass is some micro steps ----

  /** A pending instruction restart is the instruction not yet executed. */
  function Norm(s: State): State {
    if s.event.RestartInsn? then s.(p := s.event.pc, event := NoEvent) else s
  }

  /** A pending restart is of an instruction of the running frame. */
  predicate Pending(s: State) { s.event.RestartInsn? ==> |s.frames| != s.bottom }

  predicate Same(o: Outcome, m: Outcome) {
    match o
    case Go(s) => m == Go(Norm(s)) && Pending(s)
    case Yield(s) => m == Go(Norm(s)) && Pending(s)
    case _ => m == o
  }

  lemma OneMicro(M: Machine, stale: Stale, s: State)
    requires StateOk(M, s)
    ensures MicroRun(M, stale, s, 1) ==
            match Micro(M, s, stale(s.stack)) case Yield(s1) => Go(s1) case o => o
  {
    hide Micro, StateOk;
    match Micro(M, s, stale(s.stack))
    case Go(s1) => assert MicroRun(M, stale, s1, 0) == Go(s1);
    case Yield(s1) => assert MicroRun(M, stale, s1, 0) == Go(s1);
    case _ =>
  }

  lemma MicroStep(M: Machine, stale: Stale, s: State, n: nat)
    requires n > 0
    ensures !StateOk(M, s) ==> MicroRun(M, stale, s, n) == Stuck
    ensures StateOk(M, s) ==>
              var o := Micro(M, s, stale(s.stack));
              MicroRun(M, stale, s, n) == if o.Go? || o.Yield? then MicroRun(M, stale, o.s, n - 1) else o
  {
    hide Micro, StateOk;
  }

  lemma {:induction false} MoreMicro(M: Machine, stale: Stale, s: State, j: nat, k: nat)
    ensures MicroRun(M, stale, s, j).Go? ==>
              MicroRun(M, stale, s, j + k) == MicroRun(M, stale, MicroRun(M, stale, s, j).s, k)
    ensures !MicroRun(M, stale, s, j).Go? ==> MicroRun(M, stale, s, j + k) == MicroRun(M, stale, s, j)
    decreases j
  {
    hide Micro, StateOk, MicroRun;
    ZeroMicro(M, stale, s);
    if j > 0 {
      MicroStep(M, stale, s, j);
      MicroStep(M, stale, s, j + k);
      if StateOk(M, s) {
        var o := Micro(M, s, stale(s.stack));
        if o.Go? || o.Yield? { MoreMicro(M, stale, o.s, j - 1, k); }
      }
    }
  }

  /** Executing an instruction neither restarts it nor returns from the loop. */
  lemma FetchEvents(M: Machine, s: State, pad: seq<cell>)
    requires StateOk(M, s) && |pad| == EXN_CELLS && s.event.NoEvent?
    ensures var o := FetchExec(M, s, pad);
            !o.Yield? && !o.Finished? && (o.Go? ==> !o.s.event.RestartInsn?)
  {
    hide StateOk, PlainEnd, ReadU32, ReadS33, HeaderEnd, SkipLebs, TagCells;
  }

  /** Host functions may leave a pending call behind, nothing else. */
  lemma CallEvents(M: Machine, s: State, f: nat)
    requires StateOk(M, s)
    ensures var o := DoCall(M, s, f);
            !o.Finished? && (o.Yield? ==> o.s.event.CallEvent?)
  {
    hide StateOk, FinstOk;
  }

  lemma ExceptionEvents(M: Machine, s: State)
    requires StateOk(M, s)
    ensures !DoException(M, s).Yield? && !DoException(M, s).Finished?
  {
    hide StateOk, FindCatch, Unwind, FrameExit, BranchToLabel, TagOf;
  }

  lemma BranchEvents(M: Machine, s: State, i: nat, e: bool)
    requires StateOk(M, s)
    ensures !DoBranch(M, s, i, e).Yield? && !DoBranch(M, s, i, e).Finished?
  {
    hide StateOk, FrameExit, BranchToLabel;
  }

  lemma LeaveEvents(M: Machine, s: State, f: nat)
    requires StateOk(M, s)
    ensures var o := LeaveForTailCall(M, s, f);
            (o.Go? && o.s.event == CallEvent(f)) || o.Stuck?
  {
    hide StateOk, FrameExit, FinstOk;
  }

  /** What handling the event amounts to. */
  ghost predicate Handled(o: Outcome, m: Outcome) {
    match o
    case Go(s) => m == o && s.event == NoEvent
    case Yield(s) => m == Go(s) && s.event.CallEvent?
    case Finished(_) => false
    case _ => m == o
  }

  lemma CallIsMicro(M: Machine, stale: Stale, s: State, f: nat, t: Tick) returns (j: nat)
    requires StateOk(M, s) && s.event == CallEvent(f)
    ensures Handled(Quiet(CallOrRetry(M, s, f, t)), MicroRun(M, stale, s, j))
    ensures !t.hostRetry ==> j == 1
  {
    hide StateOk, DoCall;
    OneMicro(M, stale, s);
    CallEvents(M, s, f);
    j := if t.hostRetry && f < |M.finsts| && M.finsts[f].HostFunc? then 0 else 1;
  }

  lemma HandleIsMicros(M: Machine, stale: Stale, s: State, t: Tick) returns (j: nat)
    requires StateOk(M, s) && !s.event.RestartInsn?
    ensures Handled(HandleEvent(M, stale, s, t), MicroRun(M, stale, s, j))
    ensures Calm(t) && !s.event.NoEvent? ==> j >= 1
  {
    hide StateOk, DoCall, DoBranch, DoException, LeaveForTailCall, CallOrRetry;
    match s.event {
      case NoEvent => j := 0;
      case CallEvent(f) => j := CallIsMicro(M, stale, s, f, t);
      case Branch(i, e) => j := 1; OneMicro(M, stale, s); BranchEvents(M, s, i, e);
      case Exception => j := 1; OneMicro(M, stale, s); ExceptionEvents(M, s);
      case TailCall(f) =>
        OneMicro(M, stale, s);
        LeaveEvents(M, s, f);
        match LeaveForTailCall(M, s, f) {
          case Go(s1) =>
            if StateOk(M, s1) {
              var i := CallIsMicro(M, stale, s1, f, t);
              MoreMicro(M, stale, s, 1, i);
              j := 1 + i;
            } else {
              MoreMicro(M, stale, s, 1, 1);
              j := 2;
            }
          case _ => j := 1;
        }
    }
  }

  /** One pass is some micro steps, at least one when nothing interferes. */
  lemma PassIsMicros(M: Machine, stale: Stale, s: State, t: Tick) returns (k: nat)
    requires StateOk(M, s) && Pending(s)
    ensures Same(Pass(M, stale, s, t), MicroRun(M, stale, Norm(s), k))
    ensures Calm(t) ==> k >= 1
  {
    hide StateOk, HandleEvent, FetchExec, ReturnToHost, MicroRun;
    assert StateOk(M, Norm(s)) by { NormOk(M, s); }
    if s.event.RestartInsn? {
      if t.insnRestart { k := 0; ZeroMicro(M, stale, Norm(s)); }
      else {
        k := 1;
        OneMicro(M, stale, Norm(s));
        FetchEvents(M, Norm(s), stale(s.stack));
      }
    } else {
      var j := HandleIsMicros(M, stale, s, t);
      k := j;
      match HandleEvent(M, stale, s, t) {
        case Go(s1) =>
          if !StateOk(M, s1) {
            k := j + 1;
            MoreMicro(M, stale, s, j, 1);
            NotOkMicro(M, stale, s1);
          } else if |s1.frames| == s1.bottom || !(t.interrupt || t.insnRestart) {
            k := j + 1;
            MoreMicro(M, stale, s, j, 1);
            OneMicro(M, stale, s1);
            FetchEvents(M, s1, stale(s1.stack));
            ReturnEvents(s1);
          }
        case _ => k := j; if j == 0 { NoZero(M, stale, s, t); }
      }
    }
  }

  lemma NormOk(M: Machine, s: State)
    requires StateOk(M, s)
    ensures StateOk(M, Norm(s))
  {
  }

  lemma ZeroMicro(M: Machine, stale: Stale, s: State)
    ensures MicroRun(M, stale, s, 0) == Go(s)
  {
  }

  lemma NotOkMicro(M: Machine, stale: Stale, s: State)
    requires !StateOk(M, s)
    ensures MicroRun(M, stale, s, 1) == Stuck
  {
  }

  lemma ReturnEvents(s: State)
    ensures s.restarts != [] ==> var o := ReturnToHost(s); o.Stuck? || (o.Go? && o.s.event.CallEvent?)
  {
  }

  lemma NoZero(M: Machine, stale: Stale, s: State, t: Tick)
    requires StateOk(M, s) && !s.event.RestartInsn?
    ensures s.event.NoEvent? ==> HandleEvent(M, stale, s, t).Go?
  {
  }

  // ---- restart transparency ----

  /** The state that a run has reached, or its end. */
  predicate Reached(o: Outcome, m: Outcome) {
    match o
    case Go(s) => m == Go(Norm(s)) && Pending(s)
    case _ => m == o
  }

  function CalmTicks(ticks: seq<Tick>): nat {
    if ticks == [] then 0 else (if Calm(ticks[0]) then 1 else 0) + CalmTicks(ticks[1..])
  }

  /**
    Whatever the schedule of interrupts, host retries and instruction restarts,
    driving the loop is running the uninterrupted machine: it is at one of its
    states, or has its outcome, and every undisturbed pass makes progress.
   */
  lemma {:induction false} RestartTransparent(M: Machine, stale: Stale, s: State, ticks: seq<Tick>) returns (k: nat)
    requires Pending(s)
    ensures Reached(Drive(M, stale, s, ticks), MicroRun(M, stale, Norm(s), k))
    ensures Drive(M, stale, s, ticks).Go? ==> k >= CalmTicks(ticks)
    decreases |ticks|
  {
    hide StateOk, Pass, MicroRun;
    k := 0;
    ZeroMicro(M, stale, Norm(s));
    if ticks != [] {
      if !StateOk(M, s) {
        NotOkPass(M, stale, s, ticks[0]);
        k := 1;
      } else {
        var j := PassIsMicros(M, stale, s, ticks[0]);
        var o := Pass(M, stale, s, ticks[0]);
        k := j;
        if o.Go? || o.Yield? {
          var i := RestartTransparent(M, stale, o.s, ticks[1..]);
          MoreMicro(M, stale, Norm(s), j, i);
          k := j + i;
        }
      }
    }
  }

  lemma NotOkPass(M: Machine, stale: Stale, s: State, t: Tick)
    requires !StateOk(M, s)
    ensures Pass(M, stale, s, t) == Stuck && MicroRun(M, stale, Norm(s), 1) == Stuck
  {
  }

  /** Two schedules that both let the run end give it the same end. */
  lemma SchedulesAgree(M: Machine, stale: Stale, s: State, t1: seq<Tick>, t2: seq<Tick>)
    requires Pending(s)
    requires Ended(Drive(M, stale, s, t1)) && Ended(Drive(M, stale, s, t2))
    ensures Drive(M, stale, s, t1) == Drive(M, stale, s, t2)
  {
    hide MicroRun, Drive;
    var a := RestartTransparent(M, stale, s, t1);
    var b := RestartTransparent(M, stale, s, t2);
    RunsAgree(M, stale, Norm(s), a, b);
    RunsAgree(M, stale, Norm(s), b, a);
  }

  /** A run that has ended stays ended. */
  lemma RunsAgree(M: Machine, stale: Stale, s: State, a: nat, b: nat)
    ensures a <= b ==> MicroRun(M, stale, s, a).Go? || MicroRun(M, stale, s, b) == MicroRun(M, stale, s, a)
  {
    hide MicroRun;
    if a <= b { MoreMicro(M, stale, s, a, b - a); }
  }

  /** If the uninterrupted machine ends in `n` micro steps, `n` undisturbed passes are enough. */
  lemma ScheduleEnds(M: Machine, stale: Stale, s: State, ticks: seq<Tick>, n: nat)
    requires Pending(s) && Ended(MicroRun(M, stale, Norm(s), n)) && CalmTicks(ticks) >= n
    ensures Drive(M, stale, s, ticks) == MicroRun(M, stale, Norm(s), n)
  {
    hide MicroRun, Drive, Norm, Pending, CalmTicks;
    var k := RestartTransparent(M, stale, s, ticks);
    RunsAgree(M, stale, Norm(s), k, n);
    RunsAgree(M, stale, Norm(s), n, k);
    DriveEnds(M, stale, s, ticks);
  }

  lemma {:induction false} DriveEnds(M: Machine, stale: Stale, s: State, ticks: seq<Tick>)
    ensures Drive(M, stale, s, ticks).Go? || Ended(Drive(M, stale, s, ticks))
    decreases |ticks|
  {
    hide Pass;
    if ticks != [] {
      match Pass(M, stale, s, ticks[0])
      case Go(s1) => DriveEnds(M, stale, s1, ticks[1..]);
      case Yield(s1) => DriveEnds(M, stale, s1, ticks[1..]);
      case _ =>
    }
  }
}
