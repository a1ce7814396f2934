/**
  Tail calls (lib/exec.c:475-492). On the flat machine a frame keeps its record
  of the caller through any chain of tail calls. On the structured semantics a
  callee does not see what is below it, so a tail call reaches the same caller
  as a call followed by a return.
 */
module TailCalls {
  import opened Leb
  import opened Code
  import opened Machine
  import opened Structured
  import opened Runs

  // ---- the frame of a chain of tail calls ----

  /** What a frame records of its caller. */
  datatype Record = Record(labelidx: nat, localidx: nat, callerpc: nat, height: nat)

  function RecordOf(fr: Frame): Record { Record(fr.labelidx, fr.localidx, fr.callerpc, fr.height) }

  /** The outermost frame has no caller. */
  predicate NoCallerPc(below: seq<Frame>, r: Record) { below == [] ==> r.callerpc == 0xdeadbeef }

  /** A wasm function is about to be entered. */
  predicate Entering(M: Machine, s: State) {
    s.event.CallEvent? && s.event.func < |M.finsts| && M.finsts[s.event.func].WasmFunc?
  }

  /** The frame above `below` has record `r`, or a tail call is about to replace it by one that has. */
  ghost predicate Keeps(M: Machine, s: State, below: seq<Frame>, r: Record) {
    && NoCallerPc(below, r) && below <= s.frames
    && if |s.frames| > |below| then RecordOf(s.frames[|below|]) == r
       else
         && Entering(M, s) && (below != [] ==> s.p == r.callerpc)
         && |s.labels| == r.labelidx && |s.locals| == r.localidx && |s.stack| == r.height + M.finsts[s.event.func].typ.params
  }

  /** Event handling and execution pop frames or push one. */
  ghost predicate PopsOrPushes(s: State, t: State) {
    t.frames <= s.frames || (|t.frames| == |s.frames| + 1 && s.frames <= t.frames)
  }

  lemma FetchKeepsFrames(M: Machine, s: State, pad: seq<cell>)
    requires StateOk(M, s) && |pad| == EXN_CELLS
    ensures var o := FetchExec(M, s, pad); !o.Yield? && (o.Go? ==> o.s.frames == s.frames && o.s.restarts == s.restarts)
  {
    hide StateOk, PlainEnd, ReadU32, ReadS33, HeaderEnd, SkipLebs, TagCells;
  }

  lemma FrameExitPops(M: Machine, s: State)
    requires StateOk(M, s) && FrameFits(s)
    ensures FrameExit(M, s).frames == Pop(s.frames)
    ensures Pop(s.frames) != [] ==> FrameExit(M, s).p == Top(s.frames).callerpc
    ensures |FrameExit(M, s).labels| == Top(s.frames).labelidx && |FrameExit(M, s).locals| == Top(s.frames).localidx
    ensures FrameExit(M, s).stack == s.stack && FrameExit(M, s).restarts == s.restarts
  {
  }

  lemma {:induction false} UnwindPops(M: Machine, s: State, n: nat)
    requires StateOk(M, s)
    ensures Unwind(M, s, n).Some? ==> Unwind(M, s, n).value.frames <= s.frames && Unwind(M, s, n).value.restarts == s.restarts
    decreases |s.frames|
  {
    hide StateOk, FrameExit;
    if |s.frames| > n && FrameFits(s) {
      FrameExitPops(M, s);
      if StateOk(M, FrameExit(M, s)) { UnwindPops(M, FrameExit(M, s), n); }
    }
  }

  lemma ExitKeepsFrames(M: Machine, s: State, bpc: nat, ge: bool)
    requires StateOk(M, s) && s.frames != []
    ensures var r := CachedBlockExit(M, s, bpc, ge); r.ExitTo? ==> r.s.frames == s.frames && r.s.restarts == s.restarts && r.s.stack == s.stack
  {
    hide JumpLookup, Arity, ReadS33;
  }

  lemma LabelKeepsFrames(M: Machine, s: State, l: nat, ge: bool)
    requires StateOk(M, s) && s.frames != []
    ensures match BranchToLabel(M, s, l, ge)
            case NoBranch => true
            case Stayed(t) => t.frames == s.frames && t.restarts == s.restarts && t.stack == s.stack
            case Left(t, _, _) => t.frames == s.frames && t.restarts == s.restarts && t.stack == s.stack
  {
    hide StateOk, CachedBlockExit;
    if l < |s.labels| { ExitKeepsFrames(M, s, s.labels[|s.labels| - l - 1].pc, ge); }
  }

  lemma BranchPops(M: Machine, s: State, l: nat, ge: bool)
    requires StateOk(M, s)
    ensures var o := DoBranch(M, s, l, ge); !o.Yield? && (o.Go? ==> o.s.frames <= s.frames && o.s.restarts == s.restarts && |o.s.stack| <= |s.stack|)
  {
    hide StateOk, FrameExit, BranchToLabel;
    if FrameFits(s) {
      FrameExitPops(M, s);
      LabelKeepsFrames(M, s, l, ge);
    }
  }

  lemma CatchPops(M: Machine, s: State, l: nat, csz: nat, exn: seq<cell>)
    requires StateOk(M, s) && csz <= EXN_CELLS && |exn| == EXNREF_CELLS
    ensures var o := Catch(M, s, l, csz, exn); !o.Yield? && (o.Go? ==> o.s.frames <= s.frames && o.s.restarts == s.restarts)
  {
    hide StateOk, FrameExit, BranchToLabel;
    if FrameFits(s) {
      FrameExitPops(M, s);
      LabelKeepsFrames(M, s, l, false);
    }
  }

  lemma ExceptionPops(M: Machine, s: State)
    requires StateOk(M, s)
    ensures var o := DoException(M, s); !o.Yield? && (o.Go? ==> o.s.frames <= s.frames && o.s.restarts == s.restarts)
  {
    hide StateOk, FindCatch, Unwind, Catch, TagOf;
    ExceptionEvents(M, s);
    if DoException(M, s).Go? {
      var rest := |s.stack| - EXNREF_CELLS;
      var exn := s.stack[rest..];
      var s0 := s.(stack := s.stack[..rest]);
      var tag := TagOf(exn);
      SameFramesOk(M, s, s0);
      var h := FindCatch(M, s0, tag, |s.labels|, |s.frames| - 1, |s.labels|);
      UnwindPops(M, s0, h.frameidx + 1);
      CatchPops(M, Unwind(M, s0, h.frameidx + 1).value, h.labelidx, if h.all then 0 else M.tagCells[tag], exn);
    }
  }

  lemma SameFramesOk(M: Machine, s: State, t: State)
    requires StateOk(M, s) && t.inst == s.inst && t.cache == s.cache && t.frames == s.frames
    ensures StateOk(M, t)
  {
  }

  lemma CallPushes(M: Machine, s: State, f: nat)
    requires StateOk(M, s) && (DoCall(M, s, f).Go? || DoCall(M, s, f).Yield?)
    ensures PopsOrPushes(s, DoCall(M, s, f).s)
    ensures Entering(M, s.(event := CallEvent(f))) ==>
              var t := DoCall(M, s, f).s;
              && |t.frames| == |s.frames| + 1
              && |s.stack| >= M.finsts[f].typ.params
              && RecordOf(Top(t.frames)) == Record(|s.labels|, |s.locals|, if s.frames == [] then 0xdeadbeef else s.p,
                                                   |s.stack| - M.finsts[f].typ.params)
  {
    hide StateOk, FinstOk;
  }

  lemma StepShape(M: Machine, s: State, pad: seq<cell>)
    requires StateOk(M, s) && |pad| == EXN_CELLS && (Micro(M, s, pad).Go? || Micro(M, s, pad).Yield?)
    ensures PopsOrPushes(s, Micro(M, s, pad).s)
  {
    hide StateOk, FetchExec, DoCall, DoBranch, DoException, FrameExit, FinstOk;
    match s.event {
      case NoEvent => if |s.frames| != s.bottom { FetchKeepsFrames(M, s, pad); }
      case CallEvent(f) => CallPushes(M, s, f);
      case Branch(i, e) => BranchPops(M, s, i, e);
      case RestartInsn(pc) => SameFramesOk(M, s, s.(p := pc, event := NoEvent)); FetchKeepsFrames(M, s.(p := pc, event := NoEvent), pad);
      case TailCall(f) => FrameExitPops(M, s);
      case Exception => ExceptionPops(M, s);
    }
  }

  /** Only a tail call leaves both a shorter stack of frames and a pending call. */
  lemma TailCallLeaves(M: Machine, s: State, pad: seq<cell>)
    requires StateOk(M, s) && |pad| == EXN_CELLS && (Micro(M, s, pad).Go? || Micro(M, s, pad).Yield?)
    requires var t := Micro(M, s, pad).s; |t.frames| < |s.frames| && t.event.CallEvent?
    ensures s.event.TailCall? && FrameFits(s) && s.event.func < |M.finsts|
    ensures var t, fr := Micro(M, s, pad).s, Top(s.frames);
            && t.frames == Pop(s.frames) && t.event == CallEvent(s.event.func)
            && (t.frames != [] ==> t.p == fr.callerpc)
            && |t.labels| == fr.labelidx && |t.locals| == fr.localidx
            && |t.stack| == fr.height + M.finsts[s.event.func].typ.params
  {
    hide StateOk, FetchExec, DoCall, DoBranch, DoException, FrameExit;
    StepShape(M, s, pad);
    match s.event {
      case NoEvent => if |s.frames| != s.bottom { FetchKeepsFrames(M, s, pad); }
      case CallEvent(f) => QuietCall(M, s, f);
      case Branch(i, e) => BranchEvents(M, s, i, e);
      case RestartInsn(pc) => SameFramesOk(M, s, s.(p := pc, event := NoEvent)); FetchKeepsFrames(M, s.(p := pc, event := NoEvent), pad);
      case TailCall(f) => FrameExitPops(M, s);
      case Exception => ExceptionEvents(M, s);
    }
  }

  lemma QuietCall(M: Machine, s: State, f: nat)
    requires StateOk(M, s) && (DoCall(M, s, f).Go? || DoCall(M, s, f).Yield?)
    ensures |DoCall(M, s, f).s.frames| >= |s.frames|
  {
    hide StateOk, FinstOk;
  }

  /** Still running the activation above `below`, or about to replace it. */
  ghost predicate Alive(M: Machine, s: State, below: nat) {
    |s.frames| > below || (|s.frames| == below && Entering(M, s))
  }

  lemma KeepsStep(M: Machine, s: State, pad: seq<cell>, below: seq<Frame>, r: Record)
    requires StateOk(M, s) && |pad| == EXN_CELLS && Keeps(M, s, below, r)
    requires Micro(M, s, pad).Go? || Micro(M, s, pad).Yield?
    requires Alive(M, Micro(M, s, pad).s, |below|)
    ensures Keeps(M, Micro(M, s, pad).s, below, r)
  {
    hide StateOk, Micro, DoCall;
    var t := Micro(M, s, pad).s;
    StepShape(M, s, pad);
    if |s.frames| == |below| {
      EnterMicro(M, s, pad);
      CallPushes(M, s, s.event.func);
    } else if |t.frames| == |below| {
      TailCallLeaves(M, s, pad);
    }
  }

  lemma EnterMicro(M: Machine, s: State, pad: seq<cell>)
    requires StateOk(M, s) && |pad| == EXN_CELLS && s.event.CallEvent?
    ensures Micro(M, s, pad) == Quiet(DoCall(M, s, s.event.func))
  {
    hide StateOk, DoCall;
  }

  /**
    In every run in which an activation has not returned, whatever it calls and
    however often it is replaced by a tail call, the frames below it, and the
    caller's pc, label and local counts and stack height in its own frame, are
    those that it was entered with.
   */
  lemma {:induction false} ChainKeeps(M: Machine, stale: Stale, s: State, below: seq<Frame>, r: Record, n: nat)
    requires Keeps(M, s, below, r)
    requires forall k :: 0 <= k <= n ==> MicroRun(M, stale, s, k).Go? && Alive(M, MicroRun(M, stale, s, k).s, |below|)
    ensures Keeps(M, MicroRun(M, stale, s, n).s, below, r)
    decreases n
  {
    hide *;
    if n == 0 {
      ZeroMicro(M, stale, s);
    } else {
      assert MicroRun(M, stale, s, 1).Go?;
      GoMicro(M, stale, s);
      var s1 := MicroRun(M, stale, s, 1).s;
      KeepsStep(M, s, stale(s.stack), below, r);
      AliveLater(M, stale, s, s1, |below|, n);
      ChainKeeps(M, stale, s1, below, r, n - 1);
      MoreMicro(M, stale, s, 1, n - 1);
    }
  }

  lemma AliveLater(M: Machine, stale: Stale, s: State, s1: State, depth: nat, n: nat)
    requires n > 0 && MicroRun(M, stale, s, 1) == Go(s1)
    requires forall k :: 0 <= k <= n ==> MicroRun(M, stale, s, k).Go? && Alive(M, MicroRun(M, stale, s, k).s, depth)
    ensures forall k :: 0 <= k <= n - 1 ==> MicroRun(M, stale, s1, k).Go? && Alive(M, MicroRun(M, stale, s1, k).s, depth)
  {
    hide Alive, MicroRun;
    forall k | 0 <= k <= n - 1
      ensures MicroRun(M, stale, s1, k).Go? && Alive(M, MicroRun(M, stale, s1, k).s, depth)
    {
      MoreMicro(M, stale, s, 1, k);
      assert MicroRun(M, stale, s, 1 + k).Go?;
    }
  }

  lemma GoMicro(M: Machine, stale: Stale, s: State)
    requires MicroRun(M, stale, s, 1).Go?
    ensures StateOk(M, s)
    ensures var o := Micro(M, s, stale(s.stack)); (o.Go? || o.Yield?) && MicroRun(M, stale, s, 1) == Go(o.s)
  {
    hide StateOk, Micro;
    if StateOk(M, s) { OneMicro(M, stale, s); }
  }

  /** One wasm tail call: as many frames as before, with the same record of the caller. */
  lemma TailCallReplaces(M: Machine, stale: Stale, s: State)
    requires s.event.TailCall? && s.frames != [] && s.event.func < |M.finsts| && M.finsts[s.event.func].WasmFunc?
    requires NoCallerPc(Pop(s.frames), RecordOf(Top(s.frames))) && MicroRun(M, stale, s, 2).Go?
    ensures var t := MicroRun(M, stale, s, 2).s;
            && |t.frames| == |s.frames| && Pop(t.frames) == Pop(s.frames) && t.event == NoEvent
            && RecordOf(Top(t.frames)) == RecordOf(Top(s.frames))
  {
    hide StateOk, Micro, MicroRun, DoCall, FrameExit;
    MoreMicro(M, stale, s, 1, 1);
    GoMicro(M, stale, s);
    TailMicro(M, s, stale(s.stack));
    FrameExitPops(M, s);
    var s1 := MicroRun(M, stale, s, 1).s;
    GoMicro(M, stale, s1);
    EnterMicro(M, s1, stale(s1.stack));
    CallPushes(M, s1, s1.event.func);
    CallEvents(M, s1, s1.event.func);
    NoYieldWasm(M, s1, s1.event.func);
  }

  lemma TailMicro(M: Machine, s: State, pad: seq<cell>)
    requires StateOk(M, s) && |pad| == EXN_CELLS && s.event.TailCall?
    ensures Micro(M, s, pad) == LeaveForTailCall(M, s, s.event.func)
  {
    hide StateOk, LeaveForTailCall;
  }

  lemma NoYieldWasm(M: Machine, s: State, f: nat)
    requires StateOk(M, s) && f < |M.finsts| && M.finsts[f].WasmFunc?
    ensures !DoCall(M, s, f).Yield?
  {
    hide StateOk, FinstOk;
  }

  /**
    A tail call to a host function that asks to be restarted has left its frame
    once: what is pending then is a plain call.
   */
  lemma RestartedTailCallIsCall(M: Machine, stale: Stale, s: State, t: Tick)
    requires StateOk(M, s) && s.event.TailCall? && HandleEvent(M, stale, s, t).Yield?
    ensures var s1 := HandleEvent(M, stale, s, t).s;
            s.frames != [] && s1.event.CallEvent? && s1.frames == Pop(s.frames)
  {
    hide StateOk, DoCall, FrameExit;
    LeaveEvents(M, s, s.event.func);
    FrameExitPops(M, s);
    var s1 := LeaveForTailCall(M, s, s.event.func).s;
    CallEvents(M, s1, s.event.func);
    YieldKeepsFrames(M, s1, s.event.func);
  }

  /** Only host functions return a restartable error, and they push no frame. */
  lemma YieldKeepsFrames(M: Machine, s: State, f: nat)
    requires StateOk(M, s)
    ensures DoCall(M, s, f).Yield? ==> DoCall(M, s, f).s.frames == s.frames
  {
    hide StateOk, FinstOk;
  }
}
