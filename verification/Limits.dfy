/**
  The limits of an execution context (lib/exec.c:63-73, lib/exec.c:161-292):
  what a call leaves on the stacks, exactly when it runs out of room, and that
  neither limit is ever passed.
 */
module Limits {
  import opened Leb
  import opened Code
  import opened Jumps
  import opened Machine
  import opened Runs
  import opened TailCalls

  // ---- one call ----

  /**
    Entering a wasm function. Its arguments leave the operand stack and become
    its first locals, all others are zero; it traps exactly at either limit.
   */
  lemma EntryIs(M: Machine, s: State, f: nat)
    requires StateOk(M, s) && FinstOk(M, f) && M.finsts[f].WasmFunc? && M.finsts[f].typ.params <= |s.stack|
    ensures var fi, n, l, o := M.finsts[f], M.finsts[f].typ.params, |s.locals|, DoCall(M, s, f);
            var g, rest := FuncAt(M, fi.inst, fi.fidx), |s.stack| - n;
            && (o == Trapped(TooManyFrames) <==> |s.frames| == M.maxFrames)
            && (o == Trapped(TooManyStackCells) <==> |s.frames| != M.maxFrames && rest + g.maxcells > M.maxStack)
            && (o.Go? <==> |s.frames| != M.maxFrames && rest + g.maxcells <= M.maxStack)
            && (o.Go? ==>
                  && o.s == s.(inst := fi.inst, p := g.start, frames := o.s.frames, stack := s.stack[..rest],
                               locals := o.s.locals, jcache := o.s.jcache, cache := o.s.cache)
                  && |o.s.frames| == |s.frames| + 1 && Pop(o.s.frames) == s.frames
                  && |o.s.locals| == l + n + g.nlocals && o.s.locals[..l] == s.locals
                  && o.s.locals[l..l + n] == s.stack[rest..]
                  && forall k :: l + n <= k < |o.s.locals| ==> o.s.locals[k] == 0)
  {
    var fi := M.finsts[f];
    var g, n := FuncAt(M, fi.inst, fi.fidx), fi.typ.params;
    var rest := |s.stack| - n;
    hide StateOk, InstOk, EmptyCache;
    if |s.frames| != M.maxFrames && rest + g.maxcells <= M.maxStack {
      var o := DoCall(M, s, f);
      assert o.s.locals == s.locals + (s.stack[rest..] + Zeros(g.nlocals));
    }
  }

  /** A host function is not called, and cannot call back, without room for what it pushes. */
  lemma HostRoom(M: Machine, s: State, f: nat)
    requires StateOk(M, s) && FinstOk(M, f) && M.finsts[f].HostFunc? && M.finsts[f].typ.params <= |s.stack|
    ensures var t, o := M.finsts[f].typ, DoCall(M, s, f);
            var rest := |s.stack| - t.params;
            var h := M.host(M.finsts[f].h, s.stack[rest..], s.resume, s.world);
            o == Trapped(TooManyStackCells) <==>
              || (rest + t.results > M.maxStack && t.results > t.params)
              || (h.HCall? && h.func < |M.finsts| && M.finsts[h.func].typ.params == |h.args| && |s.stack| + |h.args| > M.maxStack)
  {
    hide StateOk;
  }

  // ---- whole runs ----

  /** The height that validation declares the operand stack to reach while `fr` runs. */
  function Ceiling(M: Machine, fr: Frame): nat {
    if FuncOk(M, fr.inst, fr.fidx) then fr.height + FuncAt(M, fr.inst, fr.fidx).maxcells else 0
  }

  /** Neither limit is passed, nor will be while the frames stay below their ceilings. */
  ghost predicate Within(M: Machine, s: State) {
    && |s.frames| <= M.maxFrames && |s.stack| <= M.maxStack
    && forall k :: 0 <= k < |s.frames| ==> Ceiling(M, s.frames[k]) <= M.maxStack
  }

  /** Does the next step execute an instruction or land an exception? */
  predicate Pushes(s: State) {
    match s.event
    case NoEvent => |s.frames| != s.bottom
    case RestartInsn(_) => true
    case Exception => true
    case _ => false
  }

  /** The step from `s` to `t` keeps to the ceiling of the frame that goes on, or of the one that is left last. */
  predicate Declared(M: Machine, s: State, t: State) {
    Pushes(s) && s.frames != [] && |t.frames| <= |s.frames| ==>
      |t.stack| <= Ceiling(M, s.frames[if t.frames == [] then 0 else |t.frames| - 1])
  }

  lemma CallWithin(M: Machine, s: State, f: nat)
    requires StateOk(M, s) && Within(M, s) && (DoCall(M, s, f).Go? || DoCall(M, s, f).Yield?)
    ensures Within(M, DoCall(M, s, f).s)
  {
    hide StateOk, SetCurrentFrame, InstOk, FuncOk, Ceiling;
    if M.finsts[f].WasmFunc? { EnteredFrame(M, s, f); }
  }

  lemma EnteredFrame(M: Machine, s: State, f: nat)
    requires StateOk(M, s) && FinstOk(M, f) && M.finsts[f].WasmFunc? && DoCall(M, s, f).Go?
    ensures var fi, t := M.finsts[f], DoCall(M, s, f).s;
            var rest := |s.stack| - fi.typ.params;
            && |s.frames| != M.maxFrames && |t.frames| == |s.frames| + 1 && Pop(t.frames) == s.frames
            && rest >= 0 && t.stack == s.stack[..rest]
            && Ceiling(M, Top(t.frames)) == rest + FuncAt(M, fi.inst, fi.fidx).maxcells <= M.maxStack
  {
    hide StateOk, EmptyCache;
  }

  lemma StepWithin(M: Machine, s: State, pad: seq<cell>)
    requires StateOk(M, s) && |pad| == EXN_CELLS && Within(M, s)
    requires Micro(M, s, pad).Go? || Micro(M, s, pad).Yield?
    requires Declared(M, s, Micro(M, s, pad).s)
    ensures Within(M, Micro(M, s, pad).s)
  {
    hide StateOk, FetchExec, DoCall, DoBranch, DoException, FrameExit, Ceiling;
    match s.event {
      case NoEvent => if |s.frames| != s.bottom { FetchKeepsFrames(M, s, pad); FetchRuns(M, s, pad); }
      case CallEvent(f) => CallWithin(M, s, f);
      case Branch(i, e) => BranchPops(M, s, i, e);
      case RestartInsn(pc) =>
        var s1 := s.(p := pc, event := NoEvent);
        SameFramesOk(M, s, s1);
        FetchKeepsFrames(M, s1, pad);
        FetchRuns(M, s1, pad);
      case TailCall(f) => FrameExitPops(M, s);
      case Exception => ExceptionPops(M, s); ExceptionRuns(M, s);
    }
  }

  lemma FetchRuns(M: Machine, s: State, pad: seq<cell>)
    requires StateOk(M, s) && |pad| == EXN_CELLS
    ensures s.frames == [] ==> FetchExec(M, s, pad) == Stuck
  {
  }

  lemma ExceptionRuns(M: Machine, s: State)
    requires StateOk(M, s)
    ensures s.frames == [] ==> DoException(M, s) == Stuck
  {
  }

  /**
    In every run whose instructions keep to the declared heights, the frames
    stay within their limit and the operand stack within its own. So the
    assertion that every request for room starts with never fails.
   */
  lemma {:induction false} RunWithin(M: Machine, stale: Stale, s: State, n: nat)
    requires Within(M, s)
    requires forall k :: 0 <= k <= n ==> MicroRun(M, stale, s, k).Go?
    requires forall k :: 0 <= k < n ==> Declared(M, MicroRun(M, stale, s, k).s, MicroRun(M, stale, s, k + 1).s)
    ensures Within(M, MicroRun(M, stale, s, n).s)
    decreases n
  {
    hide *;
    if n == 0 {
      ZeroMicro(M, stale, s);
    } else {
      RunWithin(M, stale, s, n - 1);
      assert MicroRun(M, stale, s, n - 1).Go? && MicroRun(M, stale, s, n).Go?;
      var t := MicroRun(M, stale, s, n - 1).s;
      MoreMicro(M, stale, s, n - 1, 1);
      GoMicro(M, stale, t);
      assert Declared(M, t, MicroRun(M, stale, s, n - 1 + 1).s);
      StepWithin(M, t, stale(t.stack));
    }
  }

  // ---- what the caches remember ----

  /** Frames of one module share the caches; a change of module forgets everything. */
  lemma CachesForgotten(M: Machine, s: State, fr: Frame)
    requires InstOk(M, s.inst) && InstOk(M, fr.inst)
    ensures var t := SetCurrentFrame(M, s, fr);
            if M.insts[s.inst].mod == M.insts[fr.inst].mod then t.cache == s.cache && t.jcache == s.jcache
            else t.jcache == NoRef && forall c :: c in t.cache ==> c.key == 0
  {
  }

  /** An exit that was looked up once is found again as long as the cache is kept. */
  lemma ExitRemembered(M: Machine, s: State, t: State, bpc: nat, gotoElse: bool)
    requires StateOk(M, s) && StateOk(M, t) && s.frames != [] && t.frames != []
    requires CachedBlockExit(M, s, bpc, gotoElse).ExitTo? && t.cache == CachedBlockExit(M, s, bpc, gotoElse).s.cache
    ensures var e := CachedBlockExit(M, s, bpc, gotoElse).e;
            CachedBlockExit(M, t, bpc, gotoElse) == ExitTo(t.(p := e.target), e)
  {
    hide BlockExit, InstOk;
    BlockExitKeepsCache(M, s, bpc, gotoElse);
  }

  lemma BlockExitKeepsCache(M: Machine, s: State, bpc: nat, gotoElse: bool)
    requires StateOk(M, s) && s.frames != []
    ensures BlockExit(M, s, bpc, gotoElse).ExitTo? ==> BlockExit(M, s, bpc, gotoElse).s.cache == s.cache
  {
    hide JumpLookup, Arity, ReadS33, InstOk, Skip;
  }

  /** Only the branch of an if can go to an else (a loop's goes to its start in any case). */
  lemma ElseOfIf(M: Machine, s: State, bpc: nat)
    requires StateOk(M, s) && s.frames != [] && BlockExit(M, s, bpc, true).ExitTo?
    ensures bpc < |ModOf(M, s.inst).bytes| && ModOf(M, s.inst).bytes[bpc] in {IF, LOOP}
  {
    hide InstOk, TableExit, ScanExit, ReadS33, Arity;
  }

  /** So is a slot of the jump table. */
  lemma SlotRemembered(M: Machine, s: State, t: State, bpc: nat, gotoElse: bool)
    requires StateOk(M, s) && StateOk(M, t) && s.frames != [] && t.frames != []
    requires Top(s.frames).inst == s.inst == t.inst
    requires TableExit(M, s, bpc, gotoElse).ExitTo? && t.jcache == TableExit(M, s, bpc, gotoElse).s.jcache
    ensures JumpLookup(M, t, bpc) == JumpLookup(M, s, bpc)
  {
  }

  // ---- exceptions in cells ----

  /** The tag that is packed into an exnref is the one that is read back. */
  lemma TagReadBack(exn: seq<cell>, t: nat)
    requires |exn| == EXN_CELLS && t < U64
    ensures TagOf(exn + TagCells(t)) == t
  {
    var e := exn + TagCells(t);
    assert e[4] == TagCells(t)[0] && e[5] == TagCells(t)[1];
  }

  /** A thrown exnref: the parameters at its bottom, the tag at its top, nothing below it touched. */
  lemma ThrownIs(M: Machine, s: State, tagidx: nat, next: nat, pad: seq<cell>)
    requires StateOk(M, s) && |pad| == EXN_CELLS && ExecThrow(M, s, tagidx, next, pad).Go?
    ensures var tags, t := M.insts[s.inst].tags, ExecThrow(M, s, tagidx, next, pad).s;
            && tagidx < |tags| && M.tagCells[tags[tagidx]] <= |s.stack|
            && var csz := M.tagCells[tags[tagidx]];
               var rest := |s.stack| - csz;
               && |t.stack| == rest + EXNREF_CELLS && t.stack[..rest] == s.stack[..rest]
               && t.stack[rest..][..csz] == s.stack[rest..] && TagOf(t.stack[rest..]) == tags[tagidx]
               && t.event == Exception && t.p == next
  {
    var tags := M.insts[s.inst].tags;
    var tag := tags[tagidx];
    assert TagOk(M, tag);
    var csz := M.tagCells[tag];
    var rest := |s.stack| - csz;
    var exn := s.stack[rest..] + pad[csz..];
    TagReadBack(exn, tag);
    assert ExecThrow(M, s, tagidx, next, pad).s.stack[rest..] == exn + TagCells(tag);
  }
}
