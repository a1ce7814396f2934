/**
  Unwinding across frames: the handler that find_catch reports is the
  structured one, never beyond a host function, and do_exception lands there.
 */
module Unwinding {
  import opened Leb
  import opened Code
  import opened Jumps
  import opened Machine
  import opened Structured
  import opened Relation
  import opened Exits
  import opened Branches
  import opened Returns
  import opened Calls
  import opened Steps
  import opened Exceptions

  /** What catching at label `li` of the activation `y` gives. */
  function CatchIn(M: Machine, y: Acts, li: nat, pay: seq<cell>, w: World): Next
    requires y.Wasm? && FuncOk(M, y.inst, y.fidx)
  {
    match Exactly(ModOf(M, y.inst).types, y.ctxs, pay, li)
    case Nowhere => Wrong
    case ToCaller => if FuncAt(M, y.inst, y.fidx).typ.results != |pay| then Wrong else Deliver(y.below, pay, w)
    case To(ctxs, seg, code) => On(Conf(y.(ctxs := ctxs, seg := seg, code := code), Run, w))
  }

  /** The search started at the frame of depth `k`, whose labels are the first `m`. */
  function FindBelow(M: Machine, s: State, tag: nat, k: nat, m: nat): Handler
    requires StateOk(M, s) && k <= |s.frames| && m <= |s.labels|
  {
    if k == 0 || s.bottom == k then NotFound else FindCatch(M, s, tag, m, k - 1, m)
  }

  lemma {:induction false} NoFramesNoLabels(M: Machine, B: Bodies, x: Acts, labels: seq<Label>, loc: seq<cell>, st: seq<cell>,
                                            p: nat, rs: seq<Restart>, bottom: nat)
    requires ProgramOk(M, B) && RelActs(M, B, x, [], labels, loc, st, p, rs, bottom)
    ensures labels == []
    decreases x
  {
    hide ProgramOk, FrameRel, FinstOk;
    if x.Host? { NoFramesNoLabels(M, B, x.below, labels, loc, st[..|st| - |x.params|], p, Pop(rs), Top(rs).savedBottom); }
  }

  /** When a frame's labels are used up, the search goes to the frame below, or stops at a host. */
  lemma NextFrame(M: Machine, s: State, tag: nat, k: nat, m: nat, l0: nat)
    requires StateOk(M, s) && 0 < k <= |s.frames| && l0 == s.frames[k - 1].labelidx <= m <= |s.labels|
    requires k == 1 ==> l0 == 0
    ensures FindCatch(M, s, tag, l0, k - 1, m) == FindBelow(M, s, tag, k - 1, l0)
  {
    hide InstOk, LabelCatch;
  }

  /** The activation reached by leaving `n` wasm activations. */
  function Below(x: Acts, n: nat): Acts {
    if n == 0 || !x.Wasm? then x else Below(x.below, n - 1)
  }

  predicate WasmChain(x: Acts, n: nat) {
    n == 0 || (x.Wasm? && WasmChain(x.below, n - 1))
  }

  datatype Landing = Landing(y: Acts, n: nat, li: nat, all: bool, pay: seq<cell>)

  /** The structured raise and the flat search agree on the landing `d`. */
  ghost predicate Agree(M: Machine, x: Acts, r: Next, h: Handler, k: nat, csz: nat, exn: seq<cell>, w: World, d: Landing)
    requires csz <= |exn|
  {
    match r
    case Wrong => true
    case Final(_, _) => false
    case Fails(id) => id == UncaughtException && h == NotFound
    case On(_) =>
      && d.n < k && h == Found(k - d.n - 1, d.li, d.all) && d.y == Below(x, d.n) && WasmChain(x, d.n)
      && d.y.Wasm? && FuncOk(M, d.y.inst, d.y.fidx)
      && r == CatchIn(M, d.y, d.li, d.pay, w) && PayIs(d.pay, if d.all then 0 else csz, exn)
  }

  lemma {:induction false} RaiseFind(M: Machine, B: Bodies, x: Acts, s: State, k: nat, m: nat, loc: seq<cell>, st: seq<cell>,
                                     p: nat, rs: seq<Restart>, tag: nat, csz: nat, exn: seq<cell>, w: World)
    returns (d: Landing)
    requires ProgramOk(M, B) && StateOk(M, s) && k <= |s.frames| && m <= |s.labels| && csz <= |exn|
    requires RelActs(M, B, x, s.frames[..k], s.labels[..m], loc, st, p, rs, s.bottom)
    ensures Agree(M, x, Raise(M, x, tag, csz, exn, w), FindBelow(M, s, tag, k, m), k, csz, exn, w, d)
    decreases x
  {
    hide ProgramOk, StateOk, InstOk, FinstOk, RelCtxs, CtxCells, FindCatch, HandleIn, LandsAt, Exactly, PayIs, CatchIn, Deliver, Agree, Raise, FindBelow;
    d := Landing(x, 0, 0, false, []);
    if !x.Wasm? {
      SearchStops(M, B, x, s, k, m, loc, st, p, rs, tag, csz, exn, w, d);
    } else {
      assert s.frames[..k][k - 1] == s.frames[k - 1];
      var fr := s.frames[k - 1];
      assert s.labels[..m][..fr.labelidx] == s.labels[..fr.labelidx];
      assert Pop(s.frames[..k]) == s.frames[..k - 1];
      InstBound(M, x.inst, x.fidx);
      var li, all := TopFrameFind(M, B, x, s, k, m, loc, st, p, tag, csz, exn);
      var h := HandleIn(ModOf(M, x.inst).types, M.insts[x.inst].tags, x.ctxs, tag, csz, exn);
      if h.Unhandled? {
        if k == 1 { NoFramesNoLabels(M, B, x.below, s.labels[..fr.labelidx], loc[..fr.localidx], st[..fr.height], fr.callerpc, rs, s.bottom); }
        NextFrame(M, s, tag, k, m, fr.labelidx);
        var d0 := RaiseFind(M, B, x.below, s, k - 1, fr.labelidx, loc[..fr.localidx], st[..fr.height], fr.callerpc, rs, tag, csz, exn, w);
        d := d0.(n := d0.n + 1);
        PassedOver(M, x, s, k, m, fr.labelidx, tag, csz, exn, w, d0);
      } else {
        d := Landing(x, 0, li, all, h.payload);
        StartsAt(M, s, tag, k, m);
        LandedHere(M, x, h, FindCatch(M, s, tag, m, k - 1, m), k, m - fr.labelidx, li, all, csz, exn, w, tag);
      }
    }
  }

  /** Below a host function, and below everything, there is nothing to search. */
  lemma SearchStops(M: Machine, B: Bodies, x: Acts, s: State, k: nat, m: nat, loc: seq<cell>, st: seq<cell>,
                    p: nat, rs: seq<Restart>, tag: nat, csz: nat, exn: seq<cell>, w: World, d: Landing)
    requires ProgramOk(M, B) && StateOk(M, s) && k <= |s.frames| && m <= |s.labels| && csz <= |exn| && !x.Wasm?
    requires RelActs(M, B, x, s.frames[..k], s.labels[..m], loc, st, p, rs, s.bottom)
    ensures Agree(M, x, Raise(M, x, tag, csz, exn, w), FindBelow(M, s, tag, k, m), k, csz, exn, w, d)
  {
    hide ProgramOk, StateOk, FinstOk, FindCatch, CatchIn, PayIs, InstOk;
  }

  /** An activation that does not handle the exception is passed over by both. */
  lemma PassedOver(M: Machine, x: Acts, s: State, k: nat, m: nat, l0: nat, tag: nat, csz: nat, exn: seq<cell>, w: World, d: Landing)
    requires StateOk(M, s) && 0 < k <= |s.frames| && l0 <= m <= |s.labels| && csz <= |exn| && s.bottom != k
    requires x.Wasm? && FuncOk(M, x.inst, x.fidx) && x.inst < |M.insts|
    requires HandleIn(ModOf(M, x.inst).types, M.insts[x.inst].tags, x.ctxs, tag, csz, exn).Unhandled?
    requires FindCatch(M, s, tag, m, k - 1, m) == FindBelow(M, s, tag, k - 1, l0)
    requires Agree(M, x.below, Raise(M, x.below, tag, csz, exn, w), FindBelow(M, s, tag, k - 1, l0), k - 1, csz, exn, w, d)
    ensures Agree(M, x, Raise(M, x, tag, csz, exn, w), FindBelow(M, s, tag, k, m), k, csz, exn, w, d.(n := d.n + 1))
  {
    hide StateOk, InstOk, HandleIn, CatchIn, PayIs, FindCatch;
    StartsAt(M, s, tag, k, m);
  }

  lemma StartsAt(M: Machine, s: State, tag: nat, k: nat, m: nat)
    requires StateOk(M, s) && 0 < k <= |s.frames| && m <= |s.labels| && s.bottom != k
    ensures FindBelow(M, s, tag, k, m) == FindCatch(M, s, tag, m, k - 1, m)
  {
    hide StateOk, FindCatch;
  }

  lemma InstBound(M: Machine, inst: nat, fidx: nat)
    requires FuncOk(M, inst, fidx)
    ensures inst < |M.insts|
  {
  }

  /** A handler in the activation itself. */
  lemma LandedHere(M: Machine, x: Acts, h: Handling, r: Handler, k: nat, bound: int, li: nat, all: bool,
                   csz: nat, exn: seq<cell>, w: World, tag: nat)
    requires x.Wasm? && FuncOk(M, x.inst, x.fidx) && csz <= |exn| && k > 0
    requires h == HandleIn(ModOf(M, x.inst).types, M.insts[x.inst].tags, x.ctxs, tag, csz, exn) && h.Handled?
    requires LandsAt(ModOf(M, x.inst).types, x.ctxs, h, r, k, bound, li, all, csz, exn)
    ensures Agree(M, x, Raise(M, x, tag, csz, exn, w), r, k, csz, exn, w, Landing(x, 0, li, all, h.payload))
  {
    hide InstOk, HandleIn, Exactly, PayIs;
  }

  /** The search of the labels of the frame of depth `k`. */
  lemma TopFrameFind(M: Machine, B: Bodies, x: Acts, s: State, k: nat, m: nat, loc: seq<cell>, st: seq<cell>, p: nat,
                     tag: nat, csz: nat, exn: seq<cell>)
    returns (li: nat, all: bool)
    requires ProgramOk(M, B) && StateOk(M, s) && 0 < k <= |s.frames| && m <= |s.labels| && csz <= |exn|
    requires x.Wasm? && FuncOk(M, x.inst, x.fidx) && x.inst < |M.insts|
    requires FrameRel(M, B, x, s.frames[k - 1], s.labels[..m], loc, st, p)
    ensures s.frames[k - 1].labelidx <= m
    ensures var h := HandleIn(ModOf(M, x.inst).types, M.insts[x.inst].tags, x.ctxs, tag, csz, exn);
            var r := FindCatch(M, s, tag, m, k - 1, m);
            if h.Unhandled? then r == FindCatch(M, s, tag, s.frames[k - 1].labelidx, k - 1, m)
            else LandsAt(ModOf(M, x.inst).types, x.ctxs, h, r, k, m - s.frames[k - 1].labelidx, li, all, csz, exn)
  {
    hide ProgramOk, InstOk, CtxCells, FindCatch, HandleIn, LandsAt, RelCtxs;
    var fr := s.frames[k - 1];
    var L := s.labels[..m][fr.labelidx..];
    assert L == s.labels[fr.labelidx..fr.labelidx + |L|];
    SizeIs(ModOf(M, x.inst).types, Body(M, B, x.inst, x.fidx), FuncAt(M, x.inst, x.fidx).start, x.ctxs, L, fr.height, x.code, p);
    assert Drop(x.ctxs, 0) == x.ctxs;
    li, all := FrameFind(M, B, x, s, k, m, tag, csz, exn, 0, L, fr.height, x.code, p);
  }

  // ---- leaving frames ----

  lemma LeaveFrameSt(M: Machine, B: Bodies, a: Acts, s: State, st: seq<cell>, p: nat)
    requires ProgramOk(M, B) && a.Wasm? && Repr(M, B, a, s, st, p)
    ensures FrameFits(s) && Top(s.frames).height <= |st|
    ensures var s1 := FrameExit(M, s);
            && s1 == s.(frames := Pop(s.frames), labels := s1.labels, locals := s1.locals,
                        inst := s1.inst, p := s1.p, jcache := s1.jcache, cache := s1.cache)
            && Repr(M, B, a.below, s1, st[..Top(s.frames).height], s1.p)
  {
    hide ProgramOk, CachesOk, RelActs, InstOk;
    var s0 := s.(stack := st);
    SameCaches(M, B, s, s0);
    LeaveFrame(M, B, a, s0, p);
    SameCaches(M, B, FrameExit(M, s0), FrameExit(M, s));
  }

  /** Unwinding `n` frames represents the activation below. */
  lemma {:induction false} UnwindSim(M: Machine, B: Bodies, x: Acts, s: State, st: seq<cell>, p: nat, n: nat)
    returns (t: State, st2: seq<cell>, q: nat)
    requires ProgramOk(M, B) && Repr(M, B, x, s, st, p) && WasmChain(x, n)
    ensures n <= |s.frames| && Unwind(M, s, |s.frames| - n) == Some(t)
    ensures Repr(M, B, Below(x, n), t, st2, q) && |st2| <= |st| && st2 == st[..|st2|]
    ensures t == s.(frames := t.frames, labels := t.labels, locals := t.locals, inst := t.inst, p := t.p, jcache := t.jcache, cache := t.cache)
    decreases n
  {
    hide ProgramOk, CachesOk, RelActs, InstOk, FrameExit;
    if n == 0 {
      t, st2, q := s, st, p;
    } else {
      LeaveFrameSt(M, B, x, s, st, p);
      var s1, st1 := FrameExit(M, s), st[..Top(s.frames).height];
      t, st2, q := UnwindSim(M, B, x.below, s1, st1, s1.p, n - 1);
      assert st1[..|st2|] == st[..|st2|];
    }
  }

  // ---- landing ----

  /** The cells that landing puts on the stack are the payload. */
  lemma LandedCells(stack: seq<cell>, height: nat, csz: nat, exn: seq<cell>, pay: seq<cell>)
    requires height <= |stack| && csz <= EXN_CELLS && |exn| == EXNREF_CELLS && PayIs(pay, csz, exn)
    ensures |pay| == csz || |pay| == csz + EXNREF_CELLS
    ensures Caught(stack, height, |pay|, csz, exn) == stack[..height] + pay
  {
    assert exn[..csz] + [] == exn[..csz];
  }

  lemma CatchSim(M: Machine, B: Bodies, y: Acts, s: State, st: seq<cell>, p: nat, li: nat, csz: nat, exn: seq<cell>, pay: seq<cell>)
    requires ProgramOk(M, B) && y.Wasm? && Repr(M, B, y, s, st, p) && FuncOk(M, y.inst, y.fidx)
    requires |st| <= |s.stack| && s.stack[..|st|] == st && s.resume == Fresh
    requires csz <= EXN_CELLS && |exn| == EXNREF_CELLS && PayIs(pay, csz, exn) && CatchIn(M, y, li, pay, s.world).On?
    ensures var o := Quiet(Catch(M, s, li, csz, exn));
            o.Go? && Rel(M, B, CatchIn(M, y, li, pay, s.world).c, o.s)
  {
    hide ProgramOk, CachesOk, InstOk, FrameExit, CtxCells, Rel, LandExn, BranchToLabel, PayIs, RelCtxs, BranchTo, LabelTakes, FuncAt;
    var fr := Top(s.frames);
    CtxToCaller(ModOf(M, y.inst).types, Body(M, B, y.inst, y.fidx), FuncAt(M, y.inst, y.fidx).start, y.ctxs,
                s.labels[fr.labelidx..], fr.height, y.code, p, pay, li);
    match Exactly(ModOf(M, y.inst).types, y.ctxs, pay, li)
    case ToCaller => CatchToCaller(M, B, y, s, st, p, li, csz, exn, pay);
    case To(_, _, _) => CatchInside(M, B, y, s, st, p, li, csz, exn, pay);
  }

  lemma CatchToCaller(M: Machine, B: Bodies, y: Acts, s: State, st: seq<cell>, p: nat, li: nat, csz: nat, exn: seq<cell>, pay: seq<cell>)
    requires ProgramOk(M, B) && y.Wasm? && Repr(M, B, y, s, st, p) && FuncOk(M, y.inst, y.fidx)
    requires |st| <= |s.stack| && s.stack[..|st|] == st && s.resume == Fresh
    requires csz <= EXN_CELLS && |exn| == EXNREF_CELLS && PayIs(pay, csz, exn)
    requires FuncAt(M, y.inst, y.fidx).typ.results == |pay|
    ensures FrameFits(s) && Deliver(y.below, pay, s.world).On?
    ensures var o := Quiet(LandExn(FrameExit(M, s), Top(s.frames).height, Top(s.frames).nresults, csz, exn));
            o.Go? && Rel(M, B, Deliver(y.below, pay, s.world).c, o.s)
  {
    hide ProgramOk, CachesOk, InstOk, FrameExit, CtxCells, Rel, PayIs, RelCtxs;
    var fr := Top(s.frames);
    assert fr.nresults == |pay|;
    LeaveFrameSt(M, B, y, s, st, p);
    hide RelActs;
    var s1 := FrameExit(M, s);
    LandedCells(s1.stack, fr.height, csz, exn, pay);
    assert s.stack[..|st|][..fr.height] == s.stack[..fr.height];
    var s2 := s1.(stack := st[..fr.height] + pay, event := NoEvent);
    SameCaches(M, B, s1, s2);
    DeliverSim(M, B, y.below, pay, s.world, s2, st[..fr.height]);
  }

  lemma CatchInside(M: Machine, B: Bodies, y: Acts, s: State, st: seq<cell>, p: nat, l: nat, csz: nat, exn: seq<cell>, pay: seq<cell>)
    requires ProgramOk(M, B) && y.Wasm? && Repr(M, B, y, s, st, p) && FuncOk(M, y.inst, y.fidx)
    requires |st| <= |s.stack| && s.stack[..|st|] == st && s.resume == Fresh
    requires csz <= EXN_CELLS && |exn| == EXNREF_CELLS && PayIs(pay, csz, exn)
    requires Exactly(ModOf(M, y.inst).types, y.ctxs, pay, l).To?
    ensures FrameFits(s) && l < |s.labels| - Top(s.frames).labelidx
    ensures var o := Quiet(Catch(M, s, l, csz, exn));
            var t := Exactly(ModOf(M, y.inst).types, y.ctxs, pay, l);
            o.Go? && Rel(M, B, Conf(y.(ctxs := t.ctxs, seg := t.seg, code := t.code), Run, s.world), o.s)
  {
    hide ProgramOk, CachesOk, InstOk, CachedBlockExit, BranchTo, FrameExit, Opens, LandExn, PayIs, Rel, RelCtxs, CtxCells, LabelTakes, LabelArity, ExitOf;
    var fr := Top(s.frames);
    var L, base := s.labels[fr.labelidx..], st[..fr.height];
    var types, body, start := ModOf(M, y.inst).types, Body(M, B, y.inst, y.fidx), FuncAt(M, y.inst, y.fidx).start;
    var b, tl, pre := CtxBranch(types, body, start, y.ctxs, L, fr.height, y.code, p, pay, l);
    var lb := L[|L| - l - 1];
    assert lb == s.labels[|s.labels| - l - 1];
    OpensBlk(body, start, b, tl, lb.pc);
    assert Running(M, B, s, b, tl, lb.pc);
    CachedExitIs(M, B, s, b, tl, lb.pc, false);
    var r := CachedBlockExit(M, s, lb.pc, false);
    assert |pay| == r.e.arity;
    assert !r.e.stay by { ExitNoStay(types, b, lb.pc); }
    var t := BranchTo(types, y.ctxs, pay, l);
    var s1 := r.s.(labels := s.labels[..|s.labels| - l - 1]);
    assert BranchToLabel(M, s, l, false) == Left(s1, fr.height + |pre|, r.e.arity);
    SameCaches(M, B, r.s, s1);
    assert TopN(pay, |pay|) == pay;
    assert st == base + CtxCells(y.ctxs, y.seg) && CtxCells(y.ctxs, y.seg)[..|pre|] == pre;
    assert s.labels[fr.labelidx..][..|s.labels| - fr.labelidx - l - 1] == L[..|L| - l - 1];
    LandInside(M, B, y, s, st, p, l, csz, exn, pay, pre, s1, t);
  }

  lemma ExitNoStay(types: seq<Sig>, b: Instr, q: nat)
    requires b.Blk? && BlockType(types, b).Some?
    ensures !ExitOf(types, b, q, false).stay
  {
  }

  /** The payload replaces everything above the target's operands. */
  lemma LandInside(M: Machine, B: Bodies, y: Acts, s: State, st: seq<cell>, p: nat, l: nat, csz: nat, exn: seq<cell>,
                   pay: seq<cell>, pre: seq<cell>, s1: State, t: Target)
    requires ProgramOk(M, B) && y.Wasm? && Repr(M, B, y, s, st, p) && FuncOk(M, y.inst, y.fidx)
    requires |st| <= |s.stack| && s.stack[..|st|] == st && s.resume == Fresh && s.frames != []
    requires csz <= EXN_CELLS && |exn| == EXNREF_CELLS && PayIs(pay, csz, exn) && t.To?
    requires var fr := Top(s.frames);
             && l < |s.labels| - fr.labelidx && fr.height + |pre| <= |st| && st[..fr.height + |pre|] == st[..fr.height] + pre
             && s1 == s.(labels := s.labels[..|s.labels| - l - 1], p := s1.p, jcache := s1.jcache, cache := s1.cache)
             && RelCtxs(ModOf(M, y.inst).types, Body(M, B, y.inst, y.fidx), FuncAt(M, y.inst, y.fidx).start,
                        t.ctxs, s.labels[fr.labelidx..][..|s.labels| - fr.labelidx - l - 1], fr.height, t.code, s1.p)
             && CtxCells(t.ctxs, t.seg) == pre + pay
    requires StateOk(M, s1) && CachesOk(M, B, s1)
    ensures var o := Quiet(LandExn(s1, Top(s.frames).height + |pre|, |pay|, csz, exn));
            o.Go? && Rel(M, B, Conf(y.(ctxs := t.ctxs, seg := t.seg, code := t.code), Run, s.world), o.s)
  {
    hide ProgramOk, CachesOk, InstOk, PayIs, Rel, RelCtxs, CtxCells;
    var fr := Top(s.frames);
    LandedCells(s1.stack, fr.height + |pre|, csz, exn, pay);
    assert s1.stack[..fr.height + |pre|] == st[..fr.height + |pre|] by { assert s.stack[..|st|][..fr.height + |pre|] == s.stack[..fr.height + |pre|]; }
    var s0 := s.(stack := st, event := NoEvent);
    var s2 := s1.(stack := (st[..fr.height] + pre) + pay, event := NoEvent);
    var a2 := y.(ctxs := t.ctxs, seg := t.seg, code := t.code);
    SameCaches(M, B, s, s0);
    SameCaches(M, B, s1, s2);
    assert s2.stack == st[..fr.height] + (pre + pay);
    assert s2.labels[..fr.labelidx] == s.labels[..fr.labelidx];
    assert s2.labels[fr.labelidx..] == s.labels[fr.labelidx..][..|s.labels| - fr.labelidx - l - 1];
    Reframe(M, B, y, s0, p, a2, s2);
  }

  // ---- the whole of do_exception ----

  /** do_exception from a state whose operands are those of `a` and an exnref. */
  lemma ExceptionSim(M: Machine, B: Bodies, a: Acts, s: State, st: seq<cell>, exn: seq<cell>, p: nat, pad: seq<cell>)
    requires ProgramOk(M, B) && a.Wasm? && Repr(M, B, a, s, st, p) && s.stack == st + exn && |exn| == EXNREF_CELLS
    requires s.event == Exception && s.resume == Fresh && |pad| == EXN_CELLS
    ensures Follows(M, B, RaiseExn(M, a, exn, s.world), Micro(M, s, pad))
  {
    hide ProgramOk, CachesOk, InstOk, Rel, RelCtxs, FindCatch, Raise, Unwind, Catch, Agree;
    assert s.stack[|st|..] == exn && s.stack[..|st|] == st;
    assert s.frames != [];
    var tag := TagOf(exn);
    if tag != 0 && tag in M.tagCells && M.tagCells[tag] <= EXN_CELLS {
      var csz := M.tagCells[tag];
      var s0 := s.(stack := st);
      assert s.frames[..|s.frames|] == s.frames && s.labels[..|s.labels|] == s.labels;
      var d := RaiseFind(M, B, a, s0, |s.frames|, |s.labels|, s.locals, st, p, s.restarts, tag, csz, exn, s.world);
      SameCaches(M, B, s, s0);
      RaisedSim(M, B, a, s0, st, exn, p, tag, csz, d);
    }
  }

  lemma RaisedSim(M: Machine, B: Bodies, a: Acts, s: State, st: seq<cell>, exn: seq<cell>, p: nat, tag: nat, csz: nat, d: Landing)
    requires ProgramOk(M, B) && a.Wasm? && Repr(M, B, a, s, st, p) && s.stack == st && |exn| == EXNREF_CELLS && csz <= EXN_CELLS
    requires s.resume == Fresh && s.frames != [] && s.bottom < |s.frames|
    requires Agree(M, a, Raise(M, a, tag, csz, exn, s.world), FindBelow(M, s, tag, |s.frames|, |s.labels|), |s.frames|, csz, exn, s.world, d)
    ensures Follows(M, B, Raise(M, a, tag, csz, exn, s.world),
              Quiet(match FindCatch(M, s, tag, |s.labels|, |s.frames| - 1, |s.labels|)
                    case BadCatch => Stuck
                    case NotFound => Trapped(UncaughtException)
                    case Found(fi, li, all) =>
                      match Unwind(M, s, fi + 1)
                      case None => Stuck
                      case Some(s1) => Catch(M, s1, li, if all then 0 else csz, exn)))
  {
    hide ProgramOk, CachesOk, InstOk, Rel, RelActs, FindCatch, Raise, Unwind, Catch, PayIs, CatchIn;
    if Raise(M, a, tag, csz, exn, s.world).On? {
      var t, st2, q := UnwindSim(M, B, a, s, st, p, d.n);
      CatchSim(M, B, d.y, t, st2, q, d.li, if d.all then 0 else csz, exn, d.pay);
    }
  }
}
