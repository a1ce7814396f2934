/**
  Leaving frames and taking branches on whole states.
 */
module Returns {
  import opened Leb
  import opened Code
  import opened Jumps
  import opened Machine
  import opened Structured
  import opened Relation
  import opened Exits
  import opened Branches

  /** The activations `acts` are represented by `s` when its stack is `st` and its pc `p`. */
  ghost predicate Repr(M: Machine, B: Bodies, acts: Acts, s: State, st: seq<cell>, p: nat)
    requires ProgramOk(M, B)
  {
    && StateOk(M, s) && CachesOk(M, B, s)
    && (s.frames != [] ==> s.inst == Top(s.frames).inst)
    && RelActs(M, B, acts, s.frames, s.labels, s.locals, st, p, s.restarts, s.bottom)
  }

  /** Without frames the pc does not matter. */
  lemma {:induction false} PcIrrelevant(M: Machine, B: Bodies, acts: Acts, labels: seq<Label>, locals: seq<cell>,
                                        stack: seq<cell>, p: nat, q: nat, restarts: seq<Restart>, bottom: nat)
    requires ProgramOk(M, B) && RelActs(M, B, acts, [], labels, locals, stack, p, restarts, bottom)
    ensures RelActs(M, B, acts, [], labels, locals, stack, q, restarts, bottom)
    decreases acts
  {
    hide ProgramOk, FrameRel, FinstOk;
    if acts.Host? {
      PcIrrelevant(M, B, acts.below, labels, locals, stack[..|stack| - |acts.params|], p, q,
                   Pop(restarts), Top(restarts).savedBottom);
    }
  }

  /** Changing the current frame keeps the caches sound: a change of module empties them. */
  lemma SetFrameCaches(M: Machine, B: Bodies, s: State, fr: Frame)
    requires ProgramOk(M, B) && StateOk(M, s) && CachesOk(M, B, s) && InstOk(M, fr.inst)
    ensures CachesOk(M, B, SetCurrentFrame(M, s, fr)) && |SetCurrentFrame(M, s, fr).cache| == CACHE_SIZE
  {
    hide EntryFor, RefTable, ModuleOk;
    if M.insts[s.inst].mod != M.insts[fr.inst].mod {
      forall k | 0 <= k < CACHE_SIZE ensures EmptyCache()[k].key == 0 {}
    }
  }

  /** frame_exit leaves the caller's activations represented. */
  lemma LeaveFrame(M: Machine, B: Bodies, a: Acts, s: State, p: nat)
    requires ProgramOk(M, B) && a.Wasm? && Repr(M, B, a, s, s.stack, p)
    ensures FrameFits(s) && Top(s.frames).height <= |s.stack|
    ensures var s1 := FrameExit(M, s);
            && s1 == s.(frames := Pop(s.frames), labels := s1.labels, locals := s1.locals,
                        inst := s1.inst, p := s1.p, jcache := s1.jcache, cache := s1.cache)
            && Repr(M, B, a.below, s1, s.stack[..Top(s.frames).height], s1.p)
    ensures s.stack[Top(s.frames).height..] == CtxCells(a.ctxs, a.seg)
    ensures Top(s.frames).nresults == FuncAt(M, a.inst, a.fidx).typ.results
  {
    hide ProgramOk, RelCtxs, CtxCells, InstOk, EntryOk, CachesOk;
    var fr := Top(s.frames);
    var s0 := s.(frames := Pop(s.frames));
    if s0.frames == [] {
      var s1 := FrameExit(M, s);
      PcIrrelevant(M, B, a.below, s.labels[..fr.labelidx], s.locals[..fr.localidx], s.stack[..fr.height],
                   fr.callerpc, s.p, s.restarts, s.bottom);
      SameCaches(M, B, s, s1);
    } else {
      assert FuncOk(M, Top(s0.frames).inst, Top(s0.frames).fidx);
      SameCaches(M, B, s, s0);
      SetFrameCaches(M, B, s0, Top(s0.frames));
      SameCaches(M, B, SetCurrentFrame(M, s0, Top(s0.frames)), FrameExit(M, s));
    }
  }

  /** Soundness of the caches depends on the instance and the caches only. */
  lemma SameCaches(M: Machine, B: Bodies, s: State, t: State)
    requires ProgramOk(M, B) && InstOk(M, s.inst) && CachesOk(M, B, s)
    requires t.inst == s.inst && t.jcache == s.jcache && t.cache == s.cache
    ensures CachesOk(M, B, t)
  {
    hide EntryOk, ModuleOk;
  }

  /** Results pushed on the stack are delivered to the activation on top. */
  lemma DeliverSim(M: Machine, B: Bodies, acts: Acts, results: seq<cell>, w: World, s: State, st: seq<cell>)
    requires ProgramOk(M, B) && Repr(M, B, acts, s, st, s.p)
    requires s.stack == st + results && s.event == NoEvent && s.resume == Fresh && s.world == w
    ensures Deliver(acts, results, w).On? && Rel(M, B, Deliver(acts, results, w).c, s)
  {
    hide ProgramOk, StateOk, CachesOk, RelCtxs;
    if acts.Wasm? {
      var fr := Top(s.frames);
      var a2 := acts.(seg := acts.seg + results);
      CellsAppend(acts.ctxs, acts.seg, results);
      assert s.stack[..fr.height] == st[..fr.height];
      assert s.stack[fr.height..] == st[fr.height..] + results;
      assert FrameRel(M, B, a2, fr, s.labels, s.locals, s.stack, s.p);
    } else {
      assert s.stack[|s.stack| - |results|..] == results;
      assert s.stack[..|s.stack| - |results|] == st;
    }
  }

  /** Returning from the function, with the top operands as results. */
  lemma ReturnSim(M: Machine, B: Bodies, a: Acts, s: State, p: nat)
    requires ProgramOk(M, B) && a.Wasm? && Repr(M, B, a, s, s.stack, p) && FuncOk(M, a.inst, a.fidx)
    requires s.resume == Fresh && ReturnFrom(M, a, a.seg, s.world).On?
    ensures var o := Quiet(Land(FrameExit(M, s), Top(s.frames).height, Top(s.frames).nresults));
            FrameFits(s) && o.Go? && Rel(M, B, ReturnFrom(M, a, a.seg, s.world).c, o.s)
  {
    hide ProgramOk, FrameExit, RelActs, Rel, CachesOk, InstOk;
    LeaveFrame(M, B, a, s, p);
    var fr := Top(s.frames);
    var n, s1, base := fr.nresults, FrameExit(M, s), s.stack[..fr.height];
    assert s.stack == base + CtxCells(a.ctxs, a.seg);
    CellsTop(base, a.ctxs, a.seg, n);
    var s2 := s1.(stack := base + TopN(a.seg, n), event := NoEvent);
    SameCaches(M, B, s1, s2);
    DeliverSim(M, B, a.below, TopN(a.seg, n), s.world, s2, base);
  }

  /** do_branch follows a structured branch, in the function or out of it. */
  lemma BranchSim(M: Machine, B: Bodies, a: Acts, s: State, p: nat, l: nat)
    requires ProgramOk(M, B) && a.Wasm? && Repr(M, B, a, s, s.stack, p) && FuncOk(M, a.inst, a.fidx)
    requires s.resume == Fresh && TakeBranch(M, a, a.seg, l, s.world).On?
    ensures var o := Quiet(DoBranch(M, s, l, false));
            o.Go? && Rel(M, B, TakeBranch(M, a, a.seg, l, s.world).c, o.s)
  {
    hide ProgramOk, Rel, CachesOk, FrameExit, BranchTo, BranchToLabel, InstOk;
    var fr := Top(s.frames);
    var L := s.labels[fr.labelidx..];
    var types, body, start := ModOf(M, a.inst).types, Body(M, B, a.inst, a.fidx), FuncAt(M, a.inst, a.fidx).start;
    hide RelCtxs;
    CtxToCaller(types, body, start, a.ctxs, L, fr.height, a.code, p, a.seg, l);
    match BranchTo(types, a.ctxs, a.seg, l)
    case ToCaller => ReturnSim(M, B, a, s, p);
    case To(_, _, _) => BranchInside(M, B, a, s, p, l);
  }

  /** A branch that leaves a block, once its label is found. */
  lemma LeftBranch(M: Machine, s: State, l: nat, s1: State, h: nat, arity: nat)
    requires StateOk(M, s) && FrameFits(s) && l < |s.labels| - Top(s.frames).labelidx
    requires BranchToLabel(M, s, l, false) == Left(s1, h, arity) && h + arity <= |s1.stack|
    ensures Quiet(DoBranch(M, s, l, false)) == Go(s1.(stack := Rewound(s1.stack, h, arity), event := NoEvent))
  {
    hide StateOk, BranchToLabel, FrameExit;
  }

  /** The stack that a branch leaves: what is below the label, and the top operands. */
  lemma LandedStack(base: seq<cell>, ctxs: Ctxs, seg: seq<cell>, pre: seq<cell>, n: nat)
    requires n <= |seg| && |pre| <= |CtxCells(ctxs, Under(seg, n))| && CtxCells(ctxs, Under(seg, n))[..|pre|] == pre
    ensures var stack := base + CtxCells(ctxs, seg);
            |base| + |pre| + n <= |stack| && Rewound(stack, |base| + |pre|, n) == base + (pre + TopN(seg, n))
  {
    CellsTop(base, ctxs, seg, n);
    hide CtxCells;
    var stack, low := base + CtxCells(ctxs, seg), CtxCells(ctxs, Under(seg, n));
    assert stack[..|base| + |pre|] == base + low[..|pre|];
  }

  /** The label that a branch finds, and where it leaves the machine. */
  lemma Landing(M: Machine, B: Bodies, a: Acts, s: State, p: nat, l: nat) returns (s1: State, h: nat, n: nat)
    requires ProgramOk(M, B) && a.Wasm? && Repr(M, B, a, s, s.stack, p) && FuncOk(M, a.inst, a.fidx)
    requires BranchTo(ModOf(M, a.inst).types, a.ctxs, a.seg, l).To?
    ensures StateOk(M, s) && FrameFits(s) && l < |s.labels| - Top(s.frames).labelidx && Top(s.frames).height <= |s.stack|
    ensures BranchToLabel(M, s, l, false) == Left(s1, h, n) && h + n <= |s.stack|
    ensures s1 == s.(p := s1.p, labels := s.labels[..|s.labels| - l - 1], jcache := s1.jcache, cache := s1.cache)
    ensures StateOk(M, s1) && CachesOk(M, B, s1)
    ensures var fr, t := Top(s.frames), BranchTo(ModOf(M, a.inst).types, a.ctxs, a.seg, l);
            && Rewound(s.stack, h, n) == s.stack[..fr.height] + CtxCells(t.ctxs, t.seg)
            && RelCtxs(ModOf(M, a.inst).types, Body(M, B, a.inst, a.fidx), FuncAt(M, a.inst, a.fidx).start,
                       t.ctxs, s1.labels[fr.labelidx..], fr.height, t.code, s1.p)
  {
    hide ProgramOk, RelCtxs, CachesOk, InstOk, CachedBlockExit, BranchTo, Opens, CtxCells, Rewound, BlockType, LabelArity;
    var fr := Top(s.frames);
    var L, base := s.labels[fr.labelidx..], s.stack[..fr.height];
    assert FrameRel(M, B, a, fr, s.labels, s.locals, s.stack, p);
    hide RelActs;
    var types, body, start := ModOf(M, a.inst).types, Body(M, B, a.inst, a.fidx), FuncAt(M, a.inst, a.fidx).start;
    var b, tl, pre := CtxBranch(types, body, start, a.ctxs, L, fr.height, a.code, p, a.seg, l);
    var lb := L[|L| - l - 1];
    assert lb == s.labels[|s.labels| - l - 1];
    assert Running(M, B, s, b, tl, lb.pc);
    OpensBlk(body, start, b, tl, lb.pc);
    CachedExitIs(M, B, s, b, tl, lb.pc, false);
    var r := CachedBlockExit(M, s, lb.pc, false);
    s1, h, n := r.s.(labels := s.labels[..|s.labels| - l - 1]), fr.height + |pre|, r.e.arity;
    assert s.stack == base + CtxCells(a.ctxs, a.seg);
    LandedStack(base, a.ctxs, a.seg, pre, n);
    assert s1.labels[fr.labelidx..] == L[..|L| - l - 1];
    SameCaches(M, B, r.s, s1);
  }

  lemma BranchInside(M: Machine, B: Bodies, a: Acts, s: State, p: nat, l: nat)
    requires ProgramOk(M, B) && a.Wasm? && Repr(M, B, a, s, s.stack, p) && FuncOk(M, a.inst, a.fidx)
    requires s.resume == Fresh && BranchTo(ModOf(M, a.inst).types, a.ctxs, a.seg, l).To?
    ensures l < |s.labels| - Top(s.frames).labelidx
    ensures var o := Quiet(DoBranch(M, s, l, false));
            o.Go? && Rel(M, B, TakeBranch(M, a, a.seg, l, s.world).c, o.s)
  {
    hide ProgramOk, Rel, RelCtxs, CachesOk, InstOk, BranchTo, DoBranch, Quiet, Rewound, CtxCells;
    var fr := Top(s.frames);
    var s1, h, n := Landing(M, B, a, s, p, l);
    LeftBranch(M, s, l, s1, h, n);
    var t := BranchTo(ModOf(M, a.inst).types, a.ctxs, a.seg, l);
    var s2 := s1.(stack := Rewound(s.stack, h, n), event := NoEvent);
    SameCaches(M, B, s1, s2);
    assert s2.labels[..fr.labelidx] == s.labels[..fr.labelidx];
    assert s2.stack[..fr.height] == s.stack[..fr.height] && s2.stack[fr.height..] == CtxCells(t.ctxs, t.seg);
    Reframe(M, B, a, s, p, a.(ctxs := t.ctxs, seg := t.seg, code := t.code), s2);
  }

  lemma OpensBlk(c: Code, p: nat, b: Instr, tl: Code, q: nat)
    requires Opens(c, p, b, tl, q)
    ensures b.Blk?
  {
  }

  /** The same frame with other operands, labels and code. */
  lemma Reframe(M: Machine, B: Bodies, a: Acts, s: State, p: nat, a2: Acts, s2: State)
    requires ProgramOk(M, B) && a.Wasm? && Repr(M, B, a, s, s.stack, p)
    requires a2.Wasm? && a2.inst == a.inst && a2.fidx == a.fidx && a2.below == a.below
    requires s2.frames == s.frames && s2.restarts == s.restarts && s2.bottom == s.bottom && s2.inst == s.inst
    requires s2.event == NoEvent && s2.resume == Fresh
    requires StateOk(M, s2) && CachesOk(M, B, s2)
    requires var fr := Top(s.frames);
             && fr.labelidx <= |s2.labels| && s2.labels[..fr.labelidx] == s.labels[..fr.labelidx]
             && fr.localidx <= |s2.locals| && s2.locals[..fr.localidx] == s.locals[..fr.localidx]
             && fr.height <= |s2.stack| && s2.stack[..fr.height] == s.stack[..fr.height]
             && s2.locals[fr.localidx..] == a2.locals && s2.stack[fr.height..] == CtxCells(a2.ctxs, a2.seg)
             && RelCtxs(ModOf(M, a.inst).types, Body(M, B, a.inst, a.fidx), FuncAt(M, a.inst, a.fidx).start,
                        a2.ctxs, s2.labels[fr.labelidx..], fr.height, a2.code, s2.p)
    ensures Rel(M, B, Conf(a2, Run, s2.world), s2) && Repr(M, B, a2, s2, s2.stack, s2.p)
  {
    hide ProgramOk, RelCtxs, CachesOk, InstOk, CtxCells;
    assert FrameRel(M, B, a2, Top(s.frames), s2.labels, s2.locals, s2.stack, s2.p);
  }
}
