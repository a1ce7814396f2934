/**
  A call does not see what is below it. So a tail call does what a call followed
  by a return does (lib/exec.c:424-492): both hand the callee's results to the
  caller of the function that makes the call.
 */
module Framing {
  import opened Leb
  import opened Code
  import opened Machine
  import opened Structured

  /** Put the activations `acts` on top of `base`. */
  function Graft(acts: Acts, base: Acts): Acts {
    match acts
    case Empty => base
    case Wasm(inst, fidx, locals, ctxs, seg, code, below) => Wasm(inst, fidx, locals, ctxs, seg, code, Graft(below, base))
    case Host(func, params, user, adj, below) => Host(func, params, user, adj, Graft(below, base))
  }

  function Over(c: Conf, base: Acts): Conf { c.(acts := Graft(c.acts, base)) }

  lemma {:induction false} GraftSize(acts: Acts, base: Acts)
    ensures |ActCells(Graft(acts, base))| == |ActCells(base)| + |ActCells(acts)|
    ensures Depth(Graft(acts, base)) == Depth(base) + Depth(acts)
    decreases acts
  {
    hide CtxCells;
    match acts
    case Empty =>
    case Wasm(_, _, _, _, _, _, below) => GraftSize(below, base);
    case Host(_, _, _, _, below) => GraftSize(below, base);
  }

  /** `m` is `M` with no more room than `M` has above `base`. */
  ghost predicate RoomAbove(M: Machine, m: Machine, base: Acts) {
    && m == M.(maxFrames := m.maxFrames, maxStack := m.maxStack)
    && m.maxFrames + Depth(base) <= M.maxFrames
    && m.maxStack + |ActCells(base)| <= M.maxStack
  }

  /** What a step over `base` does: the step, or the delivery of its results. */
  function Lifted(n: Next, base: Acts): Next {
    match n
    case On(c) =>
      if c.acts == Empty && c.mode.Returned? then Deliver(base, c.mode.results, c.world) else On(Over(c, base))
    case _ => n
  }

  /** Traps that do not depend on what is below: neither on its room nor on its handlers. */
  predicate OwnTrap(id: TrapId) { id != TooManyFrames && id != TooManyStackCells && id != UncaughtException }

  /** The step goes on, or traps of its own. */
  predicate Stands(n: Next) { n.On? || (n.Fails? && OwnTrap(n.id)) }

  lemma DeliverFramed(acts: Acts, base: Acts, results: seq<cell>, w: World)
    ensures Deliver(Graft(acts, base), results, w) == Lifted(Deliver(acts, results, w), base)
  {
  }

  lemma ReturnFramed(M: Machine, m: Machine, a: Acts, seg: seq<cell>, w: World, base: Acts)
    requires RoomAbove(M, m, base) && a.Wasm? && FuncOk(M, a.inst, a.fidx)
    ensures ReturnFrom(M, Graft(a, base), seg, w) == Lifted(ReturnFrom(m, a, seg, w), base)
  {
    hide Deliver, Lifted;
    var n := FuncAt(M, a.inst, a.fidx).typ.results;
    if |seg| < n { WrongLifted(base); } else { DeliverFramed(a.below, base, TopN(seg, n), w); }
  }

  lemma WrongLifted(base: Acts)
    ensures Lifted(Wrong, base) == Wrong
  {
  }

  lemma BranchFramed(M: Machine, m: Machine, a: Acts, seg: seq<cell>, l: nat, w: World, base: Acts)
    requires RoomAbove(M, m, base) && a.Wasm? && FuncOk(M, a.inst, a.fidx)
    ensures TakeBranch(M, Graft(a, base), seg, l, w) == Lifted(TakeBranch(m, a, seg, l, w), base)
  {
    hide BranchTo, ReturnFrom;
    ReturnFramed(M, m, a, seg, w, base);
  }

  /** Unwinding that finds a handler above `base` finds it over `base` too. */
  lemma {:induction false} RaiseFramed(M: Machine, m: Machine, acts: Acts, tag: nat, csz: nat, exn: seq<cell>, w: World, base: Acts)
    requires RoomAbove(M, m, base) && csz <= |exn| && Raise(m, acts, tag, csz, exn, w).On?
    ensures Raise(M, Graft(acts, base), tag, csz, exn, w) == Lifted(Raise(m, acts, tag, csz, exn, w), base)
    decreases acts
  {
    hide HandleIn, Deliver;
    var types, tags := ModOf(m, acts.inst).types, m.insts[acts.inst].tags;
    match HandleIn(types, tags, acts.ctxs, tag, csz, exn) {
      case Unhandled => RaiseFramed(M, m, acts.below, tag, csz, exn, w, base);
      case Handled(t, pay) =>
        match t {
          case Nowhere =>
          case ToCaller => DeliverFramed(acts.below, base, pay, w);
          case To(_, _, _) =>
        }
    }
  }

  lemma RaiseExnFramed(M: Machine, m: Machine, acts: Acts, exn: seq<cell>, w: World, base: Acts)
    requires RoomAbove(M, m, base) && |exn| == EXNREF_CELLS && Stands(RaiseExn(m, acts, exn, w))
    ensures RaiseExn(M, Graft(acts, base), exn, w) == Lifted(RaiseExn(m, acts, exn, w), base)
  {
    hide Raise, TagOf;
    var tag := TagOf(exn);
    if tag != 0 {
      RaiseTraps(m, acts, tag, m.tagCells[tag], exn, w);
      RaiseFramed(M, m, acts, tag, m.tagCells[tag], exn, w, base);
    }
  }

  lemma {:induction false} RaiseTraps(M: Machine, acts: Acts, tag: nat, csz: nat, exn: seq<cell>, w: World)
    requires csz <= |exn|
    ensures var r := Raise(M, acts, tag, csz, exn, w); r.Fails? ==> r.id == UncaughtException
    decreases acts
  {
    hide HandleIn, FuncOk;
    if acts.Wasm? { RaiseTraps(M, acts.below, tag, csz, exn, w); }
  }

  // ---- exceptions that nobody catches ----

  /** Is a host function waiting? It stops the search for a handler. */
  predicate Waits(acts: Acts) { acts.Host? || (acts.Wasm? && Waits(acts.below)) }

  /** What goes on to be raised below `acts`. */
  function RaiseBelow(M: Machine, acts: Acts, base: Acts, exn: seq<cell>, w: World): Next
    requires |exn| == EXNREF_CELLS
  {
    if Waits(acts) then Fails(UncaughtException) else RaiseExn(M, base, exn, w)
  }

  lemma {:induction false} RaiseEscapes(M: Machine, m: Machine, acts: Acts, tag: nat, csz: nat, exn: seq<cell>, w: World, base: Acts)
    requires RoomAbove(M, m, base) && csz <= |exn| && Raise(m, acts, tag, csz, exn, w) == Fails(UncaughtException)
    ensures Raise(M, Graft(acts, base), tag, csz, exn, w) == if Waits(acts) then Fails(UncaughtException) else Raise(M, base, tag, csz, exn, w)
    decreases acts
  {
    hide HandleIn;
    if acts.Wasm? { RaiseEscapes(M, m, acts.below, tag, csz, exn, w, base); }
  }

  lemma RaiseExnEscapes(M: Machine, m: Machine, acts: Acts, exn: seq<cell>, w: World, base: Acts)
    requires RoomAbove(M, m, base) && |exn| == EXNREF_CELLS && RaiseExn(m, acts, exn, w) == Fails(UncaughtException)
    ensures RaiseExn(M, Graft(acts, base), exn, w) == RaiseBelow(M, acts, base, exn, w)
  {
    hide Raise, TagOf, Waits;
    RaiseEscapes(M, m, acts, TagOf(exn), m.tagCells[TagOf(exn)], exn, w, base);
  }

  /** The exception that a step raises, if it is one that does. */
  function Raised(M: Machine, c: Conf, pad: seq<cell>): seq<cell>
    requires MachineOk(M)
  {
    if !c.acts.Wasm? || c.acts.code.Nil? || !c.acts.code.hd.Leaf? || !InstOk(M, c.acts.inst) then []
    else match c.acts.code.hd.leaf
      case Throw(i) =>
        if !IsU32(i) || U32(i) >= |M.insts[c.acts.inst].tags| then []
        else
          var t := M.insts[c.acts.inst].tags[U32(i)];
          assert TagOk(M, t);
          var n := M.tagCells[t];
          if n <= |c.acts.seg| && n <= |pad| then TopN(c.acts.seg, n) + (pad[n..] + TagCells(t)) else []
      case ThrowRef => if EXNREF_CELLS <= |c.acts.seg| then TopN(c.acts.seg, EXNREF_CELLS) else []
      case _ => []
  }

  /** A step that throws what nobody catches above an empty base throws it to `base`. */
  lemma ThrowFramed(M: Machine, m: Machine, B: Bodies, c: Conf, pad: seq<cell>, base: Acts)
    requires RoomAbove(M, m, base) && MachineOk(M) && MachineOk(m) && |pad| == EXN_CELLS
    requires Step(m, B, c, pad) == Fails(UncaughtException)
    ensures |Raised(m, c, pad)| == EXNREF_CELLS
    ensures Step(M, B, Over(c, base), pad) == RaiseBelow(M, c.acts, base, Raised(m, c, pad), c.world)
  {
    hide MachineOk, InstOk, RaiseExn, U32, IsU32, TakeBranch, ReturnFrom, RaiseBelow, StepCall, StepIf, Enter, LeaveBlock;
    CallNotThrows(m, B, c);
    if c.mode.Run? {
      RunThrows(m, c.acts, c.world, pad);
      SameOk(M, m, c.acts.inst, c.acts.fidx);
      InRange(M, c.acts.inst);
      var a := c.acts;
      match a.code.hd.leaf {
        case Throw(i) =>
          TagInRange(m, a.inst, U32(i));
          var t := m.insts[a.inst].tags[U32(i)];
          var n := m.tagCells[t];
          RaiseExnEscapes(M, m, a.(seg := Under(a.seg, n)), TopN(a.seg, n) + (pad[n..] + TagCells(t)), c.world, base);
          BelowSame(M, a, a.(seg := Under(a.seg, n)), base, Raised(m, c, pad), c.world);
        case ThrowRef =>
          RaiseExnEscapes(M, m, a.(seg := Under(a.seg, EXNREF_CELLS)), TopN(a.seg, EXNREF_CELLS), c.world, base);
          BelowSame(M, a, a.(seg := Under(a.seg, EXNREF_CELLS)), base, Raised(m, c, pad), c.world);
      }
    }
  }

  lemma BelowSame(M: Machine, a: Acts, a2: Acts, base: Acts, exn: seq<cell>, w: World)
    requires a.Wasm? && a2.Wasm? && a.below == a2.below && |exn| == EXNREF_CELLS
    ensures RaiseBelow(M, a, base, exn, w) == RaiseBelow(M, a2, base, exn, w)
  {
    hide RaiseExn;
  }

  lemma CallNotThrows(M: Machine, B: Bodies, c: Conf)
    requires MachineOk(M)
    ensures c.mode.Calling? ==> StepCall(M, B, c) != Fails(UncaughtException)
  {
    hide MachineOk, InstOk, ActCells, Depth;
  }

  /** Only throw and throw_ref raise exceptions. */
  lemma RunThrows(M: Machine, a: Acts, w: World, pad: seq<cell>)
    requires MachineOk(M) && a.Wasm? && FuncOk(M, a.inst, a.fidx) && |pad| == EXN_CELLS
    requires StepRun(M, a, w, pad) == Fails(UncaughtException)
    ensures a.code.Cons? && a.code.hd.Leaf? && LeafWf(a.code.hd.leaf) && (a.code.hd.leaf.Throw? || a.code.hd.leaf.ThrowRef?)
  {
    hide MachineOk, InstOk, RaiseExn, U32, IsU32, BranchTo, LeafWf;
  }

  lemma InRange(M: Machine, inst: nat)
    requires InstOk(M, inst)
    ensures inst < |M.insts|
  {
  }

  lemma SameOk(M: Machine, m: Machine, inst: nat, fidx: nat)
    requires m == M.(maxFrames := m.maxFrames, maxStack := m.maxStack)
    ensures FuncOk(m, inst, fidx) <==> FuncOk(M, inst, fidx)
  {
  }

  lemma SameFinst(M: Machine, m: Machine, f: nat)
    requires m == M.(maxFrames := m.maxFrames, maxStack := m.maxStack)
    ensures (FinstOk(m, f) <==> FinstOk(M, f)) && (FinstOk(M, f) ==> f < |M.finsts|)
  {
  }

  lemma TagInRange(M: Machine, inst: nat, i: nat)
    requires InstOk(M, inst) && i < |M.insts[inst].tags|
    ensures TagOk(M, M.insts[inst].tags[i])
  {
  }

  lemma LeafFramed(M: Machine, m: Machine, a: Acts, l: Leaf, tl: Code, w: World, pad: seq<cell>, base: Acts)
    requires RoomAbove(M, m, base) && MachineOk(M) && MachineOk(m) && a.Wasm? && FuncOk(m, a.inst, a.fidx) && FuncOk(M, a.inst, a.fidx)
    requires LeafWf(l) && |pad| == EXN_CELLS && Stands(StepLeaf(m, a, l, tl, w, pad))
    ensures StepLeaf(M, Graft(a, base), l, tl, w, pad) == Lifted(StepLeaf(m, a, l, tl, w, pad), base)
  {
    hide MachineOk, TakeBranch, ReturnFrom, RaiseExn, U32, IsU32, InstOk;
    InRange(M, a.inst);
    match l {
      case Br(i) => BranchFramed(M, m, a, a.seg, U32(i), w, base);
      case BrIf(i) => BranchFramed(M, m, a, Pop(a.seg), U32(i), w, base);
      case BrTable(_, table, dflt) => BranchFramed(M, m, a, Pop(a.seg), U32(TableEntry(table, dflt, Top(a.seg))), w, base);
      case Return => ReturnFramed(M, m, a, a.seg, w, base);
      case Throw(i) =>
        TagInRange(m, a.inst, U32(i));
        var t := m.insts[a.inst].tags[U32(i)];
        var n := m.tagCells[t];
        RaiseExnFramed(M, m, a.(seg := Under(a.seg, n)), TopN(a.seg, n) + (pad[n..] + TagCells(t)), w, base);
      case ThrowRef => RaiseExnFramed(M, m, a.(seg := Under(a.seg, EXNREF_CELLS)), TopN(a.seg, EXNREF_CELLS), w, base);
      case Plain(_) =>
      case Call(_) =>
      case ReturnCall(_) =>
    }
  }

  lemma EnterFramed(M: Machine, m: Machine, a: Acts, b: Instr, seg: seq<cell>, e: bool, tl: Code, w: World, base: Acts)
    requires RoomAbove(M, m, base) && a.Wasm? && FuncOk(M, a.inst, a.fidx) && FuncOk(m, a.inst, a.fidx) && b.Blk?
    ensures Enter(M, Graft(a, base), b, seg, e, tl, w) == Lifted(Enter(m, a, b, seg, e, tl, w), base)
  {
    hide BlockType, InstOk;
  }

  lemma IfFramed(M: Machine, m: Machine, a: Acts, b: Instr, tl: Code, w: World, base: Acts)
    requires RoomAbove(M, m, base) && a.Wasm? && FuncOk(M, a.inst, a.fidx) && FuncOk(m, a.inst, a.fidx) && b.Blk?
    ensures StepIf(M, Graft(a, base), b, tl, w) == Lifted(StepIf(m, a, b, tl, w), base)
  {
    hide BlockType, InstOk, Enter;
    if a.seg != [] {
      EnterFramed(M, m, a, b, Pop(a.seg), Top(a.seg) == 0, tl, w, base);
    }
  }

  lemma RunFramed(M: Machine, m: Machine, a: Acts, w: World, pad: seq<cell>, base: Acts)
    requires RoomAbove(M, m, base) && MachineOk(M) && MachineOk(m) && a.Wasm? && FuncOk(m, a.inst, a.fidx) && FuncOk(M, a.inst, a.fidx)
    requires |pad| == EXN_CELLS && Stands(StepRun(m, a, w, pad))
    ensures StepRun(M, Graft(a, base), w, pad) == Lifted(StepRun(m, a, w, pad), base)
  {
    hide MachineOk, StepLeaf, StepIf, Enter, ReturnFrom, BlockType, InstOk, LeafWf;
    match a.code {
      case Nil => ReturnFramed(M, m, a, a.seg, w, base);
      case Cons(i, tl) =>
        match i {
          case Leaf(l) => LeafFramed(M, m, a, l, tl, w, pad, base);
          case Blk(kind, _, _, _, _, _, _) =>
            if kind == KIf { IfFramed(M, m, a, i, tl, w, base); } else { EnterFramed(M, m, a, i, a.seg, false, tl, w, base); }
        }
    }
  }

  // ---- steps do not pass the limit on frames ----

  /** At most `n` activations of wasm functions. */
  predicate Shallow(x: Next, n: nat) { x.On? ==> Depth(x.c.acts) <= n }

  lemma DeliverDepth(acts: Acts, results: seq<cell>, w: World)
    ensures Shallow(Deliver(acts, results, w), Depth(acts))
  {
  }

  lemma BranchDepth(M: Machine, a: Acts, seg: seq<cell>, l: nat, w: World)
    requires a.Wasm? && FuncOk(M, a.inst, a.fidx)
    ensures Shallow(TakeBranch(M, a, seg, l, w), Depth(a)) && Shallow(ReturnFrom(M, a, seg, w), Depth(a))
  {
    hide BranchTo;
  }

  lemma {:induction false} RaiseDepth(M: Machine, acts: Acts, tag: nat, csz: nat, exn: seq<cell>, w: World)
    requires csz <= |exn|
    ensures Shallow(Raise(M, acts, tag, csz, exn, w), Depth(acts))
    decreases acts
  {
    hide HandleIn;
    if acts.Wasm? { RaiseDepth(M, acts.below, tag, csz, exn, w); }
  }

  lemma RaiseExnDepth(M: Machine, acts: Acts, exn: seq<cell>, w: World)
    requires |exn| == EXNREF_CELLS
    ensures Shallow(RaiseExn(M, acts, exn, w), Depth(acts))
  {
    hide Raise, TagOf;
    var tag := TagOf(exn);
    if tag in M.tagCells && M.tagCells[tag] <= EXN_CELLS { RaiseDepth(M, acts, tag, M.tagCells[tag], exn, w); }
  }

  lemma LeafDepth(M: Machine, a: Acts, l: Leaf, tl: Code, w: World, pad: seq<cell>)
    requires MachineOk(M) && a.Wasm? && FuncOk(M, a.inst, a.fidx) && LeafWf(l) && |pad| == EXN_CELLS
    ensures Shallow(StepLeaf(M, a, l, tl, w, pad), Depth(a))
  {
    hide MachineOk, TakeBranch, ReturnFrom, RaiseExn, U32, IsU32, InstOk;
    InRange(M, a.inst);
    match l {
      case Br(i) => BranchDepth(M, a, a.seg, U32(i), w);
      case BrIf(i) => if a.seg != [] { BranchDepth(M, a, Pop(a.seg), U32(i), w); }
      case BrTable(_, table, dflt) =>
        if a.seg != [] && IsU32(TableEntry(table, dflt, Top(a.seg))) {
          BranchDepth(M, a, Pop(a.seg), U32(TableEntry(table, dflt, Top(a.seg))), w);
        }
      case Return => BranchDepth(M, a, a.seg, 0, w);
      case Throw(i) =>
        if U32(i) < |M.insts[a.inst].tags| {
          TagInRange(M, a.inst, U32(i));
          var t := M.insts[a.inst].tags[U32(i)];
          var n := M.tagCells[t];
          if n <= |a.seg| { RaiseExnDepth(M, a.(seg := Under(a.seg, n)), TopN(a.seg, n) + (pad[n..] + TagCells(t)), w); }
        }
      case ThrowRef =>
        if EXNREF_CELLS <= |a.seg| { RaiseExnDepth(M, a.(seg := Under(a.seg, EXNREF_CELLS)), TopN(a.seg, EXNREF_CELLS), w); }
      case Plain(_) =>
      case Call(_) =>
      case ReturnCall(_) =>
    }
  }

  lemma RunDepth(M: Machine, a: Acts, w: World, pad: seq<cell>)
    requires MachineOk(M) && a.Wasm? && FuncOk(M, a.inst, a.fidx) && |pad| == EXN_CELLS
    ensures Shallow(StepRun(M, a, w, pad), Depth(a))
  {
    hide MachineOk, StepLeaf, ReturnFrom, BlockType, InstOk, LeafWf;
    match a.code {
      case Nil => BranchDepth(M, a, a.seg, 0, w);
      case Cons(i, tl) => if i.Leaf? && LeafWf(i.leaf) { LeafDepth(M, a, i.leaf, tl, w, pad); }
    }
  }

  lemma CallDepth(M: Machine, B: Bodies, c: Conf)
    requires MachineOk(M) && c.mode.Calling? && Depth(c.acts) <= M.maxFrames
    ensures Shallow(StepCall(M, B, c), M.maxFrames)
  {
    hide MachineOk, InstOk, ActCells, Deliver;
    var n := StepCall(M, B, c);
    if c.mode.func < |M.finsts| && M.finsts[c.mode.func].HostFunc? {
      var o := M.host(M.finsts[c.mode.func].h, c.mode.args, c.mode.resume, c.world);
      match o {
        case HDone(results, w) => DeliverDepth(c.acts, results, w);
        case HForward(_, _) => assert n.On? ==> n.c.acts == c.acts;
        case HCall(_, _, _, _) => assert n.On? ==> n.c.acts.Host? && n.c.acts.below == c.acts;
        case HTrap =>
      }
    } else {
      assert n.On? ==> n.c.acts.Wasm? && n.c.acts.below == c.acts && Depth(c.acts) != M.maxFrames;
    }
  }

  // ---- one step ----

  lemma CallFramed(M: Machine, m: Machine, B: Bodies, c: Conf, base: Acts)
    requires RoomAbove(M, m, base) && MachineOk(M) && MachineOk(m) && c.mode.Calling? && Depth(c.acts) <= m.maxFrames
    requires Stands(StepCall(m, B, c))
    ensures StepCall(M, B, Over(c, base)) == Lifted(StepCall(m, B, c), base)
    ensures Shallow(StepCall(m, B, c), m.maxFrames)
  {
    hide MachineOk, InstOk, Deliver, ActCells, Depth, FinstOk;
    SameFinst(M, m, c.mode.func);
    CallDepth(m, B, c);
    GraftSize(c.acts, base);
    var Calling(f, args, resume) := c.mode;
    if m.finsts[f].HostFunc? {
      match m.host(m.finsts[f].h, args, resume, c.world) {
        case HDone(results, w) => DeliverFramed(c.acts, base, results, w);
        case _ =>
      }
    }
  }

  /** A step that goes on above an empty base, or traps of its own, does the same above any base with room. */
  lemma StepFramed(M: Machine, m: Machine, B: Bodies, c: Conf, pad: seq<cell>, base: Acts)
    requires RoomAbove(M, m, base) && MachineOk(M) && MachineOk(m) && |pad| == EXN_CELLS
    requires Depth(c.acts) <= m.maxFrames && Stands(Step(m, B, c, pad))
    ensures Step(M, B, Over(c, base), pad) == Lifted(Step(m, B, c, pad), base)
    ensures Shallow(Step(m, B, c, pad), m.maxFrames)
  {
    hide MachineOk, StepRun, StepCall, InstOk, Deliver;
    match c.mode {
      case Run => SameOk(M, m, c.acts.inst, c.acts.fidx); RunFramed(M, m, c.acts, c.world, pad, base); RunDepth(m, c.acts, c.world, pad);
      case Calling(_, _, _) => CallFramed(M, m, B, c, base); CallDepth(m, B, c);
      case Returned(_) =>
    }
  }

  // ---- runs ----

  /** A run whose new exnrefs have the stale cells `pads`, one for each step. */
  function StepsWith(M: Machine, B: Bodies, c: Conf, pads: seq<seq<cell>>): Next
    requires MachineOk(M)
    decreases |pads|
  {
    if pads == [] then On(c)
    else if |pads[0]| != EXN_CELLS then Wrong
    else match Step(M, B, c, pads[0])
      case On(c1) => StepsWith(M, B, c1, pads[1..])
      case Final(r, w) => Final(r, w)
      case Fails(id) => Fails(id)
      case Wrong => Wrong
  }

  /** A run above nothing that ends with results: above any base, they are delivered there. */
  lemma {:induction false} RunOver(M: Machine, m: Machine, B: Bodies, c: Conf, pads: seq<seq<cell>>, base: Acts, results: seq<cell>, w: World)
    requires RoomAbove(M, m, base) && MachineOk(M) && MachineOk(m) && Depth(c.acts) <= m.maxFrames
    requires StepsWith(m, B, c, pads) == On(Conf(Empty, Returned(results), w)) && c != Conf(Empty, Returned(results), w)
    ensures StepsWith(M, B, Over(c, base), pads) == Deliver(base, results, w)
    decreases |pads|
  {
    hide MachineOk, Step, Deliver;
    var n := Step(m, B, c, pads[0]);
    StepFramed(M, m, B, c, pads[0], base);
    if n.c.acts == Empty && n.c.mode.Returned? {
      ReturnedEnds(m, B, n.c, pads[1..]);
      DeliverOn(base, results, w);
    } else {
      RunOver(M, m, B, n.c, pads[1..], base, results, w);
    }
  }

  /** A run above nothing that traps of its own: so it does above any base. */
  lemma {:induction false} TrapOver(M: Machine, m: Machine, B: Bodies, c: Conf, pads: seq<seq<cell>>, base: Acts, id: TrapId)
    requires RoomAbove(M, m, base) && MachineOk(M) && MachineOk(m) && Depth(c.acts) <= m.maxFrames
    requires StepsWith(m, B, c, pads) == Fails(id) && OwnTrap(id) && !(c.acts == Empty && c.mode.Returned?)
    ensures StepsWith(M, B, Over(c, base), pads) == Fails(id)
    decreases |pads|
  {
    hide MachineOk, Step, Deliver, OwnTrap;
    var n := Step(m, B, c, pads[0]);
    StepFramed(M, m, B, c, pads[0], base);
    if n.On? {
      if n.c.acts == Empty && n.c.mode.Returned? { ReturnedNoTrap(m, B, n.c, pads[1..]); }
      TrapOver(M, m, B, n.c, pads[1..], base, id);
    }
  }

  lemma ReturnedNoTrap(M: Machine, B: Bodies, c: Conf, pads: seq<seq<cell>>)
    requires MachineOk(M) && c.acts == Empty && c.mode.Returned?
    ensures !StepsWith(M, B, c, pads).Fails?
  {
    hide MachineOk, StepRun, StepCall;
  }

  lemma ReturnedEnds(M: Machine, B: Bodies, c: Conf, pads: seq<seq<cell>>)
    requires MachineOk(M) && c.acts == Empty && c.mode.Returned? && StepsWith(M, B, c, pads).On?
    ensures pads == []
  {
    hide MachineOk, StepRun, StepCall;
  }

  lemma DeliverOn(base: Acts, results: seq<cell>, w: World)
    ensures Deliver(base, results, w).On?
  {
  }

  // ---- tail calls ----

  /** `n` steps and then one more. */
  lemma {:induction false} OneMore(M: Machine, B: Bodies, c: Conf, pads: seq<seq<cell>>, pad: seq<cell>)
    requires MachineOk(M) && |pad| == EXN_CELLS && StepsWith(M, B, c, pads).On?
    ensures StepsWith(M, B, c, pads + [pad]) == Step(M, B, StepsWith(M, B, c, pads).c, pad)
    decreases |pads|
  {
    hide MachineOk, Step;
    if pads == [] {
      LastStep(M, B, c, pad);
    } else {
      assert (pads + [pad])[1..] == pads[1..] + [pad];
      OneMore(M, B, Step(M, B, c, pads[0]).c, pads[1..], pad);
    }
  }

  lemma LastStep(M: Machine, B: Bodies, c: Conf, pad: seq<cell>)
    requires MachineOk(M) && |pad| == EXN_CELLS
    ensures StepsWith(M, B, c, [pad]) == Step(M, B, c, pad)
  {
    hide MachineOk, Step;
    match Step(M, B, c, pad)
    case On(c1) => assert StepsWith(M, B, c1, []) == On(c1);
    case _ =>
  }

  /** The activation `a` is about to execute `code`. */
  function About(a: Acts, code: Code, w: World): Conf requires a.Wasm? { Conf(a.(code := code), Run, w) }

  /**
    Let `f`, run on its own in the room that is left above `a`, return `results`.
    Then `return_call f` and `call f; return` both deliver these results to the
    caller of `a`, with the same world.
   */
  lemma TailCallIsCallThenReturn(M: Machine, m: Machine, B: Bodies, a: Acts, i: seq<byte>, tl: Code, w: World, f: nat,
                                 pads: seq<seq<cell>>, pad: seq<cell>, results: seq<cell>, w2: World)
    requires MachineOk(M) && MachineOk(m) && a.Wasm? && FuncOk(M, a.inst, a.fidx) && RoomAbove(M, m, a) && |pad| == EXN_CELLS
    requires IsU32(i) && U32(i) < |M.insts[a.inst].funcs| && f == M.insts[a.inst].funcs[U32(i)]
    requires f < |M.finsts| && M.finsts[f].typ.params <= |a.seg|
    requires |results| == FuncAt(M, a.inst, a.fidx).typ.results
    requires StepsWith(m, B, Conf(Empty, Calling(f, TopN(a.seg, M.finsts[f].typ.params), Fresh), w), pads) == On(Conf(Empty, Returned(results), w2))
    ensures StepsWith(M, B, About(a, Cons(Leaf(ReturnCall(i)), tl), w), [pad] + pads) == Deliver(a.below, results, w2)
    ensures StepsWith(M, B, About(a, Cons(Leaf(Call(i)), Cons(Leaf(Return), tl)), w), [pad] + pads + [pad]) == Deliver(a.below, results, w2)
  {
    hide MachineOk, Deliver, FuncOk, InstOk, U32, IsU32;
    var n := M.finsts[f].typ.params;
    var solo := Conf(Empty, Calling(f, TopN(a.seg, n), Fresh), w);
    RoomBelow(M, m, a);
    RunOver(M, m, B, solo, pads, a.below, results, w2);
    TailStep(M, B, a, i, tl, w, f, pad);
    Prepend(M, B, About(a, Cons(Leaf(ReturnCall(i)), tl), w), pad, pads);

    var ret := Cons(Leaf(Return), tl);
    var caller := a.(seg := Under(a.seg, n), code := ret);
    RoomThere(M, m, a, caller);
    RunOver(M, m, B, solo, pads, caller, results, w2);
    CallStep(M, B, a, i, ret, w, f, pad);
    Prepend(M, B, About(a, Cons(Leaf(Call(i)), ret), w), pad, pads);
    DeliverTop(caller, results, w2);
    var c := Conf(caller.(seg := caller.seg + results), Run, w2);
    OneMore(M, B, About(a, Cons(Leaf(Call(i)), ret), w), [pad] + pads, pad);
    ReturnStep(M, B, c, tl, pad, results);
  }

  /** And if `f` traps of its own, then so do both, with the same trap. */
  lemma TailCallTraps(M: Machine, m: Machine, B: Bodies, a: Acts, i: seq<byte>, tl: Code, w: World, f: nat,
                      pads: seq<seq<cell>>, pad: seq<cell>, id: TrapId)
    requires MachineOk(M) && MachineOk(m) && a.Wasm? && FuncOk(M, a.inst, a.fidx) && RoomAbove(M, m, a) && |pad| == EXN_CELLS
    requires IsU32(i) && U32(i) < |M.insts[a.inst].funcs| && f == M.insts[a.inst].funcs[U32(i)]
    requires f < |M.finsts| && M.finsts[f].typ.params <= |a.seg| && OwnTrap(id)
    requires StepsWith(m, B, Conf(Empty, Calling(f, TopN(a.seg, M.finsts[f].typ.params), Fresh), w), pads) == Fails(id)
    ensures StepsWith(M, B, About(a, Cons(Leaf(ReturnCall(i)), tl), w), [pad] + pads) == Fails(id)
    ensures StepsWith(M, B, About(a, Cons(Leaf(Call(i)), Cons(Leaf(Return), tl)), w), [pad] + pads) == Fails(id)
  {
    hide MachineOk, Deliver, FuncOk, InstOk, U32, IsU32, OwnTrap;
    var n := M.finsts[f].typ.params;
    var solo := Conf(Empty, Calling(f, TopN(a.seg, n), Fresh), w);
    RoomBelow(M, m, a);
    TrapOver(M, m, B, solo, pads, a.below, id);
    TailStep(M, B, a, i, tl, w, f, pad);
    Prepend(M, B, About(a, Cons(Leaf(ReturnCall(i)), tl), w), pad, pads);
    var ret := Cons(Leaf(Return), tl);
    var caller := a.(seg := Under(a.seg, n), code := ret);
    RoomThere(M, m, a, caller);
    TrapOver(M, m, B, solo, pads, caller, id);
    CallStep(M, B, a, i, ret, w, f, pad);
    Prepend(M, B, About(a, Cons(Leaf(Call(i)), ret), w), pad, pads);
  }

  /**
    If nobody in `f` catches what it throws, both raise it in the caller of `a`:
    unless a host function waits in between, `call` raises it in `a` first, and
    that makes no difference if `a` does not catch it.
   */
  lemma TailCallThrows(M: Machine, m: Machine, B: Bodies, a: Acts, i: seq<byte>, tl: Code, w: World, f: nat,
                       pads: seq<seq<cell>>, pad: seq<cell>, last: seq<cell>, c: Conf)
    requires MachineOk(M) && MachineOk(m) && a.Wasm? && FuncOk(M, a.inst, a.fidx) && RoomAbove(M, m, a)
    requires |pad| == EXN_CELLS && |last| == EXN_CELLS
    requires IsU32(i) && U32(i) < |M.insts[a.inst].funcs| && f == M.insts[a.inst].funcs[U32(i)]
    requires f < |M.finsts| && M.finsts[f].typ.params <= |a.seg|
    requires StepsWith(m, B, Conf(Empty, Calling(f, TopN(a.seg, M.finsts[f].typ.params), Fresh), w), pads) == On(c)
    requires Step(m, B, c, last) == Fails(UncaughtException)
    ensures |Raised(m, c, last)| == EXNREF_CELLS
    ensures StepsWith(M, B, About(a, Cons(Leaf(ReturnCall(i)), tl), w), [pad] + pads + [last]) == RaiseBelow(M, c.acts, a.below, Raised(m, c, last), c.world)
    ensures StepsWith(M, B, About(a, Cons(Leaf(Call(i)), Cons(Leaf(Return), tl)), w), [pad] + pads + [last]) ==
              RaiseBelow(M, c.acts, a.(seg := Under(a.seg, M.finsts[f].typ.params), code := Cons(Leaf(Return), tl)), Raised(m, c, last), c.world)
    ensures NotCaught(M, a, Raised(m, c, last)) ==>
              RaiseBelow(M, c.acts, a.(seg := Under(a.seg, M.finsts[f].typ.params), code := Cons(Leaf(Return), tl)), Raised(m, c, last), c.world) ==
              RaiseBelow(M, c.acts, a.below, Raised(m, c, last), c.world)
  {
    hide MachineOk, Deliver, FuncOk, InstOk, U32, IsU32, RaiseBelow, Raised, NotCaught, Step;
    var n := M.finsts[f].typ.params;
    var solo := Conf(Empty, Calling(f, TopN(a.seg, n), Fresh), w);
    RoomBelow(M, m, a);
    ThrowOver(M, m, B, solo, pads, a.below, c, last);
    TailStep(M, B, a, i, tl, w, f, pad);
    PrependTwo(M, B, About(a, Cons(Leaf(ReturnCall(i)), tl), w), pad, pads, last);
    var ret := Cons(Leaf(Return), tl);
    var caller := a.(seg := Under(a.seg, n), code := ret);
    RoomThere(M, m, a, caller);
    ThrowOver(M, m, B, solo, pads, caller, c, last);
    CallStep(M, B, a, i, ret, w, f, pad);
    PrependTwo(M, B, About(a, Cons(Leaf(Call(i)), ret), w), pad, pads, last);
    PassedOn(M, a, caller, c.acts, Raised(m, c, last), c.world);
  }

  /** No try_table that is open in `a` catches the exception. */
  predicate NotCaught(M: Machine, a: Acts, exn: seq<cell>)
    requires a.Wasm? && |exn| == EXNREF_CELLS && FuncOk(M, a.inst, a.fidx)
  {
    InRange(M, a.inst);
    var tag := TagOf(exn);
    tag in M.tagCells && 0 < tag && M.tagCells[tag] <= EXN_CELLS &&
    HandleIn(ModOf(M, a.inst).types, M.insts[a.inst].tags, a.ctxs, tag, M.tagCells[tag], exn).Unhandled?
  }

  lemma PassedOn(M: Machine, a: Acts, a2: Acts, acts: Acts, exn: seq<cell>, w: World)
    requires a.Wasm? && a2.Wasm? && a2 == a.(seg := a2.seg, code := a2.code) && FuncOk(M, a.inst, a.fidx) && |exn| == EXNREF_CELLS
    ensures NotCaught(M, a, exn) ==> RaiseBelow(M, acts, a2, exn, w) == RaiseBelow(M, acts, a.below, exn, w)
  {
    hide InstOk, HandleIn, TagOf, Waits;
  }

  lemma PrependTwo(M: Machine, B: Bodies, c: Conf, pad: seq<cell>, pads: seq<seq<cell>>, last: seq<cell>)
    requires MachineOk(M) && |pad| == EXN_CELLS && Step(M, B, c, pad).On?
    ensures StepsWith(M, B, c, [pad] + pads + [last]) == StepsWith(M, B, Step(M, B, c, pad).c, pads + [last])
  {
    hide *;
    assert [pad] + pads + [last] == [pad] + (pads + [last]);
    Prepend(M, B, c, pad, pads + [last]);
  }

  /** A run above nothing up to an exception that nobody catches: above any base it is thrown there. */
  lemma {:induction false} ThrowOver(M: Machine, m: Machine, B: Bodies, c0: Conf, pads: seq<seq<cell>>, base: Acts, c: Conf, last: seq<cell>)
    requires RoomAbove(M, m, base) && MachineOk(M) && MachineOk(m) && Depth(c0.acts) <= m.maxFrames && |last| == EXN_CELLS
    requires StepsWith(m, B, c0, pads) == On(c) && Step(m, B, c, last) == Fails(UncaughtException)
    ensures |Raised(m, c, last)| == EXNREF_CELLS
    ensures StepsWith(M, B, Over(c0, base), pads + [last]) == RaiseBelow(M, c.acts, base, Raised(m, c, last), c.world)
    decreases |pads|
  {
    hide MachineOk, Step, Deliver, Raised, RaiseBelow;
    ThrowFramed(M, m, B, c, last, base);
    if pads == [] {
      assert pads + [last] == [last];
      LastStep(M, B, Over(c, base), last);
    } else {
      var n := Step(m, B, c0, pads[0]);
      StepFramed(M, m, B, c0, pads[0], base);
      assert (pads + [last])[1..] == pads[1..] + [last];
      if n.c.acts == Empty && n.c.mode.Returned? {
        ReturnedEnds(m, B, n.c, pads[1..]);
        ReturnedThrowsNot(m, B, n.c, last);
      }
      ThrowOver(M, m, B, n.c, pads[1..], base, c, last);
    }
  }

  lemma ReturnedThrowsNot(M: Machine, B: Bodies, c: Conf, pad: seq<cell>)
    requires MachineOk(M) && c.acts == Empty && c.mode.Returned? && |pad| == EXN_CELLS
    ensures !Step(M, B, c, pad).Fails?
  {
    hide MachineOk, StepRun, StepCall;
  }

  lemma RoomBelow(M: Machine, m: Machine, a: Acts)
    requires a.Wasm? && RoomAbove(M, m, a)
    ensures RoomAbove(M, m, a.below)
  {
    hide CtxCells;
  }

  /** Fewer operands leave more room. */
  lemma RoomThere(M: Machine, m: Machine, a: Acts, a2: Acts)
    requires a.Wasm? && RoomAbove(M, m, a) && a2.Wasm? && a2 == a.(seg := a2.seg, code := a2.code) && |a2.seg| <= |a.seg|
    ensures RoomAbove(M, m, a2)
  {
    SegCells(a.ctxs, a.seg);
    SegCells(a.ctxs, a2.seg);
    hide CtxCells;
  }

  lemma SegCells(ctxs: Ctxs, seg: seq<cell>)
    ensures |CtxCells(ctxs, seg)| == |CtxCells(ctxs, [])| + |seg|
  {
  }

  lemma Prepend(M: Machine, B: Bodies, c: Conf, pad: seq<cell>, pads: seq<seq<cell>>)
    requires MachineOk(M) && |pad| == EXN_CELLS && Step(M, B, c, pad).On?
    ensures StepsWith(M, B, c, [pad] + pads) == StepsWith(M, B, Step(M, B, c, pad).c, pads)
  {
    hide MachineOk, Step;
    assert ([pad] + pads)[1..] == pads;
  }

  lemma TailStep(M: Machine, B: Bodies, a: Acts, i: seq<byte>, tl: Code, w: World, f: nat, pad: seq<cell>)
    requires MachineOk(M) && a.Wasm? && FuncOk(M, a.inst, a.fidx) && |pad| == EXN_CELLS
    requires IsU32(i) && U32(i) < |M.insts[a.inst].funcs| && f == M.insts[a.inst].funcs[U32(i)]
    requires f < |M.finsts| && M.finsts[f].typ.params <= |a.seg|
    ensures Step(M, B, About(a, Cons(Leaf(ReturnCall(i)), tl), w), pad)
            == On(Conf(a.below, Calling(f, TopN(a.seg, M.finsts[f].typ.params), Fresh), w))
  {
    hide MachineOk, InstOk, U32, IsU32;
  }

  lemma CallStep(M: Machine, B: Bodies, a: Acts, i: seq<byte>, tl: Code, w: World, f: nat, pad: seq<cell>)
    requires MachineOk(M) && a.Wasm? && FuncOk(M, a.inst, a.fidx) && |pad| == EXN_CELLS
    requires IsU32(i) && U32(i) < |M.insts[a.inst].funcs| && f == M.insts[a.inst].funcs[U32(i)]
    requires f < |M.finsts| && M.finsts[f].typ.params <= |a.seg|
    ensures var n := M.finsts[f].typ.params;
            Step(M, B, About(a, Cons(Leaf(Call(i)), tl), w), pad)
            == On(Conf(a.(seg := Under(a.seg, n), code := tl), Calling(f, TopN(a.seg, n), Fresh), w))
  {
    hide MachineOk, InstOk, U32, IsU32, ReturnFrom, LeaveBlock, StepIf, Enter, TakeBranch, RaiseExn, PlainWf, EncPlain;
  }

  lemma DeliverTop(a: Acts, results: seq<cell>, w: World)
    requires a.Wasm?
    ensures Deliver(a, results, w) == On(Conf(a.(seg := a.seg + results), Run, w))
  {
  }

  lemma ReturnStep(M: Machine, B: Bodies, c: Conf, tl: Code, pad: seq<cell>, results: seq<cell>)
    requires MachineOk(M) && c.mode.Run? && c.acts.Wasm? && FuncOk(M, c.acts.inst, c.acts.fidx) && |pad| == EXN_CELLS
    requires c.acts.code == Cons(Leaf(Return), tl) && |results| == FuncAt(M, c.acts.inst, c.acts.fidx).typ.results
    requires |results| <= |c.acts.seg| && TopN(c.acts.seg, |results|) == results
    ensures Step(M, B, c, pad) == Deliver(c.acts.below, results, c.world)
  {
    hide MachineOk, InstOk, Deliver;
  }
}
