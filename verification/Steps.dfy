/**
  One instruction: the flat machine's fetch, and the event it may leave behind,
  follow one structured step.
 */
module Steps {
  import opened Leb
  import opened Code
  import opened Jumps
  import opened Machine
  import opened Structured
  import opened Relation
  import opened Exits
  import opened Branches
  import opened Returns
  import opened Calls

  /** Events that the loop handles at once, before any interrupt is looked at. */
  predicate Transient(e: Event) { e.Branch? || e.Exception? || e.TailCall? }

  /** A micro step, and the handling of the transient event it leaves. */
  function Macro(M: Machine, s: State, pad: seq<cell>): Outcome
    requires StateOk(M, s) && |pad| == EXN_CELLS
  {
    match Micro(M, s, pad)
    case Go(s1) => if StateOk(M, s1) && Transient(s1.event) then Micro(M, s1, pad) else Go(s1)
    case Yield(s1) => Yield(s1)
    case Finished(s1) => Finished(s1)
    case Trapped(id) => Trapped(id)
    case Stuck => Stuck
  }

  /** A micro step that leaves no transient event is the whole macro step. */
  lemma MacroIs(M: Machine, s: State, pad: seq<cell>)
    requires StateOk(M, s) && |pad| == EXN_CELLS
    ensures var o := Micro(M, s, pad);
            (o.Go? ==> !Transient(o.s.event)) ==> Macro(M, s, pad) == o
  {
    hide Micro, StateOk;
  }

  /** Otherwise the event is handled. */
  lemma MacroTwice(M: Machine, s: State, s1: State, pad: seq<cell>)
    requires StateOk(M, s) && |pad| == EXN_CELLS && Micro(M, s, pad) == Go(s1) && StateOk(M, s1) && Transient(s1.event)
    ensures Macro(M, s, pad) == Micro(M, s1, pad)
  {
    hide Micro, StateOk;
  }

  /** A state that runs the activation `a`. */
  ghost predicate Runs(M: Machine, B: Bodies, a: Acts, s: State)
    requires ProgramOk(M, B)
  {
    a.Wasm? && FuncOk(M, a.inst, a.fidx) && s.event == NoEvent && s.resume == Fresh && Repr(M, B, a, s, s.stack, s.p)
  }

  /** What running `a` means for the top frame. */
  lemma Setup(M: Machine, B: Bodies, a: Acts, s: State)
    requires ProgramOk(M, B) && Runs(M, B, a, s)
    ensures StateOk(M, s) && InstOk(M, s.inst) && CachesOk(M, B, s)
    ensures s.frames != [] && s.bottom < |s.frames| && FrameFits(s) && s.inst == a.inst
    ensures var fr := Top(s.frames);
            && fr.height <= |s.stack| && fr.inst == a.inst && fr.fidx == a.fidx
            && s.locals[fr.localidx..] == a.locals && s.stack == s.stack[..fr.height] + CtxCells(a.ctxs, a.seg)
            && RelCtxs(ModOf(M, a.inst).types, Body(M, B, a.inst, a.fidx), FuncAt(M, a.inst, a.fidx).start,
                       a.ctxs, s.labels[fr.labelidx..], fr.height, a.code, s.p)
    ensures Wf(a.code) && At(ModOf(M, s.inst).bytes, s.p, Enc(a.code))
    ensures forall pad :: |pad| == EXN_CELLS ==> Micro(M, s, pad) == FetchExec(M, s, pad)
  {
    hide ProgramOk, CachesOk, InstOk, CtxCells, FetchExec, ReturnToHost, Enc, Wf;
    var fr := Top(s.frames);
    CtxSub(ModOf(M, a.inst).types, Body(M, B, a.inst, a.fidx), FuncAt(M, a.inst, a.fidx).start,
           a.ctxs, s.labels[fr.labelidx..], fr.height, a.code, s.p);
    hide RelCtxs;
    CodeAt(M, B, a.inst, a.fidx, a.code, s.p);
  }

  /** A scheduled branch, taken from a state whose operands are those of `a`. */
  lemma JumpStep(M: Machine, B: Bodies, a: Acts, s: State, p: nat, l: nat, pad: seq<cell>)
    requires ProgramOk(M, B) && a.Wasm? && FuncOk(M, a.inst, a.fidx) && Repr(M, B, a, s, s.stack, p)
    requires s.event == Branch(l, false) && s.resume == Fresh && |pad| == EXN_CELLS
    ensures Follows(M, B, TakeBranch(M, a, a.seg, l, s.world), Micro(M, s, pad))
  {
    hide ProgramOk, Repr, Rel, DoBranch;
    if TakeBranch(M, a, a.seg, l, s.world).On? { BranchSim(M, B, a, s, p, l); }
    assert !TakeBranch(M, a, a.seg, l, s.world).Fails? && !TakeBranch(M, a, a.seg, l, s.world).Final?;
  }

  /** Dropping the top operand keeps the representation. */
  lemma PopOperand(M: Machine, B: Bodies, a: Acts, s: State, s2: State, n: nat)
    requires ProgramOk(M, B) && Runs(M, B, a, s) && n <= |a.seg| && n <= |s.stack|
    requires s2 == s.(stack := Under(s.stack, n), p := s2.p, event := s2.event)
    ensures Repr(M, B, a.(seg := Under(a.seg, n)), s2, s2.stack, s.p)
    ensures TopN(s.stack, n) == TopN(a.seg, n)
  {
    hide ProgramOk, CachesOk, InstOk, CtxCells, RelCtxs;
    var fr := Top(s.frames);
    var base := s.stack[..fr.height];
    assert s.stack == base + CtxCells(a.ctxs, a.seg);
    CellsTop(base, a.ctxs, a.seg, n);
    assert s2.stack[..fr.height] == base;
    assert s2.stack[fr.height..] == CtxCells(a.ctxs, Under(a.seg, n));
    assert FrameRel(M, B, a.(seg := Under(a.seg, n)), fr, s2.labels, s2.locals, s2.stack, s.p);
    SameCaches(M, B, s, s2);
  }

  /** Operands are on the flat stack. */
  lemma OperandsThere(M: Machine, B: Bodies, a: Acts, s: State)
    requires ProgramOk(M, B) && Runs(M, B, a, s)
    ensures |a.seg| <= |s.stack|
    ensures a.seg != [] ==> s.stack != [] && Top(s.stack) == Top(a.seg) && Pop(s.stack) == Under(s.stack, 1) && Pop(a.seg) == Under(a.seg, 1)
  {
    hide ProgramOk, Repr, InstOk, RelCtxs, CtxCells, At, Wf, Enc, FetchExec, Micro, ModOf;
    Setup(M, B, a, s);
    var base := s.stack[..Top(s.frames).height];
    CellsTop(base, a.ctxs, a.seg, |a.seg|);
    if a.seg != [] {
      CellsTop(base, a.ctxs, a.seg, 1);
      assert TopN(s.stack, 1)[0] == TopN(a.seg, 1)[0];
    }
  }

  /** The state after an instruction that leaves frames and labels alone. */
  lemma Straight(M: Machine, B: Bodies, a: Acts, s: State, i: Instr, tl: Code, a2: Acts, s2: State)
    requires ProgramOk(M, B) && Runs(M, B, a, s) && a.code == Cons(i, tl)
    requires a2.Wasm? && a2 == a.(locals := a2.locals, seg := a2.seg, code := tl)
    requires var fr := Top(s.frames);
             && s2 == s.(p := EndPos(i, s.p), stack := s.stack[..fr.height] + CtxCells(a2.ctxs, a2.seg),
                         locals := s.locals[..fr.localidx] + a2.locals, world := s2.world)
    ensures Rel(M, B, Conf(a2, Run, s2.world), s2)
  {
    hide ProgramOk, CachesOk, InstOk, CtxCells, RelCtxs;
    var fr := Top(s.frames);
    CtxAdvance(ModOf(M, a.inst).types, Body(M, B, a.inst, a.fidx), FuncAt(M, a.inst, a.fidx).start,
               a.ctxs, s.labels[fr.labelidx..], fr.height, i, tl, s.p);
    SameCaches(M, B, s, s2);
    Reframe(M, B, a, s, s.p, a2, s2);
  }

  // ---- leaves ----

  lemma LeafHead(M: Machine, B: Bodies, a: Acts, s: State, l: Leaf, tl: Code)
    requires ProgramOk(M, B) && Runs(M, B, a, s) && a.code == Cons(Leaf(l), tl)
    ensures LeafWf(l) && At(ModOf(M, s.inst).bytes, s.p, EncLeaf(l)) && EndPos(Leaf(l), s.p) == s.p + |EncLeaf(l)|
    ensures |EncLeaf(l)| > 0 && s.p < |ModOf(M, s.inst).bytes| && ModOf(M, s.inst).bytes[s.p] == EncLeaf(l)[0]
  {
    hide ProgramOk, Repr, RelActs, CachesOk, EncLeaf, LeafWf;
    Setup(M, B, a, s);
    hide At;
    assert Enc(a.code) == EncLeaf(l) + Enc(tl);
    AtSplit(ModOf(M, s.inst).bytes, s.p, EncLeaf(l), Enc(tl));
    assert InstrWf(Leaf(l));
    LeafAt(ModOf(M, s.inst).bytes, s.p, l);
  }

  /** The immediate of a one-u32 instruction. */
  lemma ImmAt(code: seq<byte>, p: nat, op: byte, i: seq<byte>)
    requires At(code, p, [op] + i) && IsU32(i) && op in {BR, BR_IF, CALL, RETURN_CALL, THROW}
    ensures p < |code| && code[p] == op && ReadU32(code, p + 1) == Some(Imm(U32(i), p + 1 + |i|))
    ensures p + |[op] + i| == p + 1 + |i|
  {
    hide IsU32, U32, InsnEnd;
    U32LeafAt(code, p, op, i);
  }

  /** Fetching a non-control instruction executes exactly its bytes. */
  lemma PlainFetch(M: Machine, s: State, x: PlainInstr, pad: seq<cell>)
    requires StateOk(M, s) && FrameFits(s) && |pad| == EXN_CELLS
    requires At(ModOf(M, s.inst).bytes, s.p, EncPlain(x)) && PlainWf(x)
    ensures FetchExec(M, s, pad) == PlainStep(M, s, EncPlain(x))
  {
    hide PlainEnd, InstOk, InsnEnd, ReadS33, HeaderEnd, PlainWf, EncPlain;
    PlainAt(ModOf(M, s.inst).bytes, s.p, x);
    PlainEndIs(ModOf(M, s.inst).bytes, s.p, x);
  }

  function PlainStep(M: Machine, s: State, bytes: seq<byte>): Outcome
    requires FrameFits(s)
  {
    var n, base := M.pops(bytes), Top(s.frames).localidx;
    if |s.stack| < n then Stuck
    else match M.plain(s.inst, bytes, s.locals[base..], TopN(s.stack, n), s.world)
      case PTrap => Trapped(PlainError)
      case POk(locals, results, w) =>
        if |locals| != |s.locals| - base then Stuck
        else Go(s.(p := s.p + |bytes|, locals := s.locals[..base] + locals, stack := Under(s.stack, n) + results, world := w))
  }

  lemma PlainMicro(M: Machine, B: Bodies, a: Acts, s: State, x: PlainInstr, tl: Code, pad: seq<cell>)
    requires ProgramOk(M, B) && Runs(M, B, a, s) && a.code == Cons(Leaf(Plain(x)), tl) && |pad| == EXN_CELLS
    requires PlainWf(x)
    ensures StateOk(M, s) && FrameFits(s) && Micro(M, s, pad) == PlainStep(M, s, EncPlain(x)) && EndPos(Leaf(Plain(x)), s.p) == s.p + |EncPlain(x)|
    ensures Top(s.frames).height <= |s.stack| && Top(s.frames).inst == a.inst && s.inst == a.inst
    ensures s.locals[Top(s.frames).localidx..] == a.locals
    ensures s.stack == s.stack[..Top(s.frames).height] + CtxCells(a.ctxs, a.seg)
  {
    assert EncLeaf(Plain(x)) == EncPlain(x);
    hide ProgramOk, Repr, RelActs, CachesOk, InstOk, FetchExec, Micro, PlainEnd, At, EncLeaf, EncPlain, PlainWf, CtxCells, PlainStep;
    Setup(M, B, a, s);
    hide RelCtxs, Enc, Wf;
    LeafHead(M, B, a, s, Plain(x), tl);
    PlainFetch(M, s, x, pad);
  }

  /** The structured step of a non-control instruction. */
  lemma StepPlain(M: Machine, a: Acts, x: PlainInstr, tl: Code, w: World, pad: seq<cell>)
    requires MachineOk(M) && a.Wasm? && FuncOk(M, a.inst, a.fidx) && LeafWf(Plain(x)) && |pad| == EXN_CELLS
    ensures var n := M.pops(EncPlain(x));
            var r := StepLeaf(M, a, Plain(x), tl, w, pad);
            if |a.seg| < n then r == Wrong
            else
              var o := M.plain(a.inst, EncPlain(x), a.locals, TopN(a.seg, n), w);
              if o.PTrap? then r == Fails(PlainError)
              else if |o.locals| != |a.locals| then r == Wrong
              else r == On(Conf(a.(locals := o.locals, seg := Under(a.seg, n) + o.results, code := tl), Run, o.world))
  {
    hide MachineOk, InstOk, LeafWf, EncPlain;
  }

  /** The state after it. */
  lemma PlainGoes(M: Machine, B: Bodies, a: Acts, s: State, x: PlainInstr, tl: Code, n: nat, locals: seq<cell>, results: seq<cell>, w: World)
    requires ProgramOk(M, B) && Runs(M, B, a, s) && a.code == Cons(Leaf(Plain(x)), tl) && n <= |a.seg|
    requires s.frames != [] && Top(s.frames).height <= |s.stack| && Top(s.frames).localidx <= |s.locals|
    requires s.stack == s.stack[..Top(s.frames).height] + CtxCells(a.ctxs, a.seg)
    requires EndPos(Leaf(Plain(x)), s.p) == s.p + |EncPlain(x)|
    ensures n <= |s.stack| && TopN(s.stack, n) == TopN(a.seg, n)
    ensures Rel(M, B, Conf(a.(locals := locals, seg := Under(a.seg, n) + results, code := tl), Run, w),
                s.(p := s.p + |EncPlain(x)|, locals := s.locals[..Top(s.frames).localidx] + locals,
                   stack := Under(s.stack, n) + results, world := w))
  {
    hide ProgramOk, Runs, Repr, Rel, InstOk, CtxCells, EncInstr, EncPlain;
    RunsIsWasm(M, B, a, s);
    var fr := Top(s.frames);
    var a2 := a.(locals := locals, seg := Under(a.seg, n) + results, code := tl);
    CellsReplace(s.stack[..fr.height], a.ctxs, a.seg, n, results);
    Straight(M, B, a, s, Leaf(Plain(x)), tl, a2,
             s.(p := s.p + |EncPlain(x)|, locals := s.locals[..fr.localidx] + locals, stack := Under(s.stack, n) + results, world := w));
  }

  lemma RunsIsWasm(M: Machine, B: Bodies, a: Acts, s: State)
    requires ProgramOk(M, B) && Runs(M, B, a, s)
    ensures a.Wasm? && FuncOk(M, a.inst, a.fidx)
  {
    hide ProgramOk, Repr, InstOk;
  }

  lemma PlainSim(M: Machine, B: Bodies, a: Acts, s: State, x: PlainInstr, tl: Code, pad: seq<cell>)
    requires ProgramOk(M, B) && MachineOk(M) && Runs(M, B, a, s) && a.code == Cons(Leaf(Plain(x)), tl) && |pad| == EXN_CELLS
    requires LeafWf(Plain(x))
    ensures Follows(M, B, StepLeaf(M, a, Plain(x), tl, s.world, pad), Macro(M, s, pad))
  {
    hide ProgramOk, Runs, Repr, MachineOk, Rel, StateOk, InstOk, PlainEnd, Micro, Macro, CtxCells, EncInstr, StepLeaf, EncPlain, PlainWf;
    RunsIsWasm(M, B, a, s);
    PlainMicro(M, B, a, s, x, tl, pad);
    MacroIs(M, s, pad);
    StepPlain(M, a, x, tl, s.world, pad);
    StartsRunning(M, B, a, s);
    var n := M.pops(EncPlain(x));
    if n <= |a.seg| {
      var out := M.plain(s.inst, EncPlain(x), a.locals, TopN(a.seg, n), s.world);
      if out.POk? { PlainGoes(M, B, a, s, x, tl, n, out.locals, out.results, out.world); }
      else { PlainGoes(M, B, a, s, x, tl, n, [], [], s.world); }
    }
  }

  lemma StartsRunning(M: Machine, B: Bodies, a: Acts, s: State)
    requires ProgramOk(M, B) && Runs(M, B, a, s)
    ensures s.event == NoEvent && s.frames != [] && Top(s.frames).localidx <= |s.locals|
  {
    hide ProgramOk, InstOk, RelCtxs, CtxCells;
  }

  /** Fetching an instruction with one u32 immediate. */
  lemma U32Fetch(M: Machine, s: State, op: byte, i: seq<byte>, pad: seq<cell>)
    requires StateOk(M, s) && FrameFits(s) && |pad| == EXN_CELLS
    requires At(ModOf(M, s.inst).bytes, s.p, [op] + i) && IsU32(i) && op in {BR, BR_IF, CALL, RETURN_CALL, THROW}
    ensures FetchExec(M, s, pad) == ExecU32(M, s, op, U32(i), s.p + 1 + |i|, pad)
  {
    hide IsU32, U32, InstOk, InsnEnd, ExecU32, ReadU32, ReadS33, HeaderEnd;
    ImmAt(ModOf(M, s.inst).bytes, s.p, op, i);
  }

  /** What an instruction with one u32 immediate does when it runs. */
  lemma U32Micro(M: Machine, B: Bodies, a: Acts, s: State, l: Leaf, op: byte, i: seq<byte>, tl: Code, pad: seq<cell>)
    requires ProgramOk(M, B) && Runs(M, B, a, s) && a.code == Cons(Leaf(l), tl) && |pad| == EXN_CELLS && IsU32(i)
    requires EncLeaf(l) == [op] + i && op in {BR, BR_IF, CALL, RETURN_CALL, THROW}
    ensures EndPos(Leaf(l), s.p) == s.p + 1 + |i| && StateOk(M, s) && s.inst == a.inst
    ensures Micro(M, s, pad) == ExecU32(M, s, op, U32(i), s.p + 1 + |i|, pad)
  {
    hide ProgramOk, Repr, RelActs, CachesOk, InstOk, FetchExec, Micro, IsU32, U32, At, EncLeaf, ExecU32;
    Setup(M, B, a, s);
    hide RelCtxs, Enc, Wf;
    LeafHead(M, B, a, s, l, tl);
    U32Fetch(M, s, op, i, pad);
  }

  lemma TakeSame(M: Machine, a: Acts, seg: seq<cell>, l: nat, w: World)
    requires a.Wasm? && FuncOk(M, a.inst, a.fidx)
    ensures TakeBranch(M, a.(seg := seg), seg, l, w) == TakeBranch(M, a, seg, l, w)
  {
    hide BranchTo, InstOk;
  }

  /** An instruction that drops `n` operands and schedules a branch. */
  lemma JumpFrom(M: Machine, B: Bodies, a: Acts, s: State, s1: State, n: nat, l: nat, pad: seq<cell>)
    requires ProgramOk(M, B) && Runs(M, B, a, s) && n <= |a.seg| && n <= |s.stack| && |pad| == EXN_CELLS
    requires s1 == s.(stack := Under(s.stack, n), p := s1.p, event := Branch(l, false)) && Micro(M, s, pad) == Go(s1)
    ensures Follows(M, B, TakeBranch(M, a, Under(a.seg, n), l, s.world), Macro(M, s, pad))
  {
    PopOperand(M, B, a, s, s1, n);
    hide ProgramOk, Repr, RelActs, CachesOk, Rel, Micro, Macro, TakeBranch, InstOk, RelCtxs;
    MacroTwice(M, s, s1, pad);
    var a1 := a.(seg := Under(a.seg, n));
    JumpStep(M, B, a1, s1, s.p, l, pad);
    TakeSame(M, a, Under(a.seg, n), l, s.world);
  }

  lemma BrSim(M: Machine, B: Bodies, a: Acts, s: State, i: seq<byte>, tl: Code, pad: seq<cell>)
    requires ProgramOk(M, B) && Runs(M, B, a, s) && a.code == Cons(Leaf(Br(i)), tl) && |pad| == EXN_CELLS && IsU32(i)
    ensures Follows(M, B, TakeBranch(M, a, a.seg, U32(i), s.world), Macro(M, s, pad))
  {
    hide ProgramOk, Repr, Rel, InstOk, Micro, Macro, TakeBranch, IsU32, U32, EncInstr;
    U32Micro(M, B, a, s, Br(i), BR, i, tl, pad);
    assert Under(s.stack, 0) == s.stack && Under(a.seg, 0) == a.seg;
    JumpFrom(M, B, a, s, s.(p := s.p + 1 + |i|, event := Branch(U32(i), false)), 0, U32(i), pad);
  }

  lemma BrIfSim(M: Machine, B: Bodies, a: Acts, s: State, i: seq<byte>, tl: Code, pad: seq<cell>)
    requires ProgramOk(M, B) && Runs(M, B, a, s) && a.code == Cons(Leaf(BrIf(i)), tl) && |pad| == EXN_CELLS && IsU32(i)
    requires a.seg != []
    ensures if Top(a.seg) != 0 then Follows(M, B, TakeBranch(M, a, Pop(a.seg), U32(i), s.world), Macro(M, s, pad))
            else Follows(M, B, On(Conf(a.(seg := Pop(a.seg), code := tl), Run, s.world)), Macro(M, s, pad))
  {
    hide ProgramOk, Repr, Rel, InstOk, Micro, Macro, TakeBranch, IsU32, U32, EncInstr;
    U32Micro(M, B, a, s, BrIf(i), BR_IF, i, tl, pad);
    OperandsThere(M, B, a, s);
    if Top(a.seg) != 0 {
      JumpFrom(M, B, a, s, s.(stack := Pop(s.stack), p := s.p + 1 + |i|, event := Branch(U32(i), false)), 1, U32(i), pad);
    } else {
      MacroIs(M, s, pad);
      DropSim(M, B, a, s, Leaf(BrIf(i)), tl, 1);
    }
  }

  /** Dropping operands and going on. */
  lemma DropSim(M: Machine, B: Bodies, a: Acts, s: State, i: Instr, tl: Code, n: nat)
    requires ProgramOk(M, B) && Runs(M, B, a, s) && a.code == Cons(i, tl) && n <= |a.seg|
    ensures n <= |s.stack|
    ensures Rel(M, B, Conf(a.(seg := Under(a.seg, n), code := tl), Run, s.world), s.(stack := Under(s.stack, n), p := EndPos(i, s.p)))
  {
    hide ProgramOk, Repr, Rel, InstOk, CtxCells, RelCtxs, Enc, Wf, At, FetchExec, Micro, ModOf;
    Setup(M, B, a, s);
    var fr := Top(s.frames);
    CellsTop(s.stack[..fr.height], a.ctxs, a.seg, n);
    assert s.locals == s.locals[..fr.localidx] + a.locals;
    Straight(M, B, a, s, i, tl, a.(seg := Under(a.seg, n), code := tl), s.(stack := Under(s.stack, n), p := EndPos(i, s.p)));
  }

  lemma ReturnExec(M: Machine, s: State, pad: seq<cell>)
    requires StateOk(M, s) && FrameFits(s) && |pad| == EXN_CELLS && s.frames != []
    requires s.p < |ModOf(M, s.inst).bytes| && ModOf(M, s.inst).bytes[s.p] == RETURN
    ensures FetchExec(M, s, pad) == Jumping(s, s.p + 1, |s.labels| - Top(s.frames).labelidx)
  {
    hide InstOk, ReadU32, SkipLebs, ReadS33, HeaderEnd;
  }

  lemma ReturnStepSim(M: Machine, B: Bodies, a: Acts, s: State, tl: Code, pad: seq<cell>)
    requires ProgramOk(M, B) && Runs(M, B, a, s) && a.code == Cons(Leaf(Return), tl) && |pad| == EXN_CELLS
    ensures Follows(M, B, ReturnFrom(M, a, a.seg, s.world), Macro(M, s, pad))
  {
    hide ProgramOk, Repr, RelActs, CachesOk, Rel, InstOk, Micro, Macro, At, Enc, Wf, FetchExec, RelCtxs, CtxCells, Header, EncInstr;
    Setup(M, B, a, s);
    LeafHead(M, B, a, s, Return, tl);
    var fr := Top(s.frames);
    var l := |s.labels| - fr.labelidx;
    ReturnExec(M, s, pad);
    CallerBranch(M, B, a, s, l);
    assert Under(s.stack, 0) == s.stack && Under(a.seg, 0) == a.seg;
    JumpFrom(M, B, a, s, s.(p := s.p + 1, event := Branch(l, false)), 0, l, pad);
  }

  /** A branch by the number of labels is a return. */
  lemma CallerBranch(M: Machine, B: Bodies, a: Acts, s: State, l: nat)
    requires ProgramOk(M, B) && Runs(M, B, a, s) && FrameFits(s) && l == |s.labels| - Top(s.frames).labelidx
    ensures TakeBranch(M, a, a.seg, l, s.world) == ReturnFrom(M, a, a.seg, s.world)
  {
    hide ProgramOk, CachesOk, InstOk;
    var fr := Top(s.frames);
    hide RelCtxs, BranchTo;
    CtxToCaller(ModOf(M, a.inst).types, Body(M, B, a.inst, a.fidx), FuncAt(M, a.inst, a.fidx).start,
                a.ctxs, s.labels[fr.labelidx..], fr.height, a.code, s.p, a.seg, l);
  }

  lemma BrTableExec(M: Machine, s: State, n: nat, q: nat, r: nat, v: nat, next: nat, pad: seq<cell>)
    requires StateOk(M, s) && FrameFits(s) && |pad| == EXN_CELLS && s.stack != []
    requires s.p < |ModOf(M, s.inst).bytes| && ModOf(M, s.inst).bytes[s.p] == BR_TABLE
    requires ReadU32(ModOf(M, s.inst).bytes, s.p + 1) == Some(Imm(n, q))
    requires SkipLebs(ModOf(M, s.inst).bytes, q, if Top(s.stack) >= n then n else Top(s.stack)) == Some(r)
    requires ReadU32(ModOf(M, s.inst).bytes, r) == Some(Imm(v, next))
    ensures FetchExec(M, s, pad) == Jumping(s.(stack := Pop(s.stack)), next, v)
  {
    hide InstOk, ReadU32, SkipLebs, ReadS33, HeaderEnd;
  }

  /** br_table's walk over its entries reads the one that the operand selects. */
  lemma BrTableWalk(code: seq<byte>, p: nat, count: seq<byte>, table: seq<seq<byte>>, dflt: seq<byte>, v: nat)
    returns (r: nat, next: nat)
    requires LeafWf(BrTable(count, table, dflt)) && At(code, p, EncLeaf(BrTable(count, table, dflt)))
    ensures p < |code| && code[p] == BR_TABLE && IsU32(TableEntry(table, dflt, v))
    ensures ReadU32(code, p + 1) == Some(Imm(|table|, p + 1 + |count|))
    ensures SkipLebs(code, p + 1 + |count|, if v >= |table| then |table| else v) == Some(r)
    ensures ReadU32(code, r) == Some(Imm(U32(TableEntry(table, dflt, v)), next))
  {
    hide IsU32, U32, ReadU32, Flat, SkipLebs, At, TableEntry;
    AtHead(code, p, BR_TABLE, count + (Flat(table) + dflt));
    BrTableAt(code, p + 1, count, table, dflt);
    var l := if v >= |table| then |table| else v;
    SameEntry(table, dflt, v);
    TableWalk(code, p + 1 + |count|, table, dflt, l);
    r := SkipLebs(code, p + 1 + |count|, l).value;
    next := ReadU32(code, r).value.next;
  }

  lemma SameEntry(table: seq<seq<byte>>, dflt: seq<byte>, v: nat)
    ensures TableEntry(table, dflt, if v >= |table| then |table| else v) == TableEntry(table, dflt, v)
  {
  }

  lemma BrTableSim(M: Machine, B: Bodies, a: Acts, s: State, count: seq<byte>, table: seq<seq<byte>>, dflt: seq<byte>, tl: Code, pad: seq<cell>)
    requires ProgramOk(M, B) && Runs(M, B, a, s) && a.code == Cons(Leaf(BrTable(count, table, dflt)), tl) && |pad| == EXN_CELLS
    requires a.seg != []
    ensures IsU32(TableEntry(table, dflt, Top(a.seg)))
    ensures Follows(M, B, TakeBranch(M, a, Pop(a.seg), U32(TableEntry(table, dflt, Top(a.seg))), s.world), Macro(M, s, pad))
  {
    hide ProgramOk, Repr, RelActs, CachesOk, Rel, InstOk, FetchExec, Micro, Macro, TakeBranch, IsU32, U32, At, EncLeaf, LeafWf, TableEntry;
    Setup(M, B, a, s);
    hide RelCtxs, Enc, Wf;
    LeafHead(M, B, a, s, BrTable(count, table, dflt), tl);
    OperandsThere(M, B, a, s);
    var r, next := BrTableWalk(ModOf(M, s.inst).bytes, s.p, count, table, dflt, Top(s.stack));
    BrTableExec(M, s, |table|, s.p + 1 + |count|, r, U32(TableEntry(table, dflt, Top(a.seg))), next, pad);
    var l := U32(TableEntry(table, dflt, Top(a.seg)));
    JumpFrom(M, B, a, s, s.(stack := Pop(s.stack), p := next, event := Branch(l, false)), 1, l, pad);
  }

  /** A call leaves its arguments on top of the caller's operands. */
  lemma CallStepSim(M: Machine, B: Bodies, a: Acts, s: State, i: seq<byte>, tl: Code, f: nat, pad: seq<cell>)
    requires ProgramOk(M, B) && Runs(M, B, a, s) && a.code == Cons(Leaf(Call(i)), tl) && |pad| == EXN_CELLS && IsU32(i)
    requires U32(i) < |M.insts[a.inst].funcs| && f == M.insts[a.inst].funcs[U32(i)]
    requires f < |M.finsts| && FinstOk(M, f) && M.finsts[f].typ.params <= |a.seg|
    ensures var n := M.finsts[f].typ.params;
            Follows(M, B, On(Conf(a.(seg := Under(a.seg, n), code := tl), Calling(f, TopN(a.seg, n), Fresh), s.world)), Macro(M, s, pad))
  {
    hide ProgramOk, Repr, Rel, Micro, Macro, U32, IsU32, FinstOk, InstOk, EncInstr;
    U32Micro(M, B, a, s, Call(i), CALL, i, tl, pad);
    MacroIs(M, s, pad);
    CallPushed(M, B, a, s, Leaf(Call(i)), tl, f);
  }

  lemma CallPushed(M: Machine, B: Bodies, a: Acts, s: State, i: Instr, tl: Code, f: nat)
    requires ProgramOk(M, B) && Runs(M, B, a, s) && a.code == Cons(i, tl) && FinstOk(M, f)
    requires f < |M.finsts| && M.finsts[f].typ.params <= |a.seg|
    ensures var n := M.finsts[f].typ.params;
            Rel(M, B, Conf(a.(seg := Under(a.seg, n), code := tl), Calling(f, TopN(a.seg, n), Fresh), s.world),
                s.(p := EndPos(i, s.p), event := CallEvent(f)))
  {
    hide ProgramOk, Repr, Rel, RelActs, CachesOk, InstOk, FinstOk, EncInstr, RelCtxs, CtxCells, Enc, Wf, StateOk, FetchExec, Micro;
    var n := M.finsts[f].typ.params;
    OperandsThere(M, B, a, s);
    DropSim(M, B, a, s, i, tl, n);
    PoppedOperands(M, B, a, s, n);
    ArgsBack(M, B, a.(seg := Under(a.seg, n), code := tl), s.(stack := Under(s.stack, n), p := EndPos(i, s.p)), TopN(a.seg, n), f,
             s.(p := EndPos(i, s.p), event := CallEvent(f)));
  }

  lemma PoppedOperands(M: Machine, B: Bodies, a: Acts, s: State, n: nat)
    requires ProgramOk(M, B) && Runs(M, B, a, s) && n <= |a.seg|
    ensures n <= |s.stack| && TopN(s.stack, n) == TopN(a.seg, n) && |TopN(a.seg, n)| == n
    ensures s.stack == Under(s.stack, n) + TopN(a.seg, n)
    ensures StateOk(M, s) && s.resume == Fresh
  {
    hide ProgramOk, Repr, CachesOk, InstOk, StateOk, RelActs, CtxCells;
    Setup(M, B, a, s);
    CellsTop(s.stack[..Top(s.frames).height], a.ctxs, a.seg, n);
  }

  /** Arguments put back on the operand stack, for the function about to be called. */
  lemma ArgsBack(M: Machine, B: Bodies, a: Acts, s1: State, args: seq<cell>, f: nat, t: State)
    requires ProgramOk(M, B) && Rel(M, B, Conf(a, Run, s1.world), s1) && FinstOk(M, f) && M.finsts[f].typ.params == |args|
    requires t == s1.(stack := s1.stack + args, event := CallEvent(f)) && t.resume == Fresh
    ensures Rel(M, B, Conf(a, Calling(f, args, Fresh), s1.world), t)
  {
    hide ProgramOk, RelActs, InstOk, EntryOk, ModuleOk;
    assert t.stack[..|t.stack| - |args|] == s1.stack;
  }

  /** A tail call leaves the frame and keeps its arguments. */
  lemma TailCallSim(M: Machine, B: Bodies, a: Acts, s: State, i: seq<byte>, tl: Code, f: nat, pad: seq<cell>)
    requires ProgramOk(M, B) && Runs(M, B, a, s) && a.code == Cons(Leaf(ReturnCall(i)), tl) && |pad| == EXN_CELLS && IsU32(i)
    requires U32(i) < |M.insts[a.inst].funcs| && f == M.insts[a.inst].funcs[U32(i)]
    requires f < |M.finsts| && FinstOk(M, f) && M.finsts[f].typ.params <= |a.seg|
    ensures Follows(M, B, On(Conf(a.below, Calling(f, TopN(a.seg, M.finsts[f].typ.params), Fresh), s.world)), Macro(M, s, pad))
  {
    hide ProgramOk, Repr, RelActs, CachesOk, Rel, Micro, Macro, U32, IsU32, FinstOk, InstOk, EncInstr, FrameRel;
    U32Micro(M, B, a, s, ReturnCall(i), RETURN_CALL, i, tl, pad);
    var s1 := s.(p := s.p + 1 + |i|, event := TailCall(f));
    MacroTwice(M, s, s1, pad);
    Setup(M, B, a, s);
    TailCallLeave(M, B, a, s, s1, f, pad);
  }

  lemma TailCallLeave(M: Machine, B: Bodies, a: Acts, s: State, s1: State, f: nat, pad: seq<cell>)
    requires ProgramOk(M, B) && Runs(M, B, a, s) && FinstOk(M, f) && f < |M.finsts| && M.finsts[f].typ.params <= |a.seg|
    requires s.frames != [] && s1 == s.(p := s1.p, event := TailCall(f)) && StateOk(M, s1) && |pad| == EXN_CELLS
    ensures Follows(M, B, On(Conf(a.below, Calling(f, TopN(a.seg, M.finsts[f].typ.params), Fresh), s.world)), Micro(M, s1, pad))
  {
    hide ProgramOk, CachesOk, InstOk, FinstOk, RelCtxs, CtxCells, RelActs, FrameExit;
    var n, fr := M.finsts[f].typ.params, Top(s.frames);
    SameCaches(M, B, s, s1);
    LeaveFrame(M, B, a, s1, s.p);
    var base := s.stack[..fr.height];
    CellsTop(base, a.ctxs, a.seg, n);
    assert s.stack == base + CtxCells(a.ctxs, a.seg);
    var s2 := FrameExit(M, s1).(event := CallEvent(f), stack := base + TopN(a.seg, n));
    assert Micro(M, s1, pad) == Go(s2);
    SameCaches(M, B, FrameExit(M, s1), s2);
    assert s2.stack[|s2.stack| - n..] == TopN(a.seg, n) && s2.stack[..|s2.stack| - n] == base;
  }
}
