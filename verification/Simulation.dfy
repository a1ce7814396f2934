/**
  The main result on control: the flat machine follows the structured one,
  step by step and over whole runs.
 */
module Simulation {
  import opened Leb
  import opened Code
  import opened Jumps
  import opened Machine
  import opened Structured
  import opened Relation
  import opened Exits
  import opened Branches
  import opened Returns
  import opened Calls
  import opened Steps
  import opened Blocks
  import opened Unwinding

  // ---- throwing ----

  /** The state that has pushed an exnref over the operands of `a` without its top `n`. */
  lemma Thrown(M: Machine, B: Bodies, a: Acts, s: State, s1: State, n: nat, exn: seq<cell>, pad: seq<cell>)
    requires ProgramOk(M, B) && Runs(M, B, a, s) && n <= |a.seg| && n <= |s.stack| && |pad| == EXN_CELLS
    requires s1 == s.(stack := Under(s.stack, n) + exn, p := s1.p, event := Exception) && |exn| == EXNREF_CELLS
    ensures StateOk(M, s1)
    ensures Follows(M, B, RaiseExn(M, a.(seg := Under(a.seg, n)), exn, s.world), Micro(M, s1, pad))
  {
    hide ProgramOk, CachesOk, InstOk, Rel, RaiseExn, Micro, RelActs, Follows;
    var s0 := s.(stack := Under(s.stack, n));
    PopOperand(M, B, a, s, s0, n);
    SameCaches(M, B, s0, s1);
    ExceptionSim(M, B, a.(seg := Under(a.seg, n)), s1, Under(s.stack, n), exn, s.p, pad);
  }

  lemma ThrowSim(M: Machine, B: Bodies, a: Acts, s: State, i: seq<byte>, tl: Code, tag: nat, n: nat, pad: seq<cell>)
    requires a.Wasm? && ProgramOk(M, B) && Runs(M, B, a, s) && a.code == Cons(Leaf(Throw(i)), tl) && |pad| == EXN_CELLS && IsU32(i)
    requires a.inst < |M.insts| && U32(i) < |M.insts[a.inst].tags| && tag == M.insts[a.inst].tags[U32(i)] && TagOk(M, tag)
    requires tag < U64 && tag in M.tagCells && n == M.tagCells[tag] <= EXN_CELLS && n <= |a.seg|
    ensures Follows(M, B, RaiseExn(M, a.(seg := Under(a.seg, n)), TopN(a.seg, n) + (pad[n..] + TagCells(tag)), s.world), Macro(M, s, pad))
  {
    hide ProgramOk, Repr, Rel, Micro, Macro, U32, IsU32, InstOk, EncInstr, RaiseExn, TagCells, Follows, Runs, ExecU32, TopN, Under, Enc, EncLeaf;
    assert EncLeaf(Throw(i)) == [THROW] + i by { ThrowBytes(i); }
    assert a.Wasm? && n <= |s.stack| by { RunsWasm(M, B, a, s); OperandsThere(M, B, a, s); }
    var more := pad[n..] + TagCells(tag);
    var exn := TopN(a.seg, n) + more;
    var s1 := s.(stack := s.stack + more, p := s.p + 1 + |i|, event := Exception);
    TagCellsSize(tag);
    U32Micro(M, B, a, s, Throw(i), THROW, i, tl, pad);
    ThrowExec(M, s, U32(i), s1.p, pad);
    SameTop(M, B, a, s, n);
    TopAndMore(s.stack, n, more);
    TopSize(a.seg, n);
    Thrown(M, B, a, s, s1, n, exn, pad);
    MacroTwice(M, s, s1, pad);
  }

  lemma RunsWasm(M: Machine, B: Bodies, a: Acts, s: State)
    requires ProgramOk(M, B) && Runs(M, B, a, s)
    ensures a.Wasm?
  {
  }

  lemma ThrowBytes(i: seq<byte>)
    ensures EncLeaf(Throw(i)) == [THROW] + i
  {
  }

  lemma TopSize(stack: seq<cell>, n: nat)
    requires n <= |stack|
    ensures |TopN(stack, n)| == n
  {
  }

  lemma SameTop(M: Machine, B: Bodies, a: Acts, s: State, n: nat)
    requires ProgramOk(M, B) && Runs(M, B, a, s) && n <= |a.seg| && n <= |s.stack|
    ensures TopN(s.stack, n) == TopN(a.seg, n)
  {
    hide ProgramOk, Repr, Runs;
    PopOperand(M, B, a, s, s.(stack := Under(s.stack, n)), n);
  }

  /** The execution of throw, of an exception with a tag. */
  lemma ThrowExec(M: Machine, s: State, i: nat, next: nat, pad: seq<cell>)
    requires StateOk(M, s) && |pad| == EXN_CELLS && i < |M.insts[s.inst].tags| && TagOk(M, M.insts[s.inst].tags[i])
    requires M.tagCells[M.insts[s.inst].tags[i]] <= |s.stack|
    ensures var tag := M.insts[s.inst].tags[i];
            ExecU32(M, s, THROW, i, next, pad) ==
            Go(s.(stack := s.stack + (pad[M.tagCells[tag]..] + TagCells(tag)), p := next, event := Exception))
  {
    hide StateOk, InstOk, TagCells;
  }

  lemma TopAndMore(stack: seq<cell>, n: nat, more: seq<cell>)
    requires n <= |stack|
    ensures stack + more == Under(stack, n) + (TopN(stack, n) + more)
  {
  }

  lemma TagCellsSize(t: nat)
    requires t < U64
    ensures |TagCells(t)| == 2
  {
  }

  lemma ThrowRefMicro(M: Machine, B: Bodies, a: Acts, s: State, tl: Code, pad: seq<cell>)
    requires ProgramOk(M, B) && Runs(M, B, a, s) && a.code == Cons(Leaf(ThrowRef), tl) && |pad| == EXN_CELLS
    ensures StateOk(M, s) && Micro(M, s, pad) == Go(s.(p := s.p + 1, event := Exception))
  {
    hide ProgramOk, Repr, RelActs, CachesOk, Rel, InstOk, At, Enc, Wf, RelCtxs, Micro, FetchExec;
    Setup(M, B, a, s);
    LeafHead(M, B, a, s, ThrowRef, tl);
    ThrowRefExec(M, s, pad);
  }

  lemma ThrowRefExec(M: Machine, s: State, pad: seq<cell>)
    requires StateOk(M, s) && FrameFits(s) && |pad| == EXN_CELLS
    requires s.p < |ModOf(M, s.inst).bytes| && ModOf(M, s.inst).bytes[s.p] == THROW_REF
    ensures FetchExec(M, s, pad) == Go(s.(p := s.p + 1, event := Exception))
  {
    hide InstOk, ReadU32, SkipLebs, ReadS33, HeaderEnd;
  }

  lemma ThrowRefSim(M: Machine, B: Bodies, a: Acts, s: State, tl: Code, pad: seq<cell>)
    requires ProgramOk(M, B) && Runs(M, B, a, s) && a.code == Cons(Leaf(ThrowRef), tl) && |pad| == EXN_CELLS
    requires EXNREF_CELLS <= |a.seg|
    ensures Follows(M, B, RaiseExn(M, a.(seg := Under(a.seg, EXNREF_CELLS)), TopN(a.seg, EXNREF_CELLS), s.world), Macro(M, s, pad))
  {
    hide ProgramOk, Repr, Rel, InstOk, Macro, Micro, RaiseExn, Follows;
    ThrowRefMicro(M, B, a, s, tl, pad);
    OperandsThere(M, B, a, s);
    var n := EXNREF_CELLS;
    PopOperand(M, B, a, s, s.(stack := Under(s.stack, n)), n);
    var s1 := s.(p := s.p + 1, event := Exception);
    assert s1.stack == Under(s.stack, n) + TopN(a.seg, n);
    Thrown(M, B, a, s, s1, n, TopN(a.seg, n), pad);
    MacroTwice(M, s, s1, pad);
  }

  // ---- one step ----

  lemma LeafSim(M: Machine, B: Bodies, a: Acts, s: State, l: Leaf, tl: Code, pad: seq<cell>)
    requires ProgramOk(M, B) && MachineOk(M) && Runs(M, B, a, s) && a.code == Cons(Leaf(l), tl) && |pad| == EXN_CELLS
    requires LeafWf(l) && FuncOk(M, a.inst, a.fidx)
    ensures Follows(M, B, StepLeaf(M, a, l, tl, s.world, pad), Macro(M, s, pad))
  {
    hide ProgramOk, Repr, Rel, Macro, TakeBranch, ReturnFrom, RaiseExn, U32, IsU32;
    match l {
      case Plain(x) => PlainSim(M, B, a, s, x, tl, pad);
      case Br(i) => BrSim(M, B, a, s, i, tl, pad);
      case BrIf(i) => if a.seg != [] { BrIfSim(M, B, a, s, i, tl, pad); }
      case BrTable(count, table, dflt) => if a.seg != [] { BrTableSim(M, B, a, s, count, table, dflt, tl, pad); }
      case Return => ReturnStepSim(M, B, a, s, tl, pad);
      case Call(i) => CallsSim(M, B, a, s, l, i, tl, pad);
      case ReturnCall(i) => CallsSim(M, B, a, s, l, i, tl, pad);
      case Throw(i) => ThrowsSim(M, B, a, s, i, tl, pad);
      case ThrowRef => if EXNREF_CELLS <= |a.seg| { ThrowRefSim(M, B, a, s, tl, pad); }
    }
  }

  lemma CallsSim(M: Machine, B: Bodies, a: Acts, s: State, l: Leaf, i: seq<byte>, tl: Code, pad: seq<cell>)
    requires ProgramOk(M, B) && MachineOk(M) && Runs(M, B, a, s) && a.code == Cons(Leaf(l), tl) && |pad| == EXN_CELLS
    requires (l == Call(i) || l == ReturnCall(i)) && IsU32(i) && LeafWf(l) && FuncOk(M, a.inst, a.fidx)
    ensures Follows(M, B, StepLeaf(M, a, l, tl, s.world, pad), Macro(M, s, pad))
  {
    hide ProgramOk, Repr, Rel, Macro, U32, IsU32;
    if U32(i) < |M.insts[a.inst].funcs| {
      var f := M.insts[a.inst].funcs[U32(i)];
      assert FinstOk(M, f);
      if M.finsts[f].typ.params <= |a.seg| {
        if l == Call(i) { CallStepSim(M, B, a, s, i, tl, f, pad); } else { TailCallSim(M, B, a, s, i, tl, f, pad); }
      }
    }
  }

  lemma ThrowsSim(M: Machine, B: Bodies, a: Acts, s: State, i: seq<byte>, tl: Code, pad: seq<cell>)
    requires ProgramOk(M, B) && MachineOk(M) && Runs(M, B, a, s) && a.code == Cons(Leaf(Throw(i)), tl) && |pad| == EXN_CELLS
    requires IsU32(i) && LeafWf(Throw(i)) && FuncOk(M, a.inst, a.fidx)
    ensures Follows(M, B, StepLeaf(M, a, Throw(i), tl, s.world, pad), Macro(M, s, pad))
  {
    hide ProgramOk, Repr, Rel, Macro, U32, IsU32, RaiseExn, TagCells;
    var tags := M.insts[a.inst].tags;
    if U32(i) < |tags| {
      assert TagOk(M, tags[U32(i)]);
      var n := M.tagCells[tags[U32(i)]];
      if n <= |a.seg| { ThrowSim(M, B, a, s, i, tl, tags[U32(i)], n, pad); }
    }
  }

  lemma RunSim(M: Machine, B: Bodies, a: Acts, s: State, pad: seq<cell>)
    requires ProgramOk(M, B) && MachineOk(M) && Runs(M, B, a, s) && FuncOk(M, a.inst, a.fidx) && |pad| == EXN_CELLS
    ensures Follows(M, B, StepRun(M, a, s.world, pad), Macro(M, s, pad))
  {
    hide ProgramOk, MachineOk, Repr, Rel, Macro, ReturnFrom, LeaveBlock, StepLeaf, StepIf, Enter, InstOk, LeafWf;
    match a.code {
      case Nil =>
        if a.ctxs.Base? { FuncEndSim(M, B, a, s, pad); }
        else if a.ctxs.blk.Blk? && a.ctxs.blk.hasElse && !a.ctxs.inElse { ElseSim(M, B, a, s, pad); }
        else { EndSim(M, B, a, s, pad); }
      case Cons(i, tl) =>
        match i {
          case Leaf(l) => if LeafWf(l) { LeafSim(M, B, a, s, l, tl, pad); }
          case Blk(kind, _, _, _, _, _, _) =>
            if kind == KIf { IfSim(M, B, a, s, i, tl, pad); } else { EnterBlock(M, B, a, s, i, tl, pad); }
        }
    }
  }

  lemma WrongFollows(M: Machine, B: Bodies, o: Outcome)
    requires ProgramOk(M, B)
    ensures Follows(M, B, Wrong, o)
  {
  }

  lemma CallSim(M: Machine, B: Bodies, c: Conf, s: State, pad: seq<cell>)
    requires ProgramOk(M, B) && MachineOk(M) && Rel(M, B, c, s) && c.mode.Calling? && StateOk(M, s) && |pad| == EXN_CELLS
    ensures Follows(M, B, StepCall(M, B, c), Micro(M, s, pad))
  {
    hide ProgramOk, MachineOk, Repr, RelActs, CachesOk, Micro, InstOk, StepCall, Follows;
    if M.finsts[c.mode.func].WasmFunc? { EnterSim(M, B, c, s, pad); } else { HostSim(M, B, c, s, pad); }
  }

  /** Handling a call leaves no transient event. */
  lemma CallSettles(M: Machine, s: State, pad: seq<cell>)
    requires StateOk(M, s) && s.event.CallEvent? && |pad| == EXN_CELLS
    ensures Micro(M, s, pad).Go? ==> !Transient(Micro(M, s, pad).s.event)
  {
    hide DoCall, StateOk;
  }

  lemma ReturnSettles(M: Machine, B: Bodies, c: Conf, s: State, pad: seq<cell>)
    requires ProgramOk(M, B) && Rel(M, B, c, s) && c.mode.Returned? && |pad| == EXN_CELLS
    ensures Micro(M, s, pad).Go? ==> !Transient(Micro(M, s, pad).s.event)
  {
    hide ProgramOk, CachesOk, InstOk, FinstOk, FrameRel, FetchExec;
  }

  /**
    One structured step is one macro step of the flat machine: the same state
    up to representation, the same results, or the same trap.
   */
  lemma StepSim(M: Machine, B: Bodies, c: Conf, s: State, pad: seq<cell>)
    requires ProgramOk(M, B) && MachineOk(M) && Rel(M, B, c, s) && StateOk(M, s) && |pad| == EXN_CELLS
    ensures Follows(M, B, Step(M, B, c, pad), Macro(M, s, pad))
  {
    hide ProgramOk, MachineOk, RelActs, CachesOk, Macro, Micro, InstOk, StepRun, StepCall, FinstOk, Follows;
    match c.mode {
      case Run =>
        if c.acts.Wasm? && FuncOk(M, c.acts.inst, c.acts.fidx) {
          RunSim(M, B, c.acts, s, pad);
        } else {
          WrongFollows(M, B, Macro(M, s, pad));
        }
      case Calling(f, _, _) =>
        CallSim(M, B, c, s, pad);
        CallSettles(M, s, pad);
        MacroIs(M, s, pad);
      case Returned(_) =>
        ResumeSim(M, B, c, s, pad);
        ReturnSettles(M, B, c, s, pad);
        MacroIs(M, s, pad);
    }
  }
}
