/**
  Entering and leaving blocks: block, loop, try_table, if with and without
  else, the else that ends a then-branch, and end.
 */
module Blocks {
  import opened Leb
  import opened Code
  import opened Jumps
  import opened Machine
  import opened Structured
  import opened Relation
  import opened Exits
  import opened Branches
  import opened Returns
  import opened Calls
  import opened Steps

  /** What the fetch reads at a block header. */
  ghost predicate HeaderRead(code: seq<byte>, p: nat, b: Instr) {
    && b.Blk? && IsS33(b.bt) && p < |code| && code[p] == KindOp(b.kind)
    && ReadS33(code, p + 1) == Some(Imm(S33(b.bt), p + 1 + |b.bt|))
    && (b.kind == KTry ==> HeaderEnd(code, p) == Some(BodyPos(b, p)))
    && (b.kind != KTry ==> BodyPos(b, p) == p + 1 + |b.bt|)
  }

  lemma HeaderReads(code: seq<byte>, p: nat, b: Instr)
    requires b.Blk? && HeaderWf(b) && At(code, p, Header(b))
    ensures HeaderRead(code, p, b)
  {
    hide *;
    TypeWf(b);
    HeaderAt(code, p, b);
    BodyAt(b, p);
    HeaderEndOf(code, p, b);
    HeaderFacts(code, p, b);
  }

  lemma TypeWf(b: Instr)
    requires b.Blk? && HeaderWf(b)
    ensures IsS33(b.bt)
  {
    hide IsS33;
  }

  lemma BodyAt(b: Instr, p: nat)
    requires b.Blk?
    ensures BodyPos(b, p) == p + |Header(b)|
  {
    hide Header;
  }

  lemma HeaderFacts(code: seq<byte>, p: nat, b: Instr)
    requires b.Blk? && IsS33(b.bt) && p < |code| && code[p] == KindOp(b.kind)
    requires ReadS33(code, p + 1) == Some(Imm(S33(b.bt), p + 1 + |b.bt|))
    requires (b.kind == KTry ==> HeaderEnd(code, p) == Some(BodyPos(b, p)))
    requires b.kind != KTry ==> BodyPos(b, p) == p + 1 + |b.bt|
    ensures HeaderRead(code, p, b)
  {
    hide IsS33, S33, ReadS33, HeaderEnd, BodyPos, KindOp;
  }

  lemma HeaderEndOf(code: seq<byte>, p: nat, b: Instr)
    requires b.Blk? && InsnEnd(code, p) == Some(Tok(KindOp(b.kind), BodyPos(b, p)))
    ensures b.kind == KTry ==> HeaderEnd(code, p) == Some(BodyPos(b, p))
  {
    hide HeaderEnd, Header, ReadS33;
  }

  /** The header of the block that is next. */
  lemma BlockHead(M: Machine, B: Bodies, a: Acts, s: State, b: Instr, tl: Code)
    requires ProgramOk(M, B) && Runs(M, B, a, s) && a.code == Cons(b, tl) && b.Blk?
    ensures StateOk(M, s) && FrameFits(s) && s.inst == a.inst && HeaderRead(ModOf(M, s.inst).bytes, s.p, b)
    ensures InstrWf(b) && HeaderWf(b)
  {
    hide ProgramOk, Repr, RelActs, CachesOk, InstOk, FetchExec, Micro, EncInstr, Header, Wf, InstrWf, HeaderWf, HeaderRead;
    Setup(M, B, a, s);
    hide RelCtxs;
    var code := ModOf(M, s.inst).bytes;
    EncHead(b, tl);
    WfHead(b, tl);
    hide Enc;
    AtSplit(code, s.p, EncInstr(b), Enc(tl));
    BlockAt(code, s.p, b);
    HeaderReads(code, s.p, b);
  }

  /** The labels after a block has pushed its own. */
  lemma CtxEnter(types: seq<Sig>, body: Code, start: nat, ctxs: Ctxs, L: seq<Label>, base: nat, p: nat,
                 b: Instr, tl: Code, inElse: bool, seg: seq<cell>)
    requires RelCtxs(types, body, start, ctxs, L, base, Cons(b, tl), p)
    requires b.Blk? && (inElse ==> b.hasElse) && BlockType(types, b).Some? && BlockType(types, b).value.params <= |seg|
    ensures RelCtxs(types, body, start, In(Under(seg, BlockType(types, b).value.params), b, inElse, tl, ctxs),
                    L + [Label(p, base + |CtxCells(ctxs, seg)|)], base,
                    if inElse then b.els else b.body, if inElse then ElsePos(b, p) else BodyPos(b, p))
  {
    hide Enc, EncInstr, Header, BlockType, RelCtxs, CtxCells, Sub;
    CtxSub(types, body, start, ctxs, L, base, Cons(b, tl), p);
    SubInner(body, start, b, tl, p);
    CtxAdvance(types, body, start, ctxs, L, base, b, tl, p);
    CellsTop([], ctxs, seg, BlockType(types, b).value.params);
    NothingBelow(CtxCells(ctxs, seg));
    NothingBelow(CtxCells(ctxs, Under(seg, BlockType(types, b).value.params)));
    CtxPush(types, body, start, ctxs, L, base, p, b, tl, inElse, Under(seg, BlockType(types, b).value.params),
            |CtxCells(ctxs, seg)|);
  }

  lemma NothingBelow(x: seq<cell>)
    ensures [] + x == x
  {
  }

  lemma CtxPush(types: seq<Sig>, body: Code, start: nat, ctxs: Ctxs, L: seq<Label>, base: nat, p: nat,
                b: Instr, tl: Code, inElse: bool, outer: seq<cell>, height: nat)
    requires RelCtxs(types, body, start, ctxs, L, base, tl, EndPos(b, p))
    requires b.Blk? && (inElse ==> b.hasElse) && BlockType(types, b).Some?
    requires height == |CtxCells(ctxs, outer)| + BlockType(types, b).value.params
    requires Sub(body, start, Cons(b, tl), p)
    requires var c := if inElse then b.els else b.body;
             var q := if inElse then ElsePos(b, p) else BodyPos(b, p);
             Sub(body, start, c, q) && q + |Enc(c)| == StopPos(b, inElse, p)
    ensures RelCtxs(types, body, start, In(outer, b, inElse, tl, ctxs), L + [Label(p, base + height)], base,
                    if inElse then b.els else b.body, if inElse then ElsePos(b, p) else BodyPos(b, p))
  {
    hide Enc, EncInstr, Header, BlockType, CtxCells, Sub, StopPos;
    assert Pop(L + [Label(p, base + height)]) == L;
  }

  /** The label that a block pushes, and the state that then runs its body. */
  lemma PushedLabel(M: Machine, B: Bodies, a: Acts, s: State, p: nat, b: Instr, tl: Code, inElse: bool, w: World, s2: State)
    requires ProgramOk(M, B) && a.Wasm? && FuncOk(M, a.inst, a.fidx) && Repr(M, B, a, s, s.stack, p)
    requires a.code == Cons(b, tl) && b.Blk? && (inElse ==> b.hasElse) && Enter(M, a, b, a.seg, inElse, tl, w).On?
    requires s2 == s.(labels := s.labels + [Label(p, |s.stack|)], p := if inElse then ElsePos(b, p) else BodyPos(b, p),
                      event := NoEvent, world := w, jcache := s2.jcache, cache := s2.cache)
    requires s.resume == Fresh && StateOk(M, s2) && CachesOk(M, B, s2)
    ensures Rel(M, B, Enter(M, a, b, a.seg, inElse, tl, w).c, s2)
    ensures Repr(M, B, Enter(M, a, b, a.seg, inElse, tl, w).c.acts, s2, s2.stack, s2.p)
  {
    hide ProgramOk, CachesOk, InstOk, Enc, EncInstr, Header, BlockType, RelCtxs, CtxCells, Rel;
    var fr := Top(s.frames);
    var types := ModOf(M, a.inst).types;
    var L := s.labels[fr.labelidx..];
    var t := BlockType(types, b).value;
    var a2 := Enter(M, a, b, a.seg, inElse, tl, w).c.acts;
    CtxEnter(types, Body(M, B, a.inst, a.fidx), FuncAt(M, a.inst, a.fidx).start, a.ctxs, L, fr.height, p, b, tl, inElse, a.seg);
    assert s2.labels[fr.labelidx..] == L + [Label(p, fr.height + |CtxCells(a.ctxs, a.seg)|)];
    assert s2.labels[..fr.labelidx] == s.labels[..fr.labelidx];
    EnteredCells(a.ctxs, a.seg, t.params, b, inElse, tl);
    Reframe(M, B, a, s, p, a2, s2);
  }

  lemma EnteredCells(ctxs: Ctxs, seg: seq<cell>, n: nat, b: Instr, inElse: bool, tl: Code)
    requires n <= |seg|
    ensures CtxCells(In(Under(seg, n), b, inElse, tl, ctxs), TopN(seg, n)) == CtxCells(ctxs, seg)
  {
    CellsAppend(ctxs, Under(seg, n), TopN(seg, n));
    assert Under(seg, n) + TopN(seg, n) == seg;
  }

  /** block, loop and try_table push their label and run their body. */
  lemma EnterBlock(M: Machine, B: Bodies, a: Acts, s: State, b: Instr, tl: Code, pad: seq<cell>)
    requires ProgramOk(M, B) && Runs(M, B, a, s) && a.code == Cons(b, tl) && b.Blk? && b.kind != KIf && |pad| == EXN_CELLS
    requires FuncOk(M, a.inst, a.fidx)
    ensures Follows(M, B, Enter(M, a, b, a.seg, false, tl, s.world), Macro(M, s, pad))
  {
    hide ProgramOk, Repr, RelActs, CachesOk, InstOk, Macro, ReadS33, HeaderEnd, Rel, Enter, Header, FrameRel, HeaderWf, InstrWf;
    BlockHead(M, B, a, s, b, tl);
    Setup(M, B, a, s);
    hide RelCtxs, Enc, Wf, At;
    var s2 := PushLabel(s, BodyPos(b, s.p));
    assert Micro(M, s, pad) == Go(s2);
    hide Micro;
    MacroIs(M, s, pad);
    EnterOnly(M, a, b, a.seg, false, tl, s.world);
    if Enter(M, a, b, a.seg, false, tl, s.world).On? {
      SameCaches(M, B, s, s2);
      PushedLabel(M, B, a, s, s.p, b, tl, false, s.world, s2);
    }
  }

  lemma EnterOnly(M: Machine, a: Acts, b: Instr, seg: seq<cell>, inElse: bool, tl: Code, w: World)
    requires a.Wasm? && FuncOk(M, a.inst, a.fidx) && b.Blk?
    ensures Enter(M, a, b, seg, inElse, tl, w).On? || Enter(M, a, b, seg, inElse, tl, w).Wrong?
  {
  }

  // ---- leaving ----

  /** The byte where the code of an open block stops. */
  lemma StopByte(M: Machine, B: Bodies, a: Acts, s: State)
    requires ProgramOk(M, B) && Runs(M, B, a, s) && a.code.Nil? && a.ctxs.In?
    ensures StateOk(M, s) && FrameFits(s) && s.inst == a.inst && |s.labels| > Top(s.frames).labelidx
    ensures var code := ModOf(M, s.inst).bytes;
            && a.ctxs.blk.Blk? && HeaderWf(a.ctxs.blk)
            && s.p < |code| && code[s.p] == (if a.ctxs.blk.hasElse && !a.ctxs.inElse then ELSE else END)
            && (!(a.ctxs.blk.hasElse && !a.ctxs.inElse) ==> s.p + 1 == EndPos(a.ctxs.blk, Top(s.labels).pc))
  {
    hide ProgramOk, Repr, RelActs, CachesOk, InstOk, FetchExec, Micro, EncInstr, Header, Wf, CtxCells, InstrWf, HeaderWf, Enc;
    Setup(M, B, a, s);
    var fr := Top(s.frames);
    var L := s.labels[fr.labelidx..];
    var In(outer, blk, inElse, rest, below) := a.ctxs;
    EncNil();
    var q := Top(L).pc;
    assert Top(L) == Top(s.labels);
    CodeAt(M, B, a.inst, a.fidx, Cons(blk, rest), q);
    hide RelCtxs, StateOk, StopPos;
    WfHead(blk, rest);
    StopThere(ModOf(M, s.inst).bytes, q, blk, rest, inElse);
  }

  /** The byte after a body of a block. */
  lemma StopThere(code: seq<byte>, q: nat, blk: Instr, rest: Code, inElse: bool)
    requires blk.Blk? && At(code, q, Enc(Cons(blk, rest))) && (inElse ==> blk.hasElse)
    ensures 0 <= StopPos(blk, inElse, q) < |code| && code[StopPos(blk, inElse, q)] == if blk.hasElse && !inElse then ELSE else END
    ensures !(blk.hasElse && !inElse) ==> StopPos(blk, inElse, q) + 1 == EndPos(blk, q)
  {
    hide EncInstr, Enc, Header;
    EncHead(blk, rest);
    AtSplit(code, q, EncInstr(blk), Enc(rest));
    BlockAt(code, q, blk);
  }

  /** `end` pops the label and goes on after the block. */
  lemma EndSim(M: Machine, B: Bodies, a: Acts, s: State, pad: seq<cell>)
    requires ProgramOk(M, B) && Runs(M, B, a, s) && a.code.Nil? && a.ctxs.In? && FuncOk(M, a.inst, a.fidx) && |pad| == EXN_CELLS
    requires !(a.ctxs.blk.Blk? && a.ctxs.blk.hasElse && !a.ctxs.inElse)
    ensures Follows(M, B, LeaveBlock(M, a, s.world), Macro(M, s, pad))
  {
    hide ProgramOk, Repr, RelActs, CachesOk, InstOk, Macro, Rel, Header, EncInstr, HeaderWf, BlockType, CtxCells, ReadS33, HeaderEnd;
    StopByte(M, B, a, s);
    Setup(M, B, a, s);
    hide Enc, Wf, At, Sub;
    var fr := Top(s.frames);
    var L := s.labels[fr.labelidx..];
    var s2 := s.(labels := Pop(s.labels), p := s.p + 1);
    assert Micro(M, s, pad) == Go(s2);
    hide Micro, FetchExec;
    MacroIs(M, s, pad);
    if LeaveBlock(M, a, s.world).On? {
      var a2 := LeaveBlock(M, a, s.world).c.acts;
      OuterCells(a.ctxs, a.seg);
      assert s2.labels[fr.labelidx..] == Pop(L) && s2.labels[..fr.labelidx] == s.labels[..fr.labelidx];
      assert Top(L) == Top(s.labels);
      SameCaches(M, B, s, s2);
      Reframe(M, B, a, s, s.p, a2, s2);
    }
  }

  lemma OuterCells(ctxs: Ctxs, seg: seq<cell>)
    requires ctxs.In?
    ensures CtxCells(ctxs.below, ctxs.outer + seg) == CtxCells(ctxs, seg)
  {
    CellsAppend(ctxs.below, ctxs.outer, seg);
  }

  /** `else` at the end of a then-branch acts as `br 0`, and agrees with the end of the block. */
  lemma ElseSim(M: Machine, B: Bodies, a: Acts, s: State, pad: seq<cell>)
    requires ProgramOk(M, B) && Runs(M, B, a, s) && a.code.Nil? && a.ctxs.In? && FuncOk(M, a.inst, a.fidx) && |pad| == EXN_CELLS
    requires a.ctxs.blk.Blk? && a.ctxs.blk.hasElse && !a.ctxs.inElse
    ensures Follows(M, B, LeaveBlock(M, a, s.world), Macro(M, s, pad))
  {
    hide ProgramOk, Repr, RelActs, CachesOk, InstOk, Macro, Rel, Header, EncInstr, BlockType, CtxCells, ReadS33, HeaderEnd, TakeBranch;
    StopByte(M, B, a, s);
    Setup(M, B, a, s);
    hide Enc, Wf, At, RelCtxs;
    assert Micro(M, s, pad) == Jumping(s, s.p + 1, 0);
    hide Micro, FetchExec;
    assert Under(s.stack, 0) == s.stack && Under(a.seg, 0) == a.seg;
    assert a.ctxs.blk.kind == KIf;
    hide HeaderWf;
    JumpFrom(M, B, a, s, s.(p := s.p + 1, event := Branch(0, false)), 0, 0, pad);
    LeaveIsBranch(M, a, s.world);
  }

  /** With exactly the results left, ending a block is branching to its label. */
  lemma LeaveIsBranch(M: Machine, a: Acts, w: World)
    requires a.Wasm? && FuncOk(M, a.inst, a.fidx) && a.ctxs.In? && a.ctxs.blk.Blk? && a.ctxs.blk.kind != KLoop
    ensures LeaveBlock(M, a, w).On? ==> TakeBranch(M, a, a.seg, 0, w) == LeaveBlock(M, a, w)
    ensures LeaveBlock(M, a, w).On? || LeaveBlock(M, a, w).Wrong?
  {
    hide InstOk, BlockType;
    assert TopN(a.seg, |a.seg|) == a.seg;
  }

  lemma EncNil()
    ensures Enc(Nil) == []
  {
  }

  /** The byte after a function body. */
  lemma LastByteIs(M: Machine, B: Bodies, a: Acts, s: State)
    requires ProgramOk(M, B) && Runs(M, B, a, s) && a.code.Nil? && a.ctxs.Base?
    ensures StateOk(M, s) && FrameFits(s) && |s.labels| == Top(s.frames).labelidx
    ensures s.p < |ModOf(M, s.inst).bytes| && ModOf(M, s.inst).bytes[s.p] == END
  {
    hide ProgramOk, Repr, RelActs, CachesOk, InstOk, CtxCells, Sub, Micro, FetchExec, Wf, Enc, At;
    Setup(M, B, a, s);
    var f, body := FuncAt(M, a.inst, a.fidx), Body(M, B, a.inst, a.fidx);
    Bytes(M, B, a.inst, a.fidx);
    EncNil();
    BodyEnd(ModOf(M, s.inst).bytes, f.start, Enc(body));
  }

  lemma BodyEnd(code: seq<byte>, p: nat, s: seq<byte>)
    requires At(code, p, s + [END])
    ensures p + |s| < |code| && code[p + |s|] == END
  {
    AtSplit(code, p, s, [END]);
    assert [END] == [END] + [];
    AtHead(code, p + |s|, END, []);
  }

  /** The `end` of a function body returns. */
  lemma FuncEndSim(M: Machine, B: Bodies, a: Acts, s: State, pad: seq<cell>)
    requires ProgramOk(M, B) && Runs(M, B, a, s) && a.code.Nil? && a.ctxs.Base? && FuncOk(M, a.inst, a.fidx) && |pad| == EXN_CELLS
    ensures Follows(M, B, ReturnFrom(M, a, a.seg, s.world), Macro(M, s, pad))
  {
    hide ProgramOk, Repr, RelActs, CachesOk, InstOk, Macro, Rel, ReadS33, HeaderEnd, ReturnFrom, Enc, FrameRel;
    LastByteIs(M, B, a, s);
    Setup(M, B, a, s);
    hide At, RelCtxs, Wf, CtxCells;
    assert Micro(M, s, pad) == Jumping(s, s.p + 1, 0);
    hide Micro, FetchExec;
    CallerBranch(M, B, a, s, 0);
    assert Under(s.stack, 0) == s.stack && Under(a.seg, 0) == a.seg;
    JumpFrom(M, B, a, s, s.(p := s.p + 1, event := Branch(0, false)), 0, 0, pad);
  }

  // ---- if ----

  lemma EnterSame(M: Machine, a: Acts, b: Instr, seg: seq<cell>, inElse: bool, tl: Code, w: World)
    requires a.Wasm? && FuncOk(M, a.inst, a.fidx) && b.Blk?
    ensures Enter(M, a.(seg := seg), b, seg, inElse, tl, w) == Enter(M, a, b, seg, inElse, tl, w)
  {
    hide BlockType, InstOk;
  }

  /** What `if` fetches: it pops the condition, pushes the label, and may schedule the jump to else. */
  lemma IfMicro(M: Machine, B: Bodies, a: Acts, s: State, b: Instr, tl: Code, pad: seq<cell>)
    requires ProgramOk(M, B) && Runs(M, B, a, s) && a.code == Cons(b, tl) && b.Blk? && b.kind == KIf && |pad| == EXN_CELLS
    requires a.seg != []
    ensures StateOk(M, s) && s.stack != [] && Pop(s.stack) == Under(s.stack, 1) && Pop(a.seg) == Under(a.seg, 1)
    ensures InstrWf(b)
    ensures var s1 := PushLabel(s.(stack := Pop(s.stack)), BodyPos(b, s.p));
            Micro(M, s, pad) == Go(if Top(a.seg) == 0 then s1.(event := Branch(0, true)) else s1)
  {
    hide ProgramOk, Repr, RelActs, CachesOk, InstOk, ReadS33, HeaderEnd, Header, HeaderWf, InstrWf, FrameRel, IsS33, S33;
    BlockHead(M, B, a, s, b, tl);
    OperandsThere(M, B, a, s);
    Setup(M, B, a, s);
    hide Runs, RelCtxs, Enc, Wf, At, Micro;
  }

  lemma IfThen(M: Machine, B: Bodies, a: Acts, s: State, b: Instr, tl: Code, pad: seq<cell>)
    requires ProgramOk(M, B) && Runs(M, B, a, s) && a.code == Cons(b, tl) && b.Blk? && b.kind == KIf && |pad| == EXN_CELLS
    requires a.seg != [] && Top(a.seg) != 0 && FuncOk(M, a.inst, a.fidx)
    ensures Follows(M, B, Enter(M, a, b, Pop(a.seg), false, tl, s.world), Macro(M, s, pad))
  {
    hide ProgramOk, Repr, RelActs, CachesOk, InstOk, Macro, Micro, Enter, Rel, Header, InstrWf, FrameRel;
    Setup(M, B, a, s);
    IfMicro(M, B, a, s, b, tl, pad);
    MacroIs(M, s, pad);
    var a1 := a.(seg := Pop(a.seg));
    var s1 := s.(stack := Pop(s.stack));
    PopOperand(M, B, a, s, s1, 1);
    EnterOnly(M, a, b, Pop(a.seg), false, tl, s.world);
    EnterSame(M, a, b, Pop(a.seg), false, tl, s.world);
    if Enter(M, a, b, Pop(a.seg), false, tl, s.world).On? {
      var s2 := PushLabel(s1, BodyPos(b, s.p));
      SameCaches(M, B, s, s2);
      PushedLabel(M, B, a1, s1, s.p, b, tl, false, s.world, s2);
    }
  }

  /** The state of `if` with a false condition, ready for the jump to else. */
  ghost predicate AtElse(M: Machine, B: Bodies, a: Acts, s: State, b: Instr, tl: Code, s3: State)
    requires ProgramOk(M, B)
  {
    && a.Wasm? && FuncOk(M, a.inst, a.fidx) && a.code == Cons(b, tl) && b.Blk? && b.kind == KIf && InstrWf(b)
    && Repr(M, B, a, s, s.stack, s.p) && s.resume == Fresh && s.event == NoEvent
    && BlockType(ModOf(M, a.inst).types, b).Some? && BlockType(ModOf(M, a.inst).types, b).value.params <= |a.seg|
    && s3 == s.(labels := s.labels + [Label(s.p, |s.stack|)], p := BodyPos(b, s.p), event := Branch(0, true))
  }

  lemma ElseRunning(M: Machine, B: Bodies, a: Acts, s: State, b: Instr, tl: Code, s3: State)
    requires ProgramOk(M, B) && AtElse(M, B, a, s, b, tl, s3)
    ensures Running(M, B, s3, b, tl, s.p) && FrameFits(s3) && s3.inst == a.inst
    ensures Top(s.frames).labelidx < |s3.labels| && s3.frames == s.frames
  {
    hide ProgramOk, CachesOk, InstOk, Header, InstrWf, BlockType, CtxCells, Sub;
    var fr := Top(s.frames);
    CtxSub(ModOf(M, a.inst).types, Body(M, B, a.inst, a.fidx), FuncAt(M, a.inst, a.fidx).start, a.ctxs,
           s.labels[fr.labelidx..], fr.height, a.code, s.p);
    SameCaches(M, B, s, s3);
  }

  lemma ElseBranch(M: Machine, B: Bodies, a: Acts, s: State, b: Instr, tl: Code, s3: State, pad: seq<cell>)
    requires ProgramOk(M, B) && AtElse(M, B, a, s, b, tl, s3) && |pad| == EXN_CELLS
    ensures StateOk(M, s3)
    ensures b.hasElse ==> Follows(M, B, Enter(M, a, b, a.seg, true, tl, s.world), Micro(M, s3, pad))
    ensures !b.hasElse && BlockType(ModOf(M, a.inst).types, b).value.params == BlockType(ModOf(M, a.inst).types, b).value.results
            ==> Follows(M, B, On(Conf(a.(code := tl), Run, s.world)), Micro(M, s3, pad))
  {
    hide ProgramOk, Repr, RelActs, CachesOk, InstOk, Header, InstrWf, BlockType, CachedBlockExit, Enter, Rel, EncInstr, Enc, Opens, FrameExit;
    ElseRunning(M, B, a, s, b, tl, s3);
    CachedExitIs(M, B, s3, b, tl, s.p, true);
    var r := CachedBlockExit(M, s3, s.p, true);
    assert s3.labels[|s3.labels| - 0 - 1] == Label(s.p, |s.stack|);
    EnterOnly(M, a, b, a.seg, true, tl, s.world);
    if b.hasElse {
      assert BranchToLabel(M, s3, 0, true) == Stayed(r.s);
      assert Micro(M, s3, pad) == Go(r.s.(event := NoEvent));
      var s4 := r.s.(event := NoEvent);
      SameCaches(M, B, r.s, s4);
      EnterIsOn(M, a, b, true, tl, s.world);
      PushedLabel(M, B, a, s, s.p, b, tl, true, s.world, s4);
    } else if BlockType(ModOf(M, a.inst).types, b).value.params == BlockType(ModOf(M, a.inst).types, b).value.results {
      NoElse(M, B, a, s, b, tl, s3, r.s, pad);
    }
  }

  lemma EnterIsOn(M: Machine, a: Acts, b: Instr, inElse: bool, tl: Code, w: World)
    requires a.Wasm? && FuncOk(M, a.inst, a.fidx) && b.Blk?
    requires BlockType(ModOf(M, a.inst).types, b).Some? && BlockType(ModOf(M, a.inst).types, b).value.params <= |a.seg|
    ensures Enter(M, a, b, a.seg, inElse, tl, w).On?
  {
    hide BlockType, InstOk;
  }

  /** Without an else the jump leaves the block, and its parameters are its results. */
  lemma NoElse(M: Machine, B: Bodies, a: Acts, s: State, b: Instr, tl: Code, s3: State, x: State, pad: seq<cell>)
    requires ProgramOk(M, B) && AtElse(M, B, a, s, b, tl, s3) && |pad| == EXN_CELLS && !b.hasElse && StateOk(M, s3)
    requires FrameFits(s3) && Top(s.frames).labelidx < |s3.labels|
    requires var t := BlockType(ModOf(M, a.inst).types, b).value;
             && t.params == t.results
             && CachedBlockExit(M, s3, s.p, true) == ExitTo(x, Exit(EndPos(b, s.p), false, t.params, t.results))
    requires x == s3.(p := EndPos(b, s.p), jcache := x.jcache, cache := x.cache) && StateOk(M, x) && CachesOk(M, B, x)
    ensures Follows(M, B, On(Conf(a.(code := tl), Run, s.world)), Micro(M, s3, pad))
  {
    hide ProgramOk, CachesOk, InstOk, Header, InstrWf, BlockType, CachedBlockExit, Rel, EncInstr, Enc, Opens, FrameExit, RelCtxs, CtxCells;
    var n, fr := BlockType(ModOf(M, a.inst).types, b).value.params, Top(s.frames);
    assert s3.labels[|s3.labels| - 0 - 1] == Label(s.p, |s.stack|);
    CellsTop(s.stack[..fr.height], a.ctxs, a.seg, n);
    assert s.stack == s.stack[..fr.height] + CtxCells(a.ctxs, a.seg);
    assert n <= |s.stack|;
    assert Rewound(s.stack, |s.stack| - n, n) == s.stack;
    assert s3.labels[..|s3.labels| - 0 - 1] == s.labels;
    var s4 := x.(labels := s.labels, event := NoEvent);
    assert Micro(M, s3, pad) == Go(s4);
    CtxAdvance(ModOf(M, a.inst).types, Body(M, B, a.inst, a.fidx), FuncAt(M, a.inst, a.fidx).start, a.ctxs,
               s.labels[fr.labelidx..], fr.height, b, tl, s.p);
    SameCaches(M, B, x, s4);
    Reframe(M, B, a, s, s.p, a.(code := tl), s4);
  }

  lemma IfElse(M: Machine, B: Bodies, a: Acts, s: State, b: Instr, tl: Code, pad: seq<cell>)
    requires ProgramOk(M, B) && Runs(M, B, a, s) && a.code == Cons(b, tl) && b.Blk? && b.kind == KIf && |pad| == EXN_CELLS
    requires a.seg != [] && Top(a.seg) == 0 && FuncOk(M, a.inst, a.fidx) && StepIf(M, a, b, tl, s.world).On?
    ensures Follows(M, B, StepIf(M, a, b, tl, s.world), Macro(M, s, pad))
  {
    hide ProgramOk, Repr, RelActs, CachesOk, InstOk, Macro, Micro, Rel, Header, InstrWf, FrameRel, BlockType;
    IfMicro(M, B, a, s, b, tl, pad);
    var a1 := a.(seg := Pop(a.seg));
    var s1 := s.(stack := Pop(s.stack));
    PopOperand(M, B, a, s, s1, 1);
    var s3 := PushLabel(s1, BodyPos(b, s.p)).(event := Branch(0, true));
    assert AtElse(M, B, a1, s1, b, tl, s3);
    ElseBranch(M, B, a1, s1, b, tl, s3, pad);
    MacroTwice(M, s, s3, pad);
    EnterSame(M, a, b, Pop(a.seg), true, tl, s.world);
  }

  lemma IfSim(M: Machine, B: Bodies, a: Acts, s: State, b: Instr, tl: Code, pad: seq<cell>)
    requires ProgramOk(M, B) && Runs(M, B, a, s) && a.code == Cons(b, tl) && b.Blk? && b.kind == KIf && |pad| == EXN_CELLS
    requires FuncOk(M, a.inst, a.fidx)
    ensures Follows(M, B, StepIf(M, a, b, tl, s.world), Macro(M, s, pad))
  {
    hide ProgramOk, Repr, InstOk, Macro, Rel, Enter, BlockType;
    if a.seg != [] {
      if Top(a.seg) != 0 { IfThen(M, B, a, s, b, tl, pad); }
      else {
        if b.hasElse { EnterOnly(M, a, b, Pop(a.seg), true, tl, s.world); }
        if StepIf(M, a, b, tl, s.world).On? { IfElse(M, B, a, s, b, tl, pad); }
      }
    }
  }
}
