/**
  Exceptions: find_catch, which walks down one stack of labels across frames,
  refines the structured search for the innermost handler, and do_exception
  leaves the operands of the handler's label.
 */
module Exceptions {
  import opened Leb
  import opened Code
  import opened Jumps
  import opened Machine
  import opened Structured
  import opened Relation
  import opened Exits
  import opened Branches
  import opened Returns
  import opened Calls
  import opened Steps

  // ---- clauses ----

  /** The clause loop picks the first clause, in order, that catches the tag. */
  lemma {:induction false} FindClauseIs(code: seq<byte>, tags: seq<nat>, p: nat, cs: seq<Clause>, tag: nat)
    requires At(code, p, EncClauses(cs)) && forall c :: c in cs ==> ClauseWf(c)
    ensures match Pick(tags, cs, tag)
            case NoClause => FindClause(code, tags, p, |cs|, tag) == NoMatch
            case Clausal(c, all) => IsU32(c.target) && FindClause(code, tags, p, |cs|, tag) == Match(U32(c.target), all)
            case BadClausal => true
    decreases |cs|
  {
    hide IsU32, U32, At, ReadClause, EncClause;
    if cs != [] {
      AtSplit(code, p, EncClause(cs[0]), EncClauses(cs[1..]));
      ReadClauseAt(code, p, cs[0]);
      FindClauseIs(code, tags, p + |EncClause(cs[0])|, cs[1..], tag);
    }
  }

  /** What the label of the block `b` catches is what its clauses catch. */
  lemma LabelCatchIs(M: Machine, inst: nat, q: nat, b: Instr, tag: nat)
    requires InstOk(M, inst) && inst < |M.insts| && b.Blk? && HeaderWf(b) && At(ModOf(M, inst).bytes, q, Header(b))
    ensures b.kind != KTry ==> LabelCatch(M, inst, q, tag) == NoMatch
    ensures b.kind == KTry ==>
              match Pick(M.insts[inst].tags, b.clauses, tag)
              case NoClause => LabelCatch(M, inst, q, tag) == NoMatch
              case Clausal(c, all) => IsU32(c.target) && LabelCatch(M, inst, q, tag) == Match(U32(c.target), all)
              case BadClausal => true
  {
    hide IsS33, S33, IsU32, U32, At, Header, InsnEnd, ReadU32, ReadS33, InstOk, EncClauses, FindClause, Pick;
    var code := ModOf(M, inst).bytes;
    HeaderAt(code, q, b);
    if b.kind == KTry {
      FindClauseIs(code, M.insts[inst].tags, q + 1 + |b.bt| + |b.count|, b.clauses, tag);
    }
  }

  // ---- the labels of one frame ----

  /** The open blocks below the `n` innermost ones. */
  function Drop(ctxs: Ctxs, n: nat): Ctxs {
    if n == 0 || ctxs.Base? then ctxs else Drop(ctxs.below, n - 1)
  }

  function Size(ctxs: Ctxs): nat { if ctxs.Base? then 0 else 1 + Size(ctxs.below) }

  lemma {:induction false} DropMore(ctxs: Ctxs, n: nat)
    requires n < Size(ctxs)
    ensures Drop(ctxs, n).In? && Drop(ctxs, n + 1) == Drop(ctxs, n).below
    ensures Size(Drop(ctxs, n)) == Size(ctxs) - n
  {
    if n > 0 { DropMore(ctxs.below, n - 1); }
  }

  /** A label counted from the innermost block, or from further out. */
  lemma {:induction false} ExactlyShift(types: seq<Sig>, ctxs: Ctxs, pay: seq<cell>, n: nat, l: nat)
    requires n <= Size(ctxs)
    ensures BranchTo(types, ctxs, pay, n + l) == BranchTo(types, Drop(ctxs, n), pay, l)
    ensures LabelTakes(types, ctxs, |pay|, n + l) == LabelTakes(types, Drop(ctxs, n), |pay|, l)
    ensures Exactly(types, ctxs, pay, n + l) == Exactly(types, Drop(ctxs, n), pay, l)
  {
    if n > 0 { ExactlyShift(types, ctxs.below, pay, n - 1, l); }
  }

  lemma {:induction false} SizeIs(types: seq<Sig>, body: Code, start: nat, ctxs: Ctxs, L: seq<Label>, base: nat, code: Code, p: nat)
    requires RelCtxs(types, body, start, ctxs, L, base, code, p)
    ensures Size(ctxs) == |L|
    decreases ctxs
  {
    hide Enc, Sub, StopPos, CtxCells;
    if ctxs.In? { SizeIs(types, body, start, ctxs.below, Pop(L), base, ctxs.rest, EndPos(ctxs.blk, Top(L).pc)); }
  }

  /** Bytes at the opener of an open block. */
  lemma LabelBytes(M: Machine, B: Bodies, inst: nat, fidx: nat, ctxs: Ctxs, L: seq<Label>, base: nat, code: Code, p: nat)
    requires ProgramOk(M, B) && FuncOk(M, inst, fidx) && ctxs.In?
    requires RelCtxs(ModOf(M, inst).types, Body(M, B, inst, fidx), FuncAt(M, inst, fidx).start, ctxs, L, base, code, p)
    ensures L != [] && ctxs.blk.Blk? && HeaderWf(ctxs.blk) && At(ModOf(M, inst).bytes, Top(L).pc, Header(ctxs.blk))
    ensures RelCtxs(ModOf(M, inst).types, Body(M, B, inst, fidx), FuncAt(M, inst, fidx).start, ctxs.below, Pop(L), base,
                    ctxs.rest, EndPos(ctxs.blk, Top(L).pc))
  {
    hide InstOk, ProgramOk, EncInstr, Header, Wf, CtxCells, InstrWf, HeaderWf, Enc, Sub, At;
    var b, tl, q := ctxs.blk, ctxs.rest, Top(L).pc;
    CodeAt(M, B, inst, fidx, Cons(b, tl), q);
    WfHead(b, tl);
    EncHead(b, tl);
    AtSplit(ModOf(M, inst).bytes, q, EncInstr(b), Enc(tl));
    BlockAt(ModOf(M, inst).bytes, q, b);
  }

  /** What a payload holds. */
  ghost predicate PayIs(pay: seq<cell>, csz: nat, exn: seq<cell>)
    requires csz <= |exn|
  {
    pay == exn[..csz] || pay == exn[..csz] + exn
  }

  /** The frame `y` of depth `k` and the `|L|` outermost of its labels. */
  ghost predicate InFrameAt(M: Machine, B: Bodies, y: Acts, s: State, k: nat, m: nat,
                            d: nat, L: seq<Label>, base: nat, code: Code, p: nat)
    requires ProgramOk(M, B)
  {
    && StateOk(M, s) && y.Wasm? && FuncOk(M, y.inst, y.fidx) && y.inst < |M.insts| && 0 < k <= |s.frames| && m <= |s.labels|
    && var fr := s.frames[k - 1];
       && fr.inst == y.inst && fr.labelidx + |L| <= m
       && s.labels[fr.labelidx..fr.labelidx + |L|] == L && d == m - fr.labelidx - |L|
       && d + |L| == Size(y.ctxs)
       && RelCtxs(ModOf(M, y.inst).types, Body(M, B, y.inst, y.fidx), FuncAt(M, y.inst, y.fidx).start,
                  Drop(y.ctxs, d), L, base, code, p)
  }

  /** The search result `r` is the handler `h`: label `li` of frame `k - 1`, with its payload. */
  ghost predicate LandsAt(types: seq<Sig>, ctxs: Ctxs, h: Handling, r: Handler, k: nat, bound: int, li: nat, all: bool,
                          csz: nat, exn: seq<cell>)
    requires csz <= |exn| && k > 0
  {
    h.Handled? && (h.target.Nowhere? ||
      (r == Found(k - 1, li, all) && li <= bound && h.target == Exactly(types, ctxs, h.payload, li)
       && PayIs(h.payload, if all then 0 else csz, exn)))
  }

  /** find_catch over the labels of one frame follows the search of one activation. */
  lemma {:induction false} FrameFind(M: Machine, B: Bodies, y: Acts, s: State, k: nat, m: nat, tag: nat, csz: nat, exn: seq<cell>,
                                     d: nat, L: seq<Label>, base: nat, code: Code, p: nat)
    returns (li: nat, all: bool)
    requires ProgramOk(M, B) && InFrameAt(M, B, y, s, k, m, d, L, base, code, p) && csz <= |exn|
    ensures var h := HandleIn(ModOf(M, y.inst).types, M.insts[y.inst].tags, Drop(y.ctxs, d), tag, csz, exn);
            var r := FindCatch(M, s, tag, s.frames[k - 1].labelidx + |L|, k - 1, m);
            if h.Unhandled? then r == FindCatch(M, s, tag, s.frames[k - 1].labelidx, k - 1, m)
            else LandsAt(ModOf(M, y.inst).types, y.ctxs, h, r, k, m - s.frames[k - 1].labelidx, li, all, csz, exn)
    decreases |L|
  {
    hide ProgramOk, InstOk, RelCtxs, Drop, Size, Enc, Sub, At, Header, HeaderWf, EncInstr, CtxCells, LabelCatch, Pick,
      StopPos, ClauseWf, Exactly, LandsAt, IsU32, U32, Payload, FindCatch, HandleIn;
    var ctxs := Drop(y.ctxs, d);
    li, all := 0, false;
    if ctxs.In? {
      LabelBytes(M, B, y.inst, y.fidx, ctxs, L, base, code, p);
      LabelCatchIs(M, y.inst, Top(L).pc, ctxs.blk, tag);
      DropMore(y.ctxs, d);
      Deeper(M, B, y, s, k, m, d, L, base, code, p);
      var picked := Pick(M.insts[y.inst].tags, ctxs.blk.clauses, tag);
      if ctxs.blk.kind == KTry && picked.Clausal? {
        li, all := Picked(M, B, y, s, k, m, tag, csz, exn, d, L, base, code, p);
      } else if ctxs.blk.kind == KTry && picked.BadClausal? {
        BadHandled(ModOf(M, y.inst).types, M.insts[y.inst].tags, ctxs, tag, csz, exn);
        NowhereLands(ModOf(M, y.inst).types, y.ctxs, FindCatch(M, s, tag, s.frames[k - 1].labelidx + |L|, k - 1, m),
                     k, m - s.frames[k - 1].labelidx, li, all, csz, exn);
      } else {
        li, all := FrameFind(M, B, y, s, k, m, tag, csz, exn, d + 1, Pop(L), base, ctxs.rest, EndPos(ctxs.blk, Top(L).pc));
        SkipHandler(ModOf(M, y.inst).types, M.insts[y.inst].tags, ctxs, tag, csz, exn);
        SkipLabel(M, s, tag, k, m, L);
      }
    } else {
      SizeIs(ModOf(M, y.inst).types, Body(M, B, y.inst, y.fidx), FuncAt(M, y.inst, y.fidx).start, ctxs, L, base, code, p);
      BaseUnhandled(ModOf(M, y.inst).types, M.insts[y.inst].tags, ctxs, tag, csz, exn);
    }
  }

  lemma BaseUnhandled(types: seq<Sig>, tags: seq<nat>, ctxs: Ctxs, tag: nat, csz: nat, exn: seq<cell>)
    requires ctxs.Base? && csz <= |exn|
    ensures HandleIn(types, tags, ctxs, tag, csz, exn).Unhandled? && Size(ctxs) == 0
  {
  }

  lemma BadHandled(types: seq<Sig>, tags: seq<nat>, ctxs: Ctxs, tag: nat, csz: nat, exn: seq<cell>)
    requires ctxs.In? && ctxs.blk.Blk? && ctxs.blk.kind == KTry && csz <= |exn| && Pick(tags, ctxs.blk.clauses, tag).BadClausal?
    ensures HandleIn(types, tags, ctxs, tag, csz, exn) == Handled(Nowhere, [])
  {
    hide Pick;
  }

  lemma NowhereLands(types: seq<Sig>, ctxs: Ctxs, r: Handler, k: nat, bound: int, li: nat, all: bool, csz: nat, exn: seq<cell>)
    requires csz <= |exn| && k > 0
    ensures LandsAt(types, ctxs, Handled(Nowhere, []), r, k, bound, li, all, csz, exn)
  {
  }

  lemma SkipHandler(types: seq<Sig>, tags: seq<nat>, ctxs: Ctxs, tag: nat, csz: nat, exn: seq<cell>)
    requires ctxs.In? && ctxs.blk.Blk? && csz <= |exn|
    requires ctxs.blk.kind != KTry || Pick(tags, ctxs.blk.clauses, tag).NoClause?
    ensures HandleIn(types, tags, ctxs, tag, csz, exn) == HandleIn(types, tags, ctxs.below, tag, csz, exn)
  {
    hide Pick;
  }

  /** find_catch passes a label that does not catch. */
  lemma SkipLabel(M: Machine, s: State, tag: nat, k: nat, m: nat, L: seq<Label>)
    requires StateOk(M, s) && 0 < k <= |s.frames| && s.frames[k - 1].labelidx + |L| <= m <= |s.labels| && L != []
    requires s.labels[s.frames[k - 1].labelidx..s.frames[k - 1].labelidx + |L|] == L
    requires LabelCatch(M, s.frames[k - 1].inst, Top(L).pc, tag) == NoMatch
    ensures FindCatch(M, s, tag, s.frames[k - 1].labelidx + |L|, k - 1, m)
         == FindCatch(M, s, tag, s.frames[k - 1].labelidx + |Pop(L)|, k - 1, m)
  {
    hide InstOk, LabelCatch;
    assert s.labels[s.frames[k - 1].labelidx + |L| - 1] == Top(L);
  }

  lemma Deeper(M: Machine, B: Bodies, y: Acts, s: State, k: nat, m: nat, d: nat, L: seq<Label>, base: nat, code: Code, p: nat)
    requires ProgramOk(M, B) && InFrameAt(M, B, y, s, k, m, d, L, base, code, p) && Drop(y.ctxs, d).In?
    ensures L != [] && InFrameAt(M, B, y, s, k, m, d + 1, Pop(L), base, Drop(y.ctxs, d).rest, EndPos(Drop(y.ctxs, d).blk, Top(L).pc))
  {
    hide ProgramOk, InstOk, Enc, Sub, EncInstr, CtxCells, StopPos, BlockType;
    var fr := s.frames[k - 1];
    assert L != [];
    DropMore(y.ctxs, d);
    assert s.labels[fr.labelidx..fr.labelidx + |L|][..|L| - 1] == s.labels[fr.labelidx..fr.labelidx + |L| - 1];
  }

  /** The label that the picked clause names. */
  lemma Picked(M: Machine, B: Bodies, y: Acts, s: State, k: nat, m: nat, tag: nat, csz: nat, exn: seq<cell>,
               d: nat, L: seq<Label>, base: nat, code: Code, p: nat)
    returns (li: nat, all: bool)
    requires ProgramOk(M, B) && InFrameAt(M, B, y, s, k, m, d, L, base, code, p) && csz <= |exn|
    requires Drop(y.ctxs, d).In? && Drop(y.ctxs, d).blk.Blk? && Drop(y.ctxs, d).blk.kind == KTry
    requires L != [] && Pick(M.insts[y.inst].tags, Drop(y.ctxs, d).blk.clauses, tag).Clausal?
    requires var c := Pick(M.insts[y.inst].tags, Drop(y.ctxs, d).blk.clauses, tag);
             IsU32(c.clause.target) && LabelCatch(M, y.inst, Top(L).pc, tag) == Match(U32(c.clause.target), c.all)
    ensures HandleIn(ModOf(M, y.inst).types, M.insts[y.inst].tags, Drop(y.ctxs, d), tag, csz, exn).Handled?
    ensures LandsAt(ModOf(M, y.inst).types, y.ctxs,
                    HandleIn(ModOf(M, y.inst).types, M.insts[y.inst].tags, Drop(y.ctxs, d), tag, csz, exn),
                    FindCatch(M, s, tag, s.frames[k - 1].labelidx + |L|, k - 1, m), k, m - s.frames[k - 1].labelidx, li, all, csz, exn)
  {
    hide ProgramOk, Drop, Size, RelCtxs, IsU32, U32, InstOk, Enc, Sub, EncInstr, CtxCells, LabelCatch, Pick, StopPos,
      FindCatch, BlockType, Header, Exactly, HandleIn, Payload, PayIs;
    var ctxs := Drop(y.ctxs, d);
    var types := ModOf(M, y.inst).types;
    var c := Pick(M.insts[y.inst].tags, ctxs.blk.clauses, tag);
    var l := U32(c.clause.target);
    var pay := Payload(c.clause, c.all, csz, exn);
    li, all := d + 1 + l, c.all;
    PayOf(c.clause, c.all, csz, exn);
    Deeper(M, B, y, s, k, m, d, L, base, code, p);
    DropMore(y.ctxs, d);
    ExactlyShift(types, y.ctxs, pay, d + 1, l);
    HandledBy(types, M.insts[y.inst].tags, ctxs, tag, csz, exn);
    if !Exactly(types, ctxs.below, pay, l).Nowhere? {
      LabelBound(types, Body(M, B, y.inst, y.fidx), FuncAt(M, y.inst, y.fidx).start, ctxs.below, Pop(L), base,
                 ctxs.rest, EndPos(ctxs.blk, Top(L).pc), pay, l);
      FoundHere(M, s, tag, k, m, |L|, l, all);
    }
  }

  lemma PayOf(c: Clause, all: bool, csz: nat, exn: seq<cell>)
    requires csz <= |exn|
    ensures PayIs(Payload(c, all, csz, exn), if all then 0 else csz, exn)
  {
    assert exn[..0] == [] && [] + exn == exn && exn[..csz] + [] == exn[..csz];
  }

  lemma HandledBy(types: seq<Sig>, tags: seq<nat>, ctxs: Ctxs, tag: nat, csz: nat, exn: seq<cell>)
    requires ctxs.In? && ctxs.blk.Blk? && ctxs.blk.kind == KTry && csz <= |exn|
    requires Pick(tags, ctxs.blk.clauses, tag).Clausal? && IsU32(Pick(tags, ctxs.blk.clauses, tag).clause.target)
    ensures var c := Pick(tags, ctxs.blk.clauses, tag);
            var pay := Payload(c.clause, c.all, csz, exn);
            HandleIn(types, tags, ctxs, tag, csz, exn) == Handled(Exactly(types, ctxs.below, pay, U32(c.clause.target)), pay)
  {
    hide IsU32, U32, Pick, Exactly, Payload;
  }

  lemma LabelBound(types: seq<Sig>, body: Code, start: nat, ctxs: Ctxs, L: seq<Label>, base: nat,
                   code: Code, p: nat, pay: seq<cell>, l: nat)
    requires RelCtxs(types, body, start, ctxs, L, base, code, p) && !Exactly(types, ctxs, pay, l).Nowhere?
    ensures l <= |L|
  {
    hide RelCtxs, BranchTo, LabelTakes;
    CtxToCaller(types, body, start, ctxs, L, base, code, p, pay, l);
  }

  /** find_catch stops at the label it is looking at. */
  lemma FoundHere(M: Machine, s: State, tag: nat, k: nat, m: nat, n: nat, l: nat, all: bool)
    requires StateOk(M, s) && 0 < k <= |s.frames| && s.frames[k - 1].labelidx + n <= m <= |s.labels| && n > 0
    requires LabelCatch(M, s.frames[k - 1].inst, s.labels[s.frames[k - 1].labelidx + n - 1].pc, tag) == Match(l, all)
    requires l + 1 <= n
    ensures FindCatch(M, s, tag, s.frames[k - 1].labelidx + n, k - 1, m)
         == Found(k - 1, m - (s.frames[k - 1].labelidx + n - 1) + l, all)
  {
    hide InstOk, LabelCatch;
  }
}
