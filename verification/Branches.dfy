/**
  Branches and returns: the flat jump, which pops labels and moves the top
  operands down, follows the structured one, which drops whole segments.
 */
module Branches {
  import opened Leb
  import opened Code
  import opened Jumps
  import opened Machine
  import opened Structured
  import opened Relation
  import opened Exits

  // ---- operand segments ----

  lemma {:induction false} CellsAppend(ctxs: Ctxs, seg: seq<cell>, more: seq<cell>)
    ensures CtxCells(ctxs, seg + more) == CtxCells(ctxs, seg) + more
  {
    if ctxs.In? { assert CtxCells(ctxs.below, ctxs.outer) + (seg + more) == (CtxCells(ctxs.below, ctxs.outer) + seg) + more; }
  }

  /** The operands of the innermost block are the top of the stack. */
  lemma CellsTop(base: seq<cell>, ctxs: Ctxs, seg: seq<cell>, n: nat)
    requires n <= |seg|
    ensures var st := base + CtxCells(ctxs, seg);
            n <= |st| && TopN(st, n) == TopN(seg, n) && Under(st, n) == base + CtxCells(ctxs, Under(seg, n))
  {
    assert seg == Under(seg, n) + TopN(seg, n);
    CellsAppend(ctxs, Under(seg, n), TopN(seg, n));
    var lo := CtxCells(ctxs, Under(seg, n));
    assert base + (lo + TopN(seg, n)) == (base + lo) + TopN(seg, n);
  }

  /** Replacing the top `n` operands by `more`. */
  lemma CellsReplace(base: seq<cell>, ctxs: Ctxs, seg: seq<cell>, n: nat, more: seq<cell>)
    requires n <= |seg|
    ensures var st := base + CtxCells(ctxs, seg);
            && n <= |st| && TopN(st, n) == TopN(seg, n)
            && Under(st, n) + more == base + CtxCells(ctxs, Under(seg, n) + more)
  {
    CellsTop(base, ctxs, seg, n);
    CellsAppend(ctxs, Under(seg, n), more);
    var lo := CtxCells(ctxs, Under(seg, n));
    assert (base + lo) + more == base + (lo + more);
  }

  // ---- labels ----

  /** The same labels with other code that stops at the same place. */
  lemma CtxCode(types: seq<Sig>, body: Code, start: nat, ctxs: Ctxs, labels: seq<Label>, base: nat,
                code: Code, p: nat, code2: Code, p2: nat)
    requires RelCtxs(types, body, start, ctxs, labels, base, code, p)
    requires Sub(body, start, code2, p2) && p2 + |Enc(code2)| == p + |Enc(code)|
    ensures RelCtxs(types, body, start, ctxs, labels, base, code2, p2)
  {
    hide Enc, Sub, StopPos, BlockType, CtxCells;
  }

  lemma SubTail(body: Code, start: nat, i: Instr, tl: Code, p: nat)
    requires Sub(body, start, Cons(i, tl), p)
    ensures Sub(body, start, tl, EndPos(i, p)) && EndPos(i, p) + |Enc(tl)| == p + |Enc(Cons(i, tl))|
  {
    assert Sub(tl, EndPos(i, p), tl, EndPos(i, p));
    assert Sub(Cons(i, tl), p, tl, EndPos(i, p));
    SubTrans(body, start, Cons(i, tl), p, tl, EndPos(i, p));
  }

  lemma SubInner(body: Code, start: nat, b: Instr, tl: Code, p: nat)
    requires Sub(body, start, Cons(b, tl), p) && b.Blk?
    ensures Sub(body, start, b.body, BodyPos(b, p)) && BodyPos(b, p) + |Enc(b.body)| == StopPos(b, false, p)
    ensures b.hasElse ==> Sub(body, start, b.els, ElsePos(b, p)) && ElsePos(b, p) + |Enc(b.els)| == StopPos(b, true, p)
  {
    assert Sub(b.body, BodyPos(b, p), b.body, BodyPos(b, p));
    assert SubI(b, p, b.body, BodyPos(b, p));
    assert Sub(Cons(b, tl), p, b.body, BodyPos(b, p));
    SubTrans(body, start, Cons(b, tl), p, b.body, BodyPos(b, p));
    if b.hasElse {
      assert Sub(b.els, ElsePos(b, p), b.els, ElsePos(b, p));
      assert SubI(b, p, b.els, ElsePos(b, p));
      assert Sub(Cons(b, tl), p, b.els, ElsePos(b, p));
      SubTrans(body, start, Cons(b, tl), p, b.els, ElsePos(b, p));
    }
    EncSizes(b);
  }

  /** Moving past the first instruction. */
  lemma CtxAdvance(types: seq<Sig>, body: Code, start: nat, ctxs: Ctxs, labels: seq<Label>, base: nat,
                   i: Instr, tl: Code, p: nat)
    requires RelCtxs(types, body, start, ctxs, labels, base, Cons(i, tl), p)
    ensures RelCtxs(types, body, start, ctxs, labels, base, tl, EndPos(i, p))
  {
    hide Enc, RelCtxs;
    assert Sub(body, start, Cons(i, tl), p) by { CtxSub(types, body, start, ctxs, labels, base, Cons(i, tl), p); }
    SubTail(body, start, i, tl, p);
    CtxCode(types, body, start, ctxs, labels, base, Cons(i, tl), p, tl, EndPos(i, p));
  }

  lemma CtxSub(types: seq<Sig>, body: Code, start: nat, ctxs: Ctxs, labels: seq<Label>, base: nat, code: Code, p: nat)
    requires RelCtxs(types, body, start, ctxs, labels, base, code, p)
    ensures Sub(body, start, code, p)
  {
  }

  /**
    A branch: the label says which block to leave and how many operands to
    keep below, and after the exit the remaining labels represent the target.
   */
  lemma {:induction false} CtxBranch(types: seq<Sig>, body: Code, start: nat, ctxs: Ctxs, labels: seq<Label>, base: nat,
                                     code: Code, p: nat, seg: seq<cell>, l: nat)
    returns (b: Instr, tl: Code, pre: seq<cell>)
    requires RelCtxs(types, body, start, ctxs, labels, base, code, p)
    requires BranchTo(types, ctxs, seg, l).To?
    ensures l < |labels|
    ensures var lb := labels[|labels| - l - 1];
            && Opens(body, start, b, tl, lb.pc) && BlockType(types, b).Some?
            && var x := ExitOf(types, b, lb.pc, false);
               var t := BranchTo(types, ctxs, seg, l);
               && lb.height == base + |pre| + x.params && x.arity <= |seg|
               && LabelArity(types, b) == Some(x.arity)
               && CtxCells(t.ctxs, t.seg) == pre + TopN(seg, x.arity)
               && RelCtxs(types, body, start, t.ctxs, labels[..|labels| - l - 1], base, t.code, x.target)
    ensures forall sg :: |pre| <= |CtxCells(ctxs, sg)| && CtxCells(ctxs, sg)[..|pre|] == pre
    ensures forall n: nat :: LabelTakes(types, ctxs, n, l) ==> LabelArity(types, b) == Some(n)
    decreases ctxs
  {
    hide Enc, Sub, EncInstr, Header, StopPos, BlockType, LabelArity, ExitOf, Opens;
    var In(outer, blk, inElse, rest, below) := ctxs;
    var q := Top(labels).pc;
    assert blk.Blk? && |labels| > 0;
    if l == 0 {
      b, tl, pre := blk, rest, CtxCells(below, outer);
      hide RelCtxs;
      BranchHere(types, body, start, ctxs, labels, base, code, p, seg);
      assert labels[..|labels| - 0 - 1] == Pop(labels);
      forall sg ensures |pre| <= |CtxCells(ctxs, sg)| && CtxCells(ctxs, sg)[..|pre|] == pre {
        assert CtxCells(ctxs, sg) == pre + sg;
      }
    } else {
      b, tl, pre := CtxBranch(types, body, start, below, Pop(labels), base, rest, EndPos(blk, q), seg, l - 1);
      hide RelCtxs;
      assert Pop(labels)[|Pop(labels)| - (l - 1) - 1] == labels[|labels| - l - 1];
      assert Pop(labels)[..|Pop(labels)| - (l - 1) - 1] == labels[..|labels| - l - 1];
      forall sg ensures |pre| <= |CtxCells(ctxs, sg)| && CtxCells(ctxs, sg)[..|pre|] == pre {
        assert (CtxCells(below, outer) + sg)[..|pre|] == CtxCells(below, outer)[..|pre|];
      }
    }
  }

  /** The branch to the innermost label. */
  lemma BranchHere(types: seq<Sig>, body: Code, start: nat, ctxs: Ctxs, labels: seq<Label>, base: nat, code: Code, p: nat, seg: seq<cell>)
    requires RelCtxs(types, body, start, ctxs, labels, base, code, p)
    requires BranchTo(types, ctxs, seg, 0).To?
    ensures ctxs.In? && labels != [] && ctxs.blk.Blk? && BlockType(types, ctxs.blk).Some?
    ensures var b, pre := ctxs.blk, CtxCells(ctxs.below, ctxs.outer);
            && Opens(body, start, b, ctxs.rest, Top(labels).pc)
            && var x, t := ExitOf(types, b, Top(labels).pc, false), BranchTo(types, ctxs, seg, 0);
               && Top(labels).height == base + |pre| + x.params && x.arity <= |seg|
               && LabelArity(types, b) == Some(x.arity)
               && CtxCells(t.ctxs, t.seg) == pre + TopN(seg, x.arity)
               && RelCtxs(types, body, start, t.ctxs, Pop(labels), base, t.code, x.target)
  {
    hide Enc, Sub, EncInstr, Header, StopPos, BlockType, CtxCells;
    var In(outer, blk, inElse, rest, below) := ctxs;
    var q := Top(labels).pc;
    CellsAppend(below, outer, TopN(seg, LabelArity(types, blk).value));
    if blk.kind == KLoop { LoopCode(types, body, start, below, Pop(labels), base, blk, rest, q); }
  }

  lemma LoopCode(types: seq<Sig>, body: Code, start: nat, below: Ctxs, labels: seq<Label>, base: nat,
                 blk: Instr, rest: Code, q: nat)
    requires RelCtxs(types, body, start, below, labels, base, rest, EndPos(blk, q))
    requires Sub(body, start, Cons(blk, rest), q)
    ensures RelCtxs(types, body, start, below, labels, base, Cons(blk, rest), q)
  {
    hide RelCtxs, Sub, EncInstr;
    CtxCode(types, body, start, below, labels, base, rest, EndPos(blk, q), Cons(blk, rest), q);
  }

  /** A branch out of the function is the one whose index is the number of labels. */
  lemma {:induction false} CtxToCaller(types: seq<Sig>, body: Code, start: nat, ctxs: Ctxs, labels: seq<Label>, base: nat,
                                       code: Code, p: nat, seg: seq<cell>, l: nat)
    requires RelCtxs(types, body, start, ctxs, labels, base, code, p)
    ensures BranchTo(types, ctxs, seg, l).ToCaller? <==> l == |labels|
    ensures BranchTo(types, ctxs, seg, l).To? ==> l < |labels|
    decreases ctxs
  {
    hide Enc, Sub, StopPos, CtxCells;
    if ctxs.In? && l > 0 {
      CtxToCaller(types, body, start, ctxs.below, Pop(labels), base, ctxs.rest, EndPos(ctxs.blk, Top(labels).pc), seg, l - 1);
    }
  }
}
