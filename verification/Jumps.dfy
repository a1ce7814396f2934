/**
  Where a forward jump lands: the three answers of the interpreter, the
  structure of the code, the jump table (lib/exec.c:330-363, built at
  lib/validation.c:190-228 and 258-275) and the scan (lib/exec.c:1403-1439).
 */
module Jumps {
  import opened Leb
  import opened Code

  // ---- positions of nested code ----

  function BodyPos(i: Instr, p: nat): nat
    requires i.Blk?
  {
    p + |Header(i)|
  }

  function ElsePos(i: Instr, p: nat): nat
    requires i.Blk?
  {
    p + |Header(i)| + |Enc(i.body)| + 1
  }

  function EndPos(i: Instr, p: nat): nat { p + |EncInstr(i)| }

  /** `c2` at `p2` is `c` at `p`, or lies in it: a suffix of it or of a nested body. */
  ghost predicate Sub(c: Code, p: nat, c2: Code, p2: nat)
    decreases c, 0
  {
    || (c == c2 && p == p2)
    || (c.Cons? && (SubI(c.hd, p, c2, p2) || Sub(c.tl, EndPos(c.hd, p), c2, p2)))
  }

  ghost predicate SubI(i: Instr, p: nat, c2: Code, p2: nat)
    decreases i, 1
  {
    i.Blk? && (Sub(i.body, BodyPos(i, p), c2, p2) || (i.hasElse && Sub(i.els, ElsePos(i, p), c2, p2)))
  }

  lemma {:induction false} SubTrans(c: Code, p: nat, c1: Code, p1: nat, c2: Code, p2: nat)
    requires Sub(c, p, c1, p1) && Sub(c1, p1, c2, p2)
    ensures Sub(c, p, c2, p2)
    decreases c
  {
    if c == c1 && p == p1 {
    } else if Sub(c.tl, EndPos(c.hd, p), c1, p1) {
      SubTrans(c.tl, EndPos(c.hd, p), c1, p1, c2, p2);
    } else if Sub(c.hd.body, BodyPos(c.hd, p), c1, p1) {
      SubTrans(c.hd.body, BodyPos(c.hd, p), c1, p1, c2, p2);
    } else {
      SubTrans(c.hd.els, ElsePos(c.hd, p), c1, p1, c2, p2);
    }
  }

  lemma EncSizes(i: Instr)
    requires i.Blk?
    ensures |EncInstr(i)| == |Header(i)| + |Enc(i.body)| + 1 + (if i.hasElse then |Enc(i.els)| + 1 else 0)
  {
  }

  lemma {:induction false} SubRange(c: Code, p: nat, c2: Code, p2: nat)
    requires Sub(c, p, c2, p2)
    ensures p <= p2 && p2 + |Enc(c2)| <= p + |Enc(c)|
    decreases c
  {
    if !(c == c2 && p == p2) {
      if Sub(c.tl, EndPos(c.hd, p), c2, p2) {
        SubRange(c.tl, EndPos(c.hd, p), c2, p2);
      } else {
        EncSizes(c.hd);
        if Sub(c.hd.body, BodyPos(c.hd, p), c2, p2) { SubRange(c.hd.body, BodyPos(c.hd, p), c2, p2); }
        else { SubRange(c.hd.els, ElsePos(c.hd, p), c2, p2); }
      }
    }
  }

  /** The parts of an encoded block sit where `BodyPos` and `ElsePos` say. */
  lemma BlockAt(code: seq<byte>, p: nat, i: Instr)
    requires i.Blk? && At(code, p, EncInstr(i))
    ensures At(code, p, Header(i)) && At(code, BodyPos(i, p), Enc(i.body))
    ensures EndPos(i, p) <= |code| && code[EndPos(i, p) - 1] == END
    ensures BodyPos(i, p) + |Enc(i.body)| < EndPos(i, p)
    ensures var q := BodyPos(i, p) + |Enc(i.body)|;
            if i.hasElse
            then code[q] == ELSE && ElsePos(i, p) == q + 1 && At(code, q + 1, Enc(i.els))
                 && EndPos(i, p) == q + 1 + |Enc(i.els)| + 1
            else EndPos(i, p) == q + 1
  {
    hide Enc, Header;
    AtSplit(code, p, Header(i), Enc(i.body) + Closing(i));
    AtSplit(code, BodyPos(i, p), Enc(i.body), Closing(i));
    var q := BodyPos(i, p) + |Enc(i.body)|;
    if i.hasElse {
      AtHead(code, q, ELSE, Enc(i.els) + [END]);
      AtSplit(code, q + 1, Enc(i.els), [END]);
      assert [END] == [END] + [];
      AtHead(code, q + 1 + |Enc(i.els)|, END, []);
    } else {
      assert [END] == [END] + [];
      AtHead(code, q, END, []);
    }
  }

  lemma {:induction false} SubAt(code: seq<byte>, c: Code, p: nat, c2: Code, p2: nat)
    requires Sub(c, p, c2, p2) && At(code, p, Enc(c))
    ensures At(code, p2, Enc(c2))
    decreases c
  {
    hide EncInstr, At, Header;
    if !(c == c2 && p == p2) {
      AtSplit(code, p, EncInstr(c.hd), Enc(c.tl));
      if Sub(c.tl, EndPos(c.hd, p), c2, p2) {
        SubAt(code, c.tl, EndPos(c.hd, p), c2, p2);
      } else {
        BlockAt(code, p, c.hd);
        if Sub(c.hd.body, BodyPos(c.hd, p), c2, p2) { SubAt(code, c.hd.body, BodyPos(c.hd, p), c2, p2); }
        else { SubAt(code, c.hd.els, ElsePos(c.hd, p), c2, p2); }
      }
    }
  }

  lemma {:induction false} SubWf(c: Code, p: nat, c2: Code, p2: nat)
    requires Sub(c, p, c2, p2) && Wf(c)
    ensures Wf(c2)
    decreases c
  {
    if !(c == c2 && p == p2) {
      if Sub(c.tl, EndPos(c.hd, p), c2, p2) { SubWf(c.tl, EndPos(c.hd, p), c2, p2); }
      else if Sub(c.hd.body, BodyPos(c.hd, p), c2, p2) { SubWf(c.hd.body, BodyPos(c.hd, p), c2, p2); }
      else { SubWf(c.hd.els, ElsePos(c.hd, p), c2, p2); }
    }
  }

  /** A block opens at `q` in the code `c` at `p`. */
  ghost predicate Opens(c: Code, p: nat, b: Instr, tl: Code, q: nat) {
    b.Blk? && Sub(c, p, Cons(b, tl), q)
  }

  lemma HeaderSize(i: Instr)
    requires i.Blk? && HeaderWf(i)
    ensures |Header(i)| >= 2
  {
    Shape(33, true, i.bt);
  }

  datatype Opening = NoOpening | Opening(blk: Instr, tl: Code)

  /** The block opening at `q`, found by position. */
  function OpenAt(c: Code, p: nat, q: nat): Opening
    decreases c
  {
    match c
    case Nil => NoOpening
    case Cons(i, tl) =>
      if q >= EndPos(i, p) then OpenAt(tl, EndPos(i, p), q)
      else if i.Leaf? then NoOpening
      else if q == p then Opening(i, tl)
      else if BodyPos(i, p) <= q < BodyPos(i, p) + |Enc(i.body)| then OpenAt(i.body, BodyPos(i, p), q)
      else if i.hasElse && ElsePos(i, p) <= q then OpenAt(i.els, ElsePos(i, p), q)
      else NoOpening
  }

  lemma BlockSize(b: Instr, tl: Code)
    requires b.Blk?
    ensures |Enc(Cons(b, tl))| > 0 && |EncInstr(b)| > 0
  {
    EncSizes(b);
  }

  lemma {:induction false} OpensOpenAt(c: Code, p: nat, b: Instr, tl: Code, q: nat)
    requires Opens(c, p, b, tl, q)
    ensures OpenAt(c, p, q) == Opening(b, tl)
    decreases c
  {
    hide Enc, EncInstr, Header;
    BlockSize(b, tl);
    SubRange(c, p, Cons(b, tl), q);
    if !(c == Cons(b, tl) && p == q) {
      var i, e := c.hd, EndPos(c.hd, p);
      if Sub(c.tl, e, Cons(b, tl), q) {
        SubRange(c.tl, e, Cons(b, tl), q);
        OpensOpenAt(c.tl, e, b, tl, q);
      } else {
        assert SubI(i, p, Cons(b, tl), q);
        EncSizes(i);
        if Sub(i.body, BodyPos(i, p), Cons(b, tl), q) {
          SubRange(i.body, BodyPos(i, p), Cons(b, tl), q);
          OpensOpenAt(i.body, BodyPos(i, p), b, tl, q);
        } else {
          SubRange(i.els, ElsePos(i, p), Cons(b, tl), q);
          OpensOpenAt(i.els, ElsePos(i, p), b, tl, q);
        }
      }
    }
  }

  lemma {:induction false} OpenRange(c: Code, p: nat, q: nat)
    requires OpenAt(c, p, q).Opening?
    ensures q < p + |Enc(c)|
    decreases c
  {
    hide EncInstr, Header;
    if q >= EndPos(c.hd, p) { OpenRange(c.tl, EndPos(c.hd, p), q); }
  }

  /**
    Block openers are at least two bytes apart, because a header is at least
    two bytes long. So the cache key pc + goto_else is injective.
   */
  lemma {:induction false} NoneAfter(c: Code, p: nat, q: nat)
    requires Wf(c) && OpenAt(c, p, q).Opening?
    ensures OpenAt(c, p, q + 1).NoOpening?
    decreases c
  {
    hide Enc, EncInstr, Header, HeaderWf, LeafWf;
    var i, e := c.hd, EndPos(c.hd, p);
    if q >= e {
      NoneAfter(c.tl, e, q);
    } else {
      EncSizes(i);
      HeaderSize(i);
      if q == p {
      } else if q < BodyPos(i, p) + |Enc(i.body)| {
        NoneAfter(i.body, BodyPos(i, p), q);
      } else {
        OpenRange(i.els, ElsePos(i, p), q);
        NoneAfter(i.els, ElsePos(i, p), q);
      }
    }
  }

  // ---- the scan ----

  datatype Skipped = NoEnd | Skipped(next: nat, stay: bool)

  /** skip_expr's loop from `p` at block level `level`. */
  function Skip(code: seq<byte>, p: nat, gotoElse: bool, level: nat): Skipped
    decreases |code| - p
  {
    match InsnEnd(code, p)
    case None => NoEnd
    case Some(t) =>
      if !(p < t.next <= |code|) then NoEnd
      else if IsOpener(t.op) then Skip(code, t.next, gotoElse, level + 1)
      else if t.op == ELSE && gotoElse && level == 1 then Skipped(t.next, true)
      else if t.op == END then
        if level == 1 then Skipped(t.next, false)
        else if level == 0 then NoEnd
        else Skip(code, t.next, gotoElse, level - 1)
      else Skip(code, t.next, gotoElse, level)
  }

  /** skip_expr (lib/exec.c:1403-1439). */
  method SkipExpr(code: seq<byte>, p: nat, gotoElse: bool) returns (next: nat, stay: bool)
    requires Skip(code, p, gotoElse, 0).Skipped?
    ensures Skip(code, p, gotoElse, 0) == Skipped(next, stay)
  {
    hide InsnEnd;
    var q, level := p, 0;
    while true
      invariant Skip(code, q, gotoElse, level) == Skip(code, p, gotoElse, 0)
      decreases |code| - q
    {
      assert Skip(code, q, gotoElse, level).Skipped?;
      var t := InsnEnd(code, q).value;
      q := t.next;
      if IsOpener(t.op) {
        level := level + 1;
      } else if t.op == ELSE {
        if gotoElse && level == 1 { return q, true; }
      } else if t.op == END {
        if level == 1 { return q, false; }
        assert level > 0;
        level := level - 1;
      }
    }
  }

  lemma DelimAt(code: seq<byte>, p: nat)
    requires p < |code| && code[p] in {ELSE, END}
    ensures InsnEnd(code, p) == Some(Tok(code[p], p + 1))
  {
  }

  /** Inside a block, the scan passes over whole code without changing level. */
  lemma {:induction false} SkipCode(code: seq<byte>, p: nat, c: Code, gotoElse: bool, level: nat)
    requires Wf(c) && At(code, p, Enc(c)) && level >= 1
    ensures Skip(code, p, gotoElse, level) == Skip(code, p + |Enc(c)|, gotoElse, level)
    decreases c, 1
  {
    hide At, EncInstr, Skip;
    if c.Cons? {
      AtSplit(code, p, EncInstr(c.hd), Enc(c.tl));
      SkipInstr(code, p, c.hd, gotoElse, level);
      SkipCode(code, EndPos(c.hd, p), c.tl, gotoElse, level);
    }
  }

  lemma {:induction false} SkipInstr(code: seq<byte>, p: nat, i: Instr, gotoElse: bool, level: nat)
    requires InstrWf(i) && At(code, p, EncInstr(i)) && level >= 1
    ensures Skip(code, p, gotoElse, level) == Skip(code, EndPos(i, p), gotoElse, level)
    decreases i, 1
  {
    hide InsnEnd, Enc, Header, EncLeaf, LeafWf, HeaderWf;
    match i {
      case Leaf(l) =>
        LeafAt(code, p, l);
        assert EndPos(i, p) == p + |EncLeaf(l)| <= |code|;
      case Blk(_, _, _, _, body, hasElse, els) =>
        BlockAt(code, p, i);
        HeaderAt(code, p, i);
        SkipBody(code, p, i, gotoElse, level + 1);
    }
  }

  /** From the body of a block to just after its end, two or more levels deep. */
  lemma SkipBody(code: seq<byte>, p: nat, i: Instr, gotoElse: bool, level: nat)
    requires i.Blk? && InstrWf(i) && At(code, p, EncInstr(i)) && level >= 2
    ensures Skip(code, BodyPos(i, p), gotoElse, level) == Skip(code, EndPos(i, p), gotoElse, level - 1)
    decreases i, 0
  {
    hide InsnEnd, Enc, Header, HeaderWf;
    BlockAt(code, p, i);
    SkipCode(code, BodyPos(i, p), i.body, gotoElse, level);
    DelimAt(code, BodyPos(i, p) + |Enc(i.body)|);
    if i.hasElse {
      SkipCode(code, ElsePos(i, p), i.els, gotoElse, level);
      DelimAt(code, EndPos(i, p) - 1);
    }
  }

  /**
    The scan from a block opener ends just after the matching `end`, or just
    after the matching `else` when that is asked for and there is one.
   */
  lemma SkipBlock(code: seq<byte>, p: nat, i: Instr, gotoElse: bool)
    requires i.Blk? && InstrWf(i) && At(code, p, EncInstr(i))
    ensures Skip(code, p, gotoElse, 0) ==
            if gotoElse && i.hasElse then Skipped(ElsePos(i, p), true) else Skipped(EndPos(i, p), false)
  {
    hide InsnEnd, Enc, Header;
    BlockAt(code, p, i);
    HeaderAt(code, p, i);
    SkipCode(code, BodyPos(i, p), i.body, gotoElse, 1);
    DelimAt(code, BodyPos(i, p) + |Enc(i.body)|);
    if i.hasElse && !gotoElse {
      SkipCode(code, ElsePos(i, p), i.els, gotoElse, 1);
      DelimAt(code, EndPos(i, p) - 1);
    }
  }

  // ---- the stepwise finder of the end of an expression (lib/expr_parser.c:20-46) ----

  datatype Parsed = Broken | AtEnd | More(next: nat, level: nat)

  function ParseStep(code: seq<byte>, p: nat, level: nat): Parsed {
    match InsnEnd(code, p)
    case None => Broken
    case Some(t) =>
      if IsOpener(t.op) then More(t.next, level + 1)
      else if t.op == END then if level == 0 then AtEnd else More(t.next, level - 1)
      else More(t.next, level)
  }

  /** Steps until the parser reports the end; the position of that `end`. */
  function ParseToEnd(code: seq<byte>, p: nat, level: nat): Option<nat>
    decreases |code| - p
  {
    match ParseStep(code, p, level)
    case Broken => None
    case AtEnd => Some(p)
    case More(q, l) => if p < q <= |code| then ParseToEnd(code, q, l) else None
  }

  /** One parser step is one scan step taken one level deeper. */
  lemma {:induction false} ParseIsSkip(code: seq<byte>, p: nat, level: nat)
    requires Skip(code, p, false, level + 1).Skipped?
    ensures ParseToEnd(code, p, level) == Some(Skip(code, p, false, level + 1).next - 1)
    decreases |code| - p
  {
    hide PlainEnd, ReadU32, ReadS33, SkipLebs, HeaderEnd;
    var t := InsnEnd(code, p).value;
    if IsOpener(t.op) { ParseIsSkip(code, t.next, level + 1); }
    else if t.op == END { if level > 0 { ParseIsSkip(code, t.next, level - 1); } }
    else { ParseIsSkip(code, t.next, level); }
  }

  /** The finder stops exactly at the `end` that closes the expression. */
  lemma ParseFindsEnd(code: seq<byte>, p: nat, c: Code)
    requires Wf(c) && At(code, p, Enc(c) + [END])
    ensures ParseToEnd(code, p, 0) == Some(p + |Enc(c)|)
  {
    hide InsnEnd, Enc;
    AtSplit(code, p, Enc(c), [END]);
    assert [END] == [END] + [];
    AtHead(code, p + |Enc(c)|, END, []);
    SkipCode(code, p, c, false, 1);
    DelimAt(code, p + |Enc(c)|);
    ParseIsSkip(code, p, 0);
  }

  // ---- the table ----

  datatype Jump = Jump(pc: nat, target: nat)

  /** The slots of one block: none for a loop, a second one for an if. */
  function Slots(i: Instr, p: nat): seq<Jump>
    requires i.Blk?
  {
    if i.kind == KLoop then []
    else if i.kind == KIf then
      [Jump(p, EndPos(i, p)), Jump(p + 1, if i.hasElse then ElsePos(i, p) else 0)]
    else [Jump(p, EndPos(i, p))]
  }

  /** The jump table that validation builds for the code `c` at `p`. */
  function Table(c: Code, p: nat): seq<Jump>
    decreases c
  {
    match c
    case Nil => []
    case Cons(i, tl) =>
      (if i.Blk? then
         Slots(i, p) + (Table(i.body, BodyPos(i, p)) + (if i.hasElse then Table(i.els, ElsePos(i, p)) else []))
       else []) + Table(tl, EndPos(i, p))
  }

  ghost predicate Sorted(js: seq<Jump>) {
    forall a, b :: 0 <= a < b < |js| ==> js[a].pc < js[b].pc
  }

  ghost predicate Within(js: seq<Jump>, lo: nat, hi: nat) {
    forall a :: 0 <= a < |js| ==> lo <= js[a].pc < hi
  }

  lemma SortedConcat(a: seq<Jump>, lo: nat, mid: nat, b: seq<Jump>, mid2: nat, hi: nat)
    requires Sorted(a) && Sorted(b) && Within(a, lo, mid) && Within(b, mid2, hi) && lo <= mid <= mid2 <= hi
    ensures Sorted(a + b) && Within(a + b, lo, hi)
  {
  }

  lemma SlotsOk(i: Instr, p: nat)
    requires i.Blk? && HeaderWf(i)
    ensures Sorted(Slots(i, p)) && Within(Slots(i, p), p, BodyPos(i, p))
  {
    hide EncInstr, Enc, Header, HeaderWf;
    HeaderSize(i);
  }

  lemma {:induction false} TableSorted(c: Code, p: nat)
    requires Wf(c)
    ensures Sorted(Table(c, p)) && Within(Table(c, p), p, p + |Enc(c)|)
    decreases c, 1
  {
    hide EncInstr, Sorted, Within, HeaderWf, LeafWf;
    if c.Cons? {
      var i, e := c.hd, EndPos(c.hd, p);
      TableSorted(c.tl, e);
      if i.Blk? {
        var inner := Table(i.body, BodyPos(i, p)) + (if i.hasElse then Table(i.els, ElsePos(i, p)) else []);
        TableInner(i, p);
        SlotsOk(i, p);
        EncSizes(i);
        SortedConcat(Slots(i, p), p, BodyPos(i, p), inner, BodyPos(i, p), e);
        SortedConcat(Slots(i, p) + inner, p, e, Table(c.tl, e), e, p + |Enc(c)|);
      } else {
        assert [] + Table(c.tl, e) == Table(c.tl, e);
        WithinMore(Table(c.tl, e), e, p, p + |Enc(c)|);
      }
    } else {
      EmptySorted(p, p + |Enc(c)|);
    }
  }

  lemma EmptySorted(lo: nat, hi: nat)
    ensures Sorted([]) && Within([], lo, hi)
  {
  }

  lemma WithinMore(js: seq<Jump>, lo: nat, lo2: nat, hi: nat)
    requires Within(js, lo, hi) && lo2 <= lo
    ensures Within(js, lo2, hi)
  {
  }

  lemma {:induction false} TableInner(i: Instr, p: nat)
    requires i.Blk? && InstrWf(i)
    ensures var inner := Table(i.body, BodyPos(i, p)) + (if i.hasElse then Table(i.els, ElsePos(i, p)) else []);
            Sorted(inner) && Within(inner, BodyPos(i, p), EndPos(i, p))
    decreases i, 0
  {
    hide Sorted, Within, HeaderWf, Table;
    EncSizes(i);
    TableSorted(i.body, BodyPos(i, p));
    var rest := if i.hasElse then Table(i.els, ElsePos(i, p)) else [];
    var mid := BodyPos(i, p) + |Enc(i.body)|;
    if i.hasElse { TableSorted(i.els, ElsePos(i, p)); } else { EmptySorted(ElsePos(i, p), ElsePos(i, p)); }
    var hi := ElsePos(i, p) + if i.hasElse then |Enc(i.els)| else 0;
    SortedConcat(Table(i.body, BodyPos(i, p)), BodyPos(i, p), mid, rest, ElsePos(i, p), hi);
    HiMore(Table(i.body, BodyPos(i, p)) + rest, BodyPos(i, p), hi, EndPos(i, p));
  }

  lemma HiMore(js: seq<Jump>, lo: nat, hi: nat, hi2: nat)
    requires Within(js, lo, hi) && hi <= hi2
    ensures Within(js, lo, hi2)
  {
  }

  /** The slots of a block are in the table, next to each other. */
  ghost predicate HasSlots(js: seq<Jump>, slots: seq<Jump>, k: nat) {
    k + |slots| <= |js| && js[k..k + |slots|] == slots
  }

  lemma SlotsIn(a: seq<Jump>, js: seq<Jump>, b: seq<Jump>, all: seq<Jump>, slots: seq<Jump>, k: nat)
    requires HasSlots(js, slots, k) && all == a + js + b
    ensures HasSlots(all, slots, |a| + k)
  {
    assert all[|a| + k..|a| + k + |slots|] == js[k..k + |slots|];
  }

  lemma FourParts(a: seq<Jump>, b: seq<Jump>, c: seq<Jump>, d: seq<Jump>)
    ensures var all := (a + (b + c)) + d;
            all == [] + a + (b + c + d) && all == a + b + (c + d) && all == (a + b) + c + d && all == (a + b + c) + d + []
  {
  }

  lemma {:induction false} TableHas(c: Code, p: nat, b: Instr, tl: Code, q: nat) returns (k: nat)
    requires Opens(c, p, b, tl, q)
    ensures HasSlots(Table(c, p), Slots(b, q), k)
    decreases c
  {
    hide HasSlots, EncInstr, Enc, Header, Slots;
    var i, e, s, all := c.hd, EndPos(c.hd, p), Slots(b, q), Table(c, p);
    if i.Blk? {
      var els := if i.hasElse then Table(i.els, ElsePos(i, p)) else [];
      k := BlockHas(c, p, b, tl, q, Slots(i, p), Table(i.body, BodyPos(i, p)), els, Table(c.tl, e));
    } else {
      assert !SubI(i, p, Cons(b, tl), q);
      k := TableHas(c.tl, e, b, tl, q);
      assert all == [] + Table(c.tl, e) + [];
      SlotsIn([], Table(c.tl, e), [], all, s, k);
    }
  }

  lemma {:induction false} BlockHas(c: Code, p: nat, b: Instr, tl: Code, q: nat,
                                    own: seq<Jump>, body: seq<Jump>, els: seq<Jump>, rest: seq<Jump>) returns (k: nat)
    requires Opens(c, p, b, tl, q) && c.hd.Blk?
    requires own == Slots(c.hd, p) && body == Table(c.hd.body, BodyPos(c.hd, p)) && rest == Table(c.tl, EndPos(c.hd, p))
    requires els == if c.hd.hasElse then Table(c.hd.els, ElsePos(c.hd, p)) else []
    ensures HasSlots(Table(c, p), Slots(b, q), k)
    decreases c, 0
  {
    hide HasSlots, EncInstr, Enc, Header, Slots;
    var i, e, s, all := c.hd, EndPos(c.hd, p), Slots(b, q), Table(c, p);
    hide Table;
    FourParts(own, body, els, rest);
    if Sub(c.tl, e, Cons(b, tl), q) {
      k := TableHas(c.tl, e, b, tl, q);
      SlotsIn(own + body + els, rest, [], all, s, k);
      k := |own + body + els| + k;
    } else if c == Cons(b, tl) && p == q {
      SelfSlots(s);
      SlotsIn([], own, body + els + rest, all, s, 0);
      k := 0;
    } else if Sub(i.body, BodyPos(i, p), Cons(b, tl), q) {
      k := TableHas(i.body, BodyPos(i, p), b, tl, q);
      SlotsIn(own, body, els + rest, all, s, k);
      k := |own| + k;
    } else {
      assert SubI(i, p, Cons(b, tl), q);
      k := TableHas(i.els, ElsePos(i, p), b, tl, q);
      SlotsIn(own + body, els, rest, all, s, k);
      k := |own + body| + k;
    }
  }

  lemma SelfSlots(js: seq<Jump>)
    ensures HasSlots(js, js, 0)
  {
  }

  // ---- looking up the table (lib/exec.c:330-363) ----

  /** The linear search, which the binary one stands for. */
  function Lookup(js: seq<Jump>, pc: nat): (r: Option<nat>)
    ensures r.Some? ==> r.value < |js| && js[r.value].pc == pc
    ensures r.None? ==> forall k :: 0 <= k < |js| ==> js[k].pc != pc
  {
    if js == [] then None
    else if js[0].pc == pc then Some(0)
    else match Lookup(js[1..], pc)
      case None => assert forall k :: 0 < k < |js| ==> js[k] == js[1..][k - 1]; None
      case Some(k) => Some(k + 1)
  }

  method BinaryLookup(js: seq<Jump>, pc: nat) returns (mid: nat)
    requires Sorted(js) && Lookup(js, pc).Some?
    ensures Lookup(js, pc) == Some(mid)
  {
    ghost var k := Lookup(js, pc).value;
    var left, right := 0, |js|;
    while true
      invariant 0 <= left <= k < right <= |js|
      decreases right - left
    {
      mid := (left + right) / 2;
      if js[mid].pc == pc { return; }
      if js[mid].pc < pc { left := mid + 1; } else { right := mid; }
    }
  }
}
