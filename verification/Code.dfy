/**
  Bytecode: structured instructions, their encoding, and the decoding that the
  interpreter does in place (lib/insn.c, lib/insn_impl_control.h,
  lib/insn_impl_eh.h, the opcode lists lib/insn_list_*.h).
 */
module Code {
  import opened Leb

  // ---- opcodes (lib/context.h:22-44, lib/insn_list_base.h, lib/insn_list_eh.h) ----

  const BLOCK: byte := 0x02
  const LOOP: byte := 0x03
  const IF: byte := 0x04
  const ELSE: byte := 0x05
  const THROW: byte := 0x08
  const THROW_REF: byte := 0x0a
  const END: byte := 0x0b
  const BR: byte := 0x0c
  const BR_IF: byte := 0x0d
  const BR_TABLE: byte := 0x0e
  const RETURN: byte := 0x0f
  const CALL: byte := 0x10
  const RETURN_CALL: byte := 0x12
  const TRY_TABLE: byte := 0x1f

  const CATCH: byte := 0
  const CATCH_REF: byte := 1
  const CATCH_ALL: byte := 2
  const CATCH_ALL_REF: byte := 3

  // ---- structured instructions ----

  /** One catch clause; the immediates are kept as their LEB bytes. */
  datatype Clause = Clause(op: byte, tag: seq<byte>, target: seq<byte>)

  datatype Kind = KBlock | KLoop | KIf | KTry

  /**
    Instructions without control effect, by what follows the opcode
    (WebAssembly Core 2.0, section 5.4). Integers are kept as their LEB bytes;
    `sub` is the second opcode after the prefix 0xfc.
   */
  datatype PlainInstr =
    | Bare(op: byte)
    | SelectTyped(count: seq<byte>, typ: byte)
    | RefNull(typ: byte)
    | OfIndex(op: byte, index: seq<byte>)
    | Access(op: byte, align: seq<byte>, offset: seq<byte>)
    | MemorySize(op: byte, mem: byte)
    | ConstI32(value: seq<byte>)
    | ConstI64(value: seq<byte>)
    | ConstF32(bits: seq<byte>)
    | ConstF64(bits: seq<byte>)
    | TruncSat(sub: seq<byte>)
    | MemoryInit(sub: seq<byte>, index: seq<byte>, mem: byte)
    | MemoryCopy(sub: seq<byte>, mem: byte, mem2: byte)
    | MemoryFill(sub: seq<byte>, mem: byte)
    | OfSegment(sub: seq<byte>, index: seq<byte>)
    | OfTwoIndexes(sub: seq<byte>, index: seq<byte>, index2: seq<byte>)

  datatype Leaf =
    | Plain(instr: PlainInstr)
    | Br(target: seq<byte>)
    | BrIf(target: seq<byte>)
    | BrTable(count: seq<byte>, table: seq<seq<byte>>, dflt: seq<byte>)
    | Return
    | Call(func: seq<byte>)
    | ReturnCall(func: seq<byte>)
    | Throw(tag: seq<byte>)
    | ThrowRef

  /** `count` and `clauses` are used by try_table, `els` by if. */
  datatype Instr =
    | Leaf(leaf: Leaf)
    | Blk(kind: Kind, bt: seq<byte>, count: seq<byte>, clauses: seq<Clause>,
          body: Code, hasElse: bool, els: Code)

  datatype Code = Nil | Cons(hd: Instr, tl: Code)

  // ---- immediates ----

  predicate IsU32(bs: seq<byte>) { UN(32, bs).Some? }
  predicate IsS33(bs: seq<byte>) { SN(33, bs).Some? }
  function U32(bs: seq<byte>): nat requires IsU32(bs) { UN(32, bs).value }
  function S33(bs: seq<byte>): int requires IsS33(bs) { SN(33, bs).value }

  /** How the immediates of a non-control instruction are laid out: LEBs, then raw bytes. */
  datatype Layout = Layout(lebs: nat, raw: nat)

  function PlainLayout(op: byte): Option<Layout> {
    if op in {0x00, 0x01, 0x1a, 0x1b, 0xd1} || 0x45 <= op <= 0xc4 then Some(Layout(0, 0))
    else if op == 0x1c then Some(Layout(1, 1))
    else if 0x20 <= op <= 0x26 || op in {0x41, 0x42, 0xd2} then Some(Layout(1, 0))
    else if 0x28 <= op <= 0x3e then Some(Layout(2, 0))
    else if op in {0x3f, 0x40, 0xd0} then Some(Layout(0, 1))
    else if op == 0x43 then Some(Layout(0, 4))
    else if op == 0x44 then Some(Layout(0, 8))
    else None
  }

  /** The second table, selected by the prefix byte 0xfc. */
  function PrefixedLayout(op: nat): Option<Layout> {
    if op <= 7 then Some(Layout(0, 0))
    else if op == 8 then Some(Layout(1, 1))
    else if op == 10 then Some(Layout(0, 2))
    else if op == 11 then Some(Layout(0, 1))
    else if op in {12, 14} then Some(Layout(2, 0))
    else if op in {9, 13, 15, 16, 17} then Some(Layout(1, 0))
    else None
  }

  // ---- decoding in place ----

  /** The index just after the LEB at `p`. */
  function LebEnd(code: seq<byte>, p: nat): Option<nat>
    decreases |code| - p
  {
    if p >= |code| then None
    else if code[p] < 128 then Some(p + 1)
    else LebEnd(code, p + 1)
  }

  datatype Imm = Imm(value: int, next: nat)

  function ReadU32(code: seq<byte>, p: nat): (r: Option<Imm>)
    ensures r.Some? ==> r.value.value >= 0
  {
    var e := LebEnd(code, p);
    if e.Some? && p <= e.value <= |code| && IsU32(code[p..e.value])
    then Some(Imm(U32(code[p..e.value]), e.value)) else None
  }

  function ReadS33(code: seq<byte>, p: nat): Option<Imm> {
    var e := LebEnd(code, p);
    if e.Some? && p <= e.value <= |code| && IsS33(code[p..e.value])
    then Some(Imm(S33(code[p..e.value]), e.value)) else None
  }

  function SkipLebs(code: seq<byte>, p: nat, n: nat): Option<nat>
    decreases n
  {
    if n == 0 then Some(p)
    else match LebEnd(code, p)
      case None => None
      case Some(e) => SkipLebs(code, e, n - 1)
  }

  function SkipRaw(code: seq<byte>, p: nat, n: nat): Option<nat> {
    if p + n <= |code| then Some(p + n) else None
  }

  function SkipLayout(code: seq<byte>, p: nat, l: Option<Layout>): Option<nat> {
    match l
    case None => None
    case Some(y) =>
      match SkipLebs(code, p, y.lebs)
      case None => None
      case Some(e) => SkipRaw(code, e, y.raw)
  }

  /** The end of the non-control instruction at `p`. */
  function PlainEnd(code: seq<byte>, p: nat): Option<nat> {
    if p >= |code| then None
    else if code[p] == 0xfc then
      match ReadU32(code, p + 1)
      case None => None
      case Some(i) => SkipLayout(code, i.next, PrefixedLayout(i.value))
    else SkipLayout(code, p + 1, PlainLayout(code[p]))
  }

  /** One catch clause at `p`: its opcode, tag index (or -1), label and end. */
  datatype ClauseAt = ClauseAt(op: byte, tag: int, target: nat, next: nat)

  function ReadClause(code: seq<byte>, p: nat): Option<ClauseAt> {
    if p >= |code| then None
    else
      var op := code[p];
      if op == CATCH || op == CATCH_REF then
        match ReadU32(code, p + 1)
        case None => None
        case Some(t) =>
          match ReadU32(code, t.next)
          case None => None
          case Some(l) => Some(ClauseAt(op, t.value, l.value, l.next))
      else if op == CATCH_ALL || op == CATCH_ALL_REF then
        match ReadU32(code, p + 1)
        case None => None
        case Some(l) => Some(ClauseAt(op, -1, l.value, l.next))
      else None
  }

  function SkipClauses(code: seq<byte>, p: nat, n: nat): Option<nat>
    decreases n
  {
    if n == 0 then Some(p)
    else match ReadClause(code, p)
      case None => None
      case Some(c) => SkipClauses(code, c.next, n - 1)
  }

  datatype Tok = Tok(op: byte, next: nat)

  /** read_insn_nocheck: the first byte of the instruction at `p` and its end. */
  function InsnEnd(code: seq<byte>, p: nat): Option<Tok> {
    if p >= |code| then None
    else
      var op := code[p];
      if op in {BLOCK, LOOP, IF} then
        match ReadS33(code, p + 1)
        case None => None
        case Some(b) => Some(Tok(op, b.next))
      else if op == TRY_TABLE then
        match HeaderEnd(code, p)
        case None => None
        case Some(e) => Some(Tok(op, e))
      else if op in {ELSE, END, RETURN, THROW_REF} then Some(Tok(op, p + 1))
      else if op in {BR, BR_IF, CALL, RETURN_CALL, THROW} then
        match ReadU32(code, p + 1)
        case None => None
        case Some(i) => Some(Tok(op, i.next))
      else if op == BR_TABLE then
        match ReadU32(code, p + 1)
        case None => None
        case Some(c) =>
          match SkipLebs(code, c.next, c.value + 1)
          case None => None
          case Some(e) => Some(Tok(op, e))
      else
        match PlainEnd(code, p)
        case None => None
        case Some(e) => Some(Tok(op, e))
  }

  /** The end of the try_table header at `p`: block type, count, clauses. */
  function HeaderEnd(code: seq<byte>, p: nat): Option<nat> {
    match ReadS33(code, p + 1)
    case None => None
    case Some(b) =>
      match ReadU32(code, b.next)
      case None => None
      case Some(c) => SkipClauses(code, c.next, c.value)
  }

  // ---- encoding ----

  function Flat(ss: seq<seq<byte>>): seq<byte> {
    if ss == [] then [] else ss[0] + Flat(ss[1..])
  }

  function EncClause(c: Clause): seq<byte> { [c.op] + c.tag + c.target }

  function EncClauses(cs: seq<Clause>): seq<byte> {
    if cs == [] then [] else EncClause(cs[0]) + EncClauses(cs[1..])
  }

  function EncPlain(x: PlainInstr): (s: seq<byte>)
    ensures s != []
  {
    match x
    case Bare(op) => [op]
    case SelectTyped(count, typ) => [0x1c] + (count + [typ])
    case RefNull(typ) => [0xd0] + [typ]
    case OfIndex(op, index) => [op] + index
    case Access(op, align, offset) => [op] + (align + offset)
    case MemorySize(op, mem) => [op] + [mem]
    case ConstI32(value) => [0x41] + value
    case ConstI64(value) => [0x42] + value
    case ConstF32(bits) => [0x43] + bits
    case ConstF64(bits) => [0x44] + bits
    case TruncSat(sub) => [0xfc] + sub
    case MemoryInit(sub, index, mem) => [0xfc] + (sub + (index + [mem]))
    case MemoryCopy(sub, mem, mem2) => [0xfc] + (sub + [mem, mem2])
    case MemoryFill(sub, mem) => [0xfc] + (sub + [mem])
    case OfSegment(sub, index) => [0xfc] + (sub + index)
    case OfTwoIndexes(sub, index, index2) => [0xfc] + (sub + (index + index2))
  }

  function EncLeaf(l: Leaf): seq<byte> {
    match l
    case Plain(x) => EncPlain(x)
    case Br(i) => [BR] + i
    case BrIf(i) => [BR_IF] + i
    case BrTable(count, table, dflt) => [BR_TABLE] + (count + (Flat(table) + dflt))
    case Return => [RETURN]
    case Call(i) => [CALL] + i
    case ReturnCall(i) => [RETURN_CALL] + i
    case Throw(i) => [THROW] + i
    case ThrowRef => [THROW_REF]
  }

  function KindOp(k: Kind): byte {
    match k case KBlock => BLOCK case KLoop => LOOP case KIf => IF case KTry => TRY_TABLE
  }

  /** The bytes of a block before its body. */
  function Header(i: Instr): (h: seq<byte>)
    requires i.Blk?
    ensures |h| >= 1
  {
    [KindOp(i.kind)] + (i.bt + (i.count + EncClauses(i.clauses)))
  }

  /** The bytes of a block after its (first) body. */
  function Closing(i: Instr): seq<byte>
    requires i.Blk?
    decreases i, 0
  {
    if i.hasElse then [ELSE] + (Enc(i.els) + [END]) else [END]
  }

  function EncInstr(i: Instr): (s: seq<byte>)
    decreases i, 1
  {
    match i
    case Leaf(l) => EncLeaf(l)
    case Blk(_, _, _, _, body, _, _) => Header(i) + (Enc(body) + Closing(i))
  }

  function Enc(c: Code): seq<byte>
    decreases c, 0
  {
    match c
    case Nil => []
    case Cons(i, tl) => EncInstr(i) + Enc(tl)
  }

  // ---- well-formed instructions ----

  predicate ClauseWf(c: Clause) {
    && IsU32(c.target)
    && (if c.op == CATCH || c.op == CATCH_REF then IsU32(c.tag)
        else (c.op == CATCH_ALL || c.op == CATCH_ALL_REF) && c.tag == [])
  }

  predicate IsSub(bs: seq<byte>, lo: nat, hi: nat) { IsU32(bs) && lo <= U32(bs) <= hi }

  /** The opcodes of lib/insn_list_base.h and lib/insn_list_fc.h, and the forms of their immediates. */
  predicate PlainWf(x: PlainInstr) {
    match x
    // unreachable, nop, drop, select, ref.is_null, and everything on numbers
    case Bare(op) => op <= 0x01 || op == 0x1a || op == 0x1b || op == 0xd1 || 0x45 <= op <= 0xc4
    case SelectTyped(count, _) => IsU32(count) && U32(count) == 1
    case RefNull(_) => true
    // local.get to table.set, and ref.func
    case OfIndex(op, index) => (0x20 <= op <= 0x26 || op == 0xd2) && IsU32(index)
    // i32.load to i64.store32
    case Access(op, align, offset) => 0x28 <= op <= 0x3e && IsU32(align) && IsU32(offset)
    // memory.size, memory.grow
    case MemorySize(op, mem) => (op == 0x3f || op == 0x40) && mem == 0
    case ConstI32(value) => SN(32, value).Some?
    case ConstI64(value) => SN(64, value).Some?
    case ConstF32(bits) => |bits| * 8 == 32
    case ConstF64(bits) => |bits| * 8 == 64
    case TruncSat(sub) => IsSub(sub, 0, 7)
    case MemoryInit(sub, index, mem) => IsSub(sub, 8, 8) && IsU32(index) && mem == 0
    case MemoryCopy(sub, mem, mem2) => IsSub(sub, 10, 10) && mem == 0 && mem2 == 0
    case MemoryFill(sub, mem) => IsSub(sub, 11, 11) && mem == 0
    // data.drop; elem.drop; table.grow, table.size, table.fill
    case OfSegment(sub, index) => (IsSub(sub, 9, 9) || IsSub(sub, 13, 13) || IsSub(sub, 15, 17)) && IsU32(index)
    // table.init, table.copy
    case OfTwoIndexes(sub, index, index2) => (IsSub(sub, 12, 12) || IsSub(sub, 14, 14)) && IsU32(index) && IsU32(index2)
  }

  predicate LeafWf(l: Leaf) {
    match l
    case Plain(x) => PlainWf(x)
    case Br(i) => IsU32(i)
    case BrIf(i) => IsU32(i)
    case BrTable(count, table, dflt) =>
      IsU32(count) && U32(count) == |table| && IsU32(dflt) && forall t :: t in table ==> IsU32(t)
    case Return => true
    case Call(i) => IsU32(i)
    case ReturnCall(i) => IsU32(i)
    case Throw(i) => IsU32(i)
    case ThrowRef => true
  }

  /** The header, the bodies are checked by `Wf`. */
  predicate HeaderWf(i: Instr)
    requires i.Blk?
  {
    && IsS33(i.bt)
    && (i.hasElse ==> i.kind == KIf)
    && (if i.kind == KTry
        then IsU32(i.count) && U32(i.count) == |i.clauses| && forall c :: c in i.clauses ==> ClauseWf(c)
        else i.count == [] && i.clauses == [])
  }

  predicate InstrWf(i: Instr)
    decreases i, 1
  {
    match i
    case Leaf(l) => LeafWf(l)
    case Blk(_, _, _, _, body, hasElse, els) => HeaderWf(i) && Wf(body) && (hasElse ==> Wf(els))
  }

  predicate Wf(c: Code)
    decreases c, 0
  {
    match c
    case Nil => true
    case Cons(i, tl) => InstrWf(i) && Wf(tl)
  }

  // ---- bytes at a position ----

  predicate At(code: seq<byte>, p: nat, s: seq<byte>) {
    p + |s| <= |code| && code[p..p + |s|] == s
  }

  lemma AtSplit(code: seq<byte>, p: nat, a: seq<byte>, b: seq<byte>)
    ensures At(code, p, a + b) <==> At(code, p, a) && At(code, p + |a|, b)
  {
    if At(code, p, a + b) {
      assert code[p..p + |a|] == (a + b)[..|a|] == a;
      assert code[p + |a|..p + |a| + |b|] == (a + b)[|a|..] == b;
    }
    if At(code, p, a) && At(code, p + |a|, b) {
      assert code[p..p + |a| + |b|] == code[p..p + |a|] + code[p + |a|..p + |a| + |b|];
    }
  }

  lemma AtHead(code: seq<byte>, p: nat, x: byte, s: seq<byte>)
    requires At(code, p, [x] + s)
    ensures p < |code| && code[p] == x && At(code, p + 1, s)
  {
    AtSplit(code, p, [x], s);
    assert code[p..p + 1][0] == x;
  }

  // ---- decoding what was encoded ----

  lemma {:induction false} LebEndAt(code: seq<byte>, p: nat, bs: seq<byte>)
    requires At(code, p, bs) && |bs| > 0 && bs[|bs| - 1] < 128
    requires forall i :: 0 <= i < |bs| - 1 ==> bs[i] >= 128
    ensures LebEnd(code, p) == Some(p + |bs|)
    decreases |bs|
  {
    assert code[p] == code[p..p + |bs|][0] == bs[0];
    if |bs| > 1 {
      assert code[p + 1..p + |bs|] == bs[1..];
      LebEndAt(code, p + 1, bs[1..]);
    }
  }

  lemma ReadU32At(code: seq<byte>, p: nat, bs: seq<byte>)
    requires At(code, p, bs) && IsU32(bs)
    ensures ReadU32(code, p) == Some(Imm(U32(bs), p + |bs|)) && LebEnd(code, p) == Some(p + |bs|)
    ensures |bs| > 0
  {
    Shape(32, false, bs);
    LebEndAt(code, p, bs);
  }

  lemma ReadS33At(code: seq<byte>, p: nat, bs: seq<byte>)
    requires At(code, p, bs) && IsS33(bs)
    ensures ReadS33(code, p) == Some(Imm(S33(bs), p + |bs|)) && LebEnd(code, p) == Some(p + |bs|)
    ensures |bs| > 0
  {
    Shape(33, true, bs);
    LebEndAt(code, p, bs);
  }

  // ---- the end of an instruction ----

  lemma SkipOneAt(code: seq<byte>, p: nat, bs: seq<byte>, rest: seq<byte>)
    requires At(code, p, bs + rest) && LebEnd(code, p) == Some(p + |bs|)
    ensures SkipLebs(code, p, 1) == Some(p + |bs|) && At(code, p + |bs|, rest) && p + |bs| + |rest| <= |code|
  {
    hide LebEnd;
    AtSplit(code, p, bs, rest);
    SkipOne(code, p);
  }

  lemma SignedAt(code: seq<byte>, p: nat, n: nat, bs: seq<byte>)
    requires At(code, p, bs) && SN(n, bs).Some?
    ensures LebEnd(code, p) == Some(p + |bs|)
  {
    Shape(n, true, bs);
    LebEndAt(code, p, bs);
  }

  /** One LEB and then `|raw|` bytes. */
  lemma OneThenRaw(code: seq<byte>, p: nat, bs: seq<byte>, raw: seq<byte>)
    requires At(code, p, bs + raw) && LebEnd(code, p) == Some(p + |bs|)
    ensures SkipLayout(code, p, Some(Layout(1, |raw|))) == Some(p + |bs + raw|)
  {
    hide LebEnd, SkipLebs, At;
    SkipOneAt(code, p, bs, raw);
  }

  lemma JustRaw(code: seq<byte>, p: nat, raw: seq<byte>)
    requires At(code, p, raw)
    ensures SkipLayout(code, p, Some(Layout(0, |raw|))) == Some(p + |raw|)
  {
  }

  lemma TwoLebs(code: seq<byte>, p: nat, a: seq<byte>, b: seq<byte>)
    requires At(code, p, a + b) && IsU32(a) && IsU32(b)
    ensures SkipLayout(code, p, Some(Layout(2, 0))) == Some(p + |a + b|)
  {
    hide LebEnd, SkipLebs, At, IsU32, ReadU32;
    AtSplit(code, p, a, b);
    ReadU32At(code, p, a);
    ReadU32At(code, p + |a|, b);
    SkipOne(code, p);
    SkipOne(code, p + |a|);
    SkipLebsMore(code, p, 1, 1);
    AtFits(code, p, a + b);
  }

  lemma AtFits(code: seq<byte>, p: nat, s: seq<byte>)
    requires At(code, p, s)
    ensures p + |s| <= |code|
  {
  }

  /** What follows the opcode, or the second one after a prefix. */
  function Operands(x: PlainInstr): seq<byte> {
    match x
    case Bare(_) => []
    case SelectTyped(count, typ) => count + [typ]
    case RefNull(typ) => [typ]
    case OfIndex(_, index) => index
    case Access(_, align, offset) => align + offset
    case MemorySize(_, mem) => [mem]
    case ConstI32(value) => value
    case ConstI64(value) => value
    case ConstF32(bits) => bits
    case ConstF64(bits) => bits
    case TruncSat(_) => []
    case MemoryInit(_, index, mem) => index + [mem]
    case MemoryCopy(_, mem, mem2) => [mem, mem2]
    case MemoryFill(_, mem) => [mem]
    case OfSegment(_, index) => index
    case OfTwoIndexes(_, index, index2) => index + index2
  }

  lemma BareBytes(x: PlainInstr)
    requires EncPlain(x)[0] != 0xfc
    ensures EncPlain(x) == [EncPlain(x)[0]] + Operands(x)
  {
  }

  /** The instructions without prefix: the layout that the opcode selects is that of the immediates. */
  lemma BareEnd(code: seq<byte>, p: nat, x: PlainInstr)
    requires PlainWf(x) && At(code, p + 1, Operands(x)) && EncPlain(x)[0] != 0xfc
    ensures SkipLayout(code, p + 1, PlainLayout(EncPlain(x)[0])) == Some(p + 1 + |Operands(x)|)
  {
    hide LebEnd, SkipLebs, At, IsU32, U32, ReadU32, SkipLayout, SN;
    match x {
      case Bare(op) => JustRaw(code, p + 1, []);
      case SelectTyped(count, typ) =>
        AtSplit(code, p + 1, count, [typ]);
        ReadU32At(code, p + 1, count);
        OneThenRaw(code, p + 1, count, [typ]);
      case RefNull(typ) => JustRaw(code, p + 1, [typ]);
      case OfIndex(op, index) => ReadU32At(code, p + 1, index); assert index + [] == index; OneThenRaw(code, p + 1, index, []);
      case Access(op, align, offset) => TwoLebs(code, p + 1, align, offset);
      case MemorySize(op, mem) => JustRaw(code, p + 1, [mem]);
      case ConstI32(value) => SignedAt(code, p + 1, 32, value); assert value + [] == value; OneThenRaw(code, p + 1, value, []);
      case ConstI64(value) => SignedAt(code, p + 1, 64, value); assert value + [] == value; OneThenRaw(code, p + 1, value, []);
      case ConstF32(bits) => JustRaw(code, p + 1, bits);
      case ConstF64(bits) => JustRaw(code, p + 1, bits);
    }
  }

  lemma PrefixedEnd(code: seq<byte>, p: nat, x: PlainInstr)
    requires PlainWf(x) && EncPlain(x)[0] == 0xfc && At(code, p, Operands(x))
    ensures IsU32(x.sub) && SkipLayout(code, p, PrefixedLayout(U32(x.sub))) == Some(p + |Operands(x)|)
    ensures EncPlain(x) == [0xfc] + (x.sub + Operands(x))
  {
    hide LebEnd, SkipLebs, At, IsU32, U32, ReadU32, SkipLayout;
    match x {
      case TruncSat(sub) => JustRaw(code, p, []); assert sub + [] == sub;
      case MemoryInit(sub, index, mem) =>
        AtSplit(code, p, index, [mem]);
        ReadU32At(code, p, index);
        OneThenRaw(code, p, index, [mem]);
      case MemoryCopy(sub, mem, mem2) => JustRaw(code, p, [mem, mem2]);
      case MemoryFill(sub, mem) => JustRaw(code, p, [mem]);
      case OfSegment(sub, index) => ReadU32At(code, p, index); assert index + [] == index; OneThenRaw(code, p, index, []);
      case OfTwoIndexes(sub, index, index2) => TwoLebs(code, p, index, index2);
    }
  }

  /** The reader finds the end of every instruction without control effect. */
  lemma PlainEndIs(code: seq<byte>, p: nat, x: PlainInstr)
    requires PlainWf(x) && At(code, p, EncPlain(x))
    ensures p < |code| && code[p] == EncPlain(x)[0] && PlainEnd(code, p) == Some(p + |EncPlain(x)|)
  {
    hide LebEnd, SkipLebs, At, IsU32, U32, ReadU32, SkipLayout, PlainWf, EncPlain, PlainLayout, PrefixedLayout;
    var s := EncPlain(x);
    assert s == [s[0]] + s[1..];
    AtHead(code, p, s[0], s[1..]);
    if s[0] == 0xfc {
      OperandsAt(code, p + 1, x);
      PrefixedEnd(code, p + 1 + |x.sub|, x);
      ReadU32At(code, p + 1, x.sub);
    } else {
      BareBytes(x);
      BareEnd(code, p, x);
    }
  }

  /** No other opcode is known, with or without the prefix. */
  lemma OpcodesKnown(op: byte, n: nat)
    ensures PlainLayout(op).Some? <==> op != 0xfc && exists x :: PlainWf(x) && EncPlain(x)[0] == op
    ensures PrefixedLayout(n).Some? <==> n in {0, 1, 2, 3, 4, 5, 6, 7, 8, 9, 10, 11, 12, 13, 14, 15, 16, 17}
  {
    hide IsU32, U32, SN;
    OneByte(0);
    OneByte(1);
    var z := [0];
    if PlainLayout(op).Some? {
      var x :=
        if op == 0x1c then SelectTyped([1], 0x7f)
        else if 0x20 <= op <= 0x26 || op == 0xd2 then OfIndex(op, z)
        else if 0x28 <= op <= 0x3e then Access(op, z, z)
        else if op == 0x3f || op == 0x40 then MemorySize(op, 0)
        else if op == 0xd0 then RefNull(0x70)
        else if op == 0x41 then ConstI32(z)
        else if op == 0x42 then ConstI64(z)
        else if op == 0x43 then ConstF32(z + z + z + z)
        else if op == 0x44 then ConstF64(z + z + z + z + z + z + z + z)
        else Bare(op);
      assert PlainWf(x) && EncPlain(x)[0] == op;
    }
  }

  /** Only the four kinds of clauses are known; those that catch all have no tag. */
  lemma ClausesKnown(code: seq<byte>, p: nat)
    ensures var c := ReadClause(code, p);
            c.Some? ==> p < |code| && code[p] == c.value.op && code[p] in {0, 1, 2, 3} && (c.value.tag < 0 <==> code[p] in {2, 3})
  {
    hide LebEnd, IsU32, U32;
  }

  lemma OneByte(b: byte)
    requires b < 64
    ensures IsU32([b]) && U32([b]) == b && SN(32, [b]).Some? && SN(64, [b]).Some?
  {
    assert Pow2(3) == 8 && Pow2(6) == 64;
    Pow2Mono(6, 31);
    Pow2Mono(6, 32);
    Pow2Mono(6, 63);
  }

  lemma OperandsAt(code: seq<byte>, p: nat, x: PlainInstr)
    requires PlainWf(x) && EncPlain(x)[0] == 0xfc && At(code, p, EncPlain(x)[1..])
    ensures x.TruncSat? || x.MemoryInit? || x.MemoryCopy? || x.MemoryFill? || x.OfSegment? || x.OfTwoIndexes?
    ensures IsU32(x.sub) && At(code, p, x.sub) && At(code, p + |x.sub|, Operands(x))
  {
    hide At, IsU32, U32;
    assert EncPlain(x)[1..] == x.sub + Operands(x);
    AtSplit(code, p, x.sub, Operands(x));
  }

  lemma {:induction false} SkipTable(code: seq<byte>, p: nat, ts: seq<seq<byte>>)
    requires At(code, p, Flat(ts)) && forall t :: t in ts ==> IsU32(t)
    ensures SkipLebs(code, p, |ts|) == Some(p + |Flat(ts)|)
    decreases |ts|
  {
    if ts != [] {
      AtSplit(code, p, ts[0], Flat(ts[1..]));
      ReadU32At(code, p, ts[0]);
      SkipTable(code, p + |ts[0]|, ts[1..]);
    }
  }

  lemma {:induction false} SkipLebsMore(code: seq<byte>, p: nat, n: nat, m: nat)
    requires SkipLebs(code, p, n).Some?
    ensures SkipLebs(code, p, n + m) == SkipLebs(code, SkipLebs(code, p, n).value, m)
    decreases n
  {
    if n > 0 { SkipLebsMore(code, LebEnd(code, p).value, n - 1, m); }
  }

  /** The clause record that decoding `c` at `p` gives. */
  function ClauseValue(c: Clause, p: nat): ClauseAt
    requires ClauseWf(c)
  {
    ClauseAt(c.op, if c.tag == [] then -1 else if IsU32(c.tag) then U32(c.tag) else -1, U32(c.target), p + |EncClause(c)|)
  }

  lemma ReadClauseAt(code: seq<byte>, p: nat, c: Clause)
    requires At(code, p, EncClause(c)) && ClauseWf(c)
    ensures ReadClause(code, p) == Some(ClauseValue(c, p))
  {
    hide IsU32, IsS33, U32, S33, LebEnd;
    assert EncClause(c) == [c.op] + (c.tag + c.target);
    AtHead(code, p, c.op, c.tag + c.target);
    AtSplit(code, p + 1, c.tag, c.target);
    if c.op == CATCH || c.op == CATCH_REF { ReadU32At(code, p + 1, c.tag); }
    ReadU32At(code, p + 1 + |c.tag|, c.target);
  }

  lemma {:induction false} SkipClausesAt(code: seq<byte>, p: nat, cs: seq<Clause>)
    requires At(code, p, EncClauses(cs)) && forall c :: c in cs ==> ClauseWf(c)
    ensures SkipClauses(code, p, |cs|) == Some(p + |EncClauses(cs)|)
    decreases |cs|
  {
    hide IsU32, IsS33, U32, S33, LebEnd, ReadClause, ClauseWf, EncClause;
    if cs != [] {
      AtSplit(code, p, EncClause(cs[0]), EncClauses(cs[1..]));
      ReadClauseAt(code, p, cs[0]);
      SkipClausesAt(code, p + |EncClause(cs[0])|, cs[1..]);
    }
  }

  predicate IsOpener(op: byte) { op in {BLOCK, LOOP, IF, TRY_TABLE} }

  /** Decoding a block's header gives its opcode, block type and end. */
  lemma HeaderAt(code: seq<byte>, p: nat, i: Instr)
    requires i.Blk? && HeaderWf(i) && At(code, p, Header(i))
    ensures p < |code| && code[p] == KindOp(i.kind)
    ensures InsnEnd(code, p) == Some(Tok(KindOp(i.kind), p + |Header(i)|))
    ensures ReadS33(code, p + 1) == Some(Imm(S33(i.bt), p + 1 + |i.bt|))
    ensures |Header(i)| >= 2
    ensures i.kind == KTry ==>
              && ReadU32(code, p + 1 + |i.bt|) == Some(Imm(|i.clauses|, p + 1 + |i.bt| + |i.count|))
              && At(code, p + 1 + |i.bt| + |i.count|, EncClauses(i.clauses))
              && p + |Header(i)| == p + 1 + |i.bt| + |i.count| + |EncClauses(i.clauses)|
    ensures i.kind != KTry ==> p + |Header(i)| == p + 1 + |i.bt|
  {
    hide IsU32, IsS33, U32, S33, LebEnd, SkipClauses, ClauseWf, ReadU32, ReadS33, SkipLebs, PlainEnd;
    AtHead(code, p, KindOp(i.kind), i.bt + (i.count + EncClauses(i.clauses)));
    AtSplit(code, p + 1, i.bt, i.count + EncClauses(i.clauses));
    ReadS33At(code, p + 1, i.bt);
    if i.kind == KTry {
      AtSplit(code, p + 1 + |i.bt|, i.count, EncClauses(i.clauses));
      ReadU32At(code, p + 1 + |i.bt|, i.count);
      SkipClausesAt(code, p + 1 + |i.bt| + |i.count|, i.clauses);
      assert HeaderEnd(code, p) == Some(p + |Header(i)|);
      assert InsnEnd(code, p) == Some(Tok(TRY_TABLE, p + |Header(i)|));
    } else {
      assert EncClauses(i.clauses) == [];
      assert InsnEnd(code, p) == Some(Tok(KindOp(i.kind), p + |Header(i)|));
    }
  }

  /** Decoding a leaf finds its end, and its first byte is no block delimiter. */
  lemma LeafAt(code: seq<byte>, p: nat, l: Leaf)
    requires LeafWf(l) && At(code, p, EncLeaf(l))
    ensures |EncLeaf(l)| > 0 && p < |code| && code[p] == EncLeaf(l)[0]
    ensures InsnEnd(code, p) == Some(Tok(EncLeaf(l)[0], p + |EncLeaf(l)|))
    ensures EncLeaf(l)[0] !in {BLOCK, LOOP, IF, TRY_TABLE, ELSE, END}
  {
    hide IsU32, U32, LebEnd, Flat, ReadU32, PlainEnd, SkipLebs, At, InsnEnd;
    match l {
      case Plain(x) => PlainAt(code, p, x);
      case BrTable(count, table, dflt) => TableLeafAt(code, p, count, table, dflt);
      case Br(i) => U32LeafAt(code, p, BR, i);
      case BrIf(i) => U32LeafAt(code, p, BR_IF, i);
      case Call(i) => U32LeafAt(code, p, CALL, i);
      case ReturnCall(i) => U32LeafAt(code, p, RETURN_CALL, i);
      case Throw(i) => U32LeafAt(code, p, THROW, i);
      case Return => BareLeafAt(code, p, RETURN);
      case ThrowRef => BareLeafAt(code, p, THROW_REF);
    }
  }

  lemma BareLeafAt(code: seq<byte>, p: nat, op: byte)
    requires op in {RETURN, THROW_REF} && At(code, p, [op])
    ensures p < |code| && code[p] == op && InsnEnd(code, p) == Some(Tok(op, p + 1))
  {
    assert [op] + [] == [op];
    AtHead(code, p, op, []);
  }

  lemma TableLeafAt(code: seq<byte>, p: nat, count: seq<byte>, table: seq<seq<byte>>, dflt: seq<byte>)
    requires LeafWf(BrTable(count, table, dflt)) && At(code, p, [BR_TABLE] + (count + (Flat(table) + dflt)))
    ensures p < |code| && code[p] == BR_TABLE
    ensures InsnEnd(code, p) == Some(Tok(BR_TABLE, p + |[BR_TABLE] + (count + (Flat(table) + dflt))|))
  {
    hide IsU32, U32, LebEnd, Flat, ReadU32, PlainEnd, SkipLebs, At;
    AtHead(code, p, BR_TABLE, count + (Flat(table) + dflt));
    BrTableAt(code, p + 1, count, table, dflt);
  }

  lemma U32LeafAt(code: seq<byte>, p: nat, op: byte, i: seq<byte>)
    requires op in {BR, BR_IF, CALL, RETURN_CALL, THROW} && IsU32(i) && At(code, p, [op] + i)
    ensures p < |code| && code[p] == op && InsnEnd(code, p) == Some(Tok(op, p + |[op] + i|))
    ensures ReadU32(code, p + 1) == Some(Imm(U32(i), p + 1 + |i|))
  {
    hide IsU32, U32, LebEnd;
    AtHead(code, p, op, i);
    ReadU32At(code, p + 1, i);
  }

  lemma PlainAt(code: seq<byte>, p: nat, x: PlainInstr)
    requires PlainWf(x) && At(code, p, EncPlain(x))
    ensures p < |code| && code[p] == EncPlain(x)[0]
    ensures InsnEnd(code, p) == Some(Tok(EncPlain(x)[0], p + |EncPlain(x)|))
    ensures EncPlain(x)[0] !in {BLOCK, LOOP, IF, TRY_TABLE, ELSE, END}
    ensures EncPlain(x)[0] !in {BR, BR_IF, BR_TABLE, RETURN, CALL, RETURN_CALL, THROW, THROW_REF}
  {
    hide LebEnd, ReadU32, SkipLebs, PlainEnd, At, SN, IsU32, U32;
    PlainEndIs(code, p, x);
  }

  lemma BrTableAt(code: seq<byte>, p: nat, count: seq<byte>, table: seq<seq<byte>>, dflt: seq<byte>)
    requires At(code, p, count + (Flat(table) + dflt))
    requires IsU32(count) && U32(count) == |table| && IsU32(dflt) && forall t :: t in table ==> IsU32(t)
    ensures ReadU32(code, p) == Some(Imm(|table|, p + |count|))
    ensures At(code, p + |count|, Flat(table) + dflt)
    ensures SkipLebs(code, p + |count|, |table| + 1) == Some(p + |count| + |Flat(table)| + |dflt|)
  {
    hide IsU32, U32, LebEnd, Flat, ReadU32, SkipLebs, At;
    AtSplit(code, p, count, Flat(table) + dflt);
    ReadU32At(code, p, count);
    var q := p + |count|;
    AtSplit(code, q, Flat(table), dflt);
    SkipTable(code, q, table);
    ReadU32At(code, q + |Flat(table)|, dflt);
    SkipLebsMore(code, q, |table|, 1);
    SkipOne(code, q + |Flat(table)|);
  }

  lemma SkipOne(code: seq<byte>, p: nat)
    ensures SkipLebs(code, p, 1) == LebEnd(code, p)
  {
    hide LebEnd;
    if LebEnd(code, p).Some? { assert SkipLebs(code, LebEnd(code, p).value, 0) == LebEnd(code, p); }
  }

  /** The entry of a br_table that index `l` selects. */
  function TableEntry(table: seq<seq<byte>>, dflt: seq<byte>, l: nat): seq<byte> {
    if l < |table| then table[l] else dflt
  }

  /** br_table's walk: skip `l` entries and read the next one. */
  lemma {:induction false} TableWalk(code: seq<byte>, p: nat, table: seq<seq<byte>>, dflt: seq<byte>, l: nat)
    requires At(code, p, Flat(table) + dflt) && IsU32(dflt) && forall t :: t in table ==> IsU32(t)
    requires l <= |table|
    ensures SkipLebs(code, p, l).Some?
    ensures IsU32(TableEntry(table, dflt, l))
    ensures var r := ReadU32(code, SkipLebs(code, p, l).value);
            r.Some? && r.value.value == U32(TableEntry(table, dflt, l))
    decreases l
  {
    hide IsU32, U32, At, ReadU32, LebEnd;
    if |table| == 0 {
      assert Flat(table) + dflt == dflt;
      ReadU32At(code, p, dflt);
    } else {
      var rest := Flat(table[1..]) + dflt;
      assert Flat(table) + dflt == table[0] + rest;
      AtSplit(code, p, table[0], rest);
      ReadU32At(code, p, table[0]);
      if l > 0 {
        TableWalk(code, p + |table[0]|, table[1..], dflt, l - 1);
        assert SkipLebs(code, p, l) == SkipLebs(code, p + |table[0]|, l - 1);
      }
    }
  }
}
