/**
  Value types and block types (WebAssembly Core 2.0, sections 5.3 and 5.4.1): what
  the bytes stand for, how wide values are, and that the interpreter's cell sizes
  (lib/cell.c:9-48) and block arities (lib/exec.c:738-761) agree with it.
 */
module Types {
  import opened Leb
  import opened Code
  import opened Machine

  datatype ValueType = I32 | I64 | F32 | F64 | V128 | FuncRef | ExternRef | ExnRef

  const CELL_BITS: nat := 32
  const POINTER_BITS: nat := 64

  /** The width of a value. An exnref is the parameters of an exception and a pointer to its tag. */
  function Bits(v: ValueType): nat {
    match v
    case I32 => 32
    case I64 => 64
    case F32 => 32
    case F64 => 64
    case V128 => 128
    case FuncRef => POINTER_BITS
    case ExternRef => POINTER_BITS
    case ExnRef => EXN_CELLS * CELL_BITS + POINTER_BITS
  }

  /** The byte of a type in the binary format. */
  function TypeByte(v: ValueType): byte {
    match v
    case I32 => 0x7f
    case I64 => 0x7e
    case F32 => 0x7d
    case F64 => 0x7c
    case V128 => 0x7b
    case FuncRef => 0x70
    case ExternRef => 0x6f
    case ExnRef => 0x69
  }

  /** The type of a byte. */
  function TypeOf(t: ValType): (v: ValueType)
    ensures TypeByte(v) == t
  {
    assert ValtypeCells(t).Some?;
    if t == 0x7f then I32 else if t == 0x7e then I64 else if t == 0x7d then F32 else if t == 0x7c then F64
    else if t == 0x7b then V128 else if t == 0x70 then FuncRef else if t == 0x6f then ExternRef else ExnRef
  }

  /** valtype_cellsize knows the value types, and those only, and a value fills its cells. */
  lemma CellsHoldValues(t: int, v: ValueType)
    ensures ValtypeCells(t).Some? ==> TypeByte(TypeOf(t)) == t && ValtypeCells(t).value * CELL_BITS == Bits(TypeOf(t))
    ensures ValtypeCells(TypeByte(v)).Some? && TypeOf(TypeByte(v)) == v
  {
  }

  function BitsOf(ts: seq<ValType>): nat {
    if ts == [] then 0 else Bits(TypeOf(ts[0])) + BitsOf(ts[1..])
  }

  /** The cells that values of these types fill. */
  function CellsOf(ts: seq<ValType>): nat { BitsOf(ts) / CELL_BITS }

  lemma {:induction false} CellSumIs(ts: seq<ValType>)
    ensures CellSum(ts) * CELL_BITS == BitsOf(ts) && CellSum(ts) == CellsOf(ts)
    decreases ts
  {
    if ts != [] {
      CellsHoldValues(ts[0], I32);
      CellSumIs(ts[1..]);
    }
  }

  // ---- block types ----

  datatype BlockTy = NoType | OneType(v: ValueType) | Indexed(i: nat)

  /** The number that a block type is encoded as: types are negative, in seven bits. */
  function Number(bt: BlockTy): int {
    match bt
    case NoType => 0x40 - 0x80
    case OneType(v) => TypeByte(v) as int - 0x80
    case Indexed(i) => i
  }

  /** The block type of a number; none that validation refuses. */
  function BlockTyOf(n: int): (bt: Option<BlockTy>)
    ensures bt.Some? ==> Number(bt.value) == n
  {
    if n >= 0 then Some(Indexed(n))
    else if n == -64 then Some(NoType)
    else if n >= -128 && ValtypeCells(n + 128).Some? then Some(OneType(TypeOf(n + 128)))
    else None
  }

  /** Every block type is its number's. */
  lemma NumberTells(bt: BlockTy)
    ensures BlockTyOf(Number(bt)) == Some(bt)
  {
    if bt.OneType? { CellsHoldValues(0, bt.v); }
  }

  /** The parameters and results of the block type with number `n`. */
  function Declared(types: seq<Sig>, n: int): Option<Sig> {
    match BlockTyOf(n)
    case None => None
    case Some(NoType) => Some(Sig([], []))
    case Some(OneType(v)) => CellsHoldValues(0, v); Some(Sig([], [TypeByte(v)]))
    case Some(Indexed(i)) => if i < |types| then Some(types[i]) else None
  }

  /** The arity of a block type is the cells of its parameters and results. */
  lemma ArityIs(types: seq<Sig>, n: int)
    ensures var d := Declared(types, n); d.Some? ==> Arity(types, n) == Some(FuncType(CellsOf(d.value.params), CellsOf(d.value.results)))
  {
    var d := Declared(types, n);
    if d.Some? {
      CellSumIs(d.value.params);
      CellSumIs(d.value.results);
      if n < 0 { LowBits(n); }
    }
  }

  lemma LowBits(n: int)
    requires -128 <= n < 0
    ensures n % 128 == n + 128 || n == -128
  {
  }

  /** The bytes that the standard writes for a block type without an index. */
  lemma ShortForms(v: ValueType)
    ensures SN(33, [0x40]) == Some(Number(NoType)) && SN(33, [TypeByte(v)]) == Some(Number(OneType(v)))
  {
  }

  /**
    However a block type is encoded as an s33, reading it in place gives the
    arity of the type that was encoded.
   */
  lemma EncodedArity(types: seq<Sig>, bt: BlockTy, bs: seq<byte>, code: seq<byte>, p: nat)
    requires SN(33, bs) == Some(Number(bt)) && At(code, p, bs)
    requires bt.Indexed? ==> bt.i < |types|
    ensures ReadS33(code, p).Some? && ReadS33(code, p).value.next == p + |bs|
    ensures Arity(types, ReadS33(code, p).value.value) ==
            match bt
            case NoType => Some(FuncType(0, 0))
            case OneType(v) => Some(FuncType(0, Bits(v) / CELL_BITS))
            case Indexed(i) => Some(FuncType(CellsOf(types[i].params), CellsOf(types[i].results)))
  {
    hide SN, ReadS33, At;
    ReadS33At(code, p, bs);
    NumberTells(bt);
    ArityIs(types, Number(bt));
    if bt.OneType? {
      CellsHoldValues(0, bt.v);
      assert BitsOf([TypeByte(bt.v)]) == Bits(bt.v) + BitsOf([TypeByte(bt.v)][1..]);
    }
  }
}
