/**
  Linear memory that is allocated lazily (lib/exec_insn_subr.c:44-115, 193-222,
  423-530; lib/insn_impl_fc.h:61-126) looks like a flat array of zeroes.

  Unshared memory, 64 KiB pages, 64-bit host. A buffer obtained from the
  allocator is an array; extending it gives another array, and a pointer is an
  array and an offset, so that a pointer into a buffer that has moved is a
  pointer into an array that is not the memory's any more. Whether the allocator
  fails is a parameter.
 */
module Memory {
  import opened Leb
  import opened Buffers

  const PAGE: nat := 65536
  const MAX_PAGES: nat := 65536
  const W: nat := 0x1_0000_0000

  type u32 = x: int | 0 <= x < 0x1_0000_0000

  function Zero(n: nat): seq<byte> { seq(n, _ => 0) }

  datatype Ret = Success | Trap | NoMemory

  datatype Ptr = Ptr(buf: array<byte>, at: nat)

  /** Does an access leave a memory of `bytes` bytes? Also an empty access at 2^32 does, since addresses are 32 bits wide. */
  predicate Outside(bytes: nat, ptr: u32, offset: u32, size: u32) {
    ptr + offset + size > bytes || ptr + offset >= W
  }

  /** That is the only access which traps although it does not leave the memory. */
  lemma EmptyAtTheEnd(bytes: nat, ptr: u32, offset: u32, size: u32)
    requires bytes <= MAX_PAGES * PAGE
    ensures Outside(bytes, ptr, offset, size) && ptr + offset + size <= bytes <==>
              bytes == MAX_PAGES * PAGE && ptr + offset == bytes && size == 0
    ensures Outside(MAX_PAGES * PAGE, W - 1, 1, 0)
  {
  }

  class MemInst {
    var data: array<byte>
    var sizeInPages: nat
    const max: nat

    ghost predicate Valid()
      reads this, data
    {
      data.Length <= sizeInPages * PAGE && sizeInPages <= max <= MAX_PAGES
    }

    /** The memory as the program sees it. */
    ghost function Flat(): (m: seq<byte>)
      requires Valid()
      reads this, data
      ensures |m| == sizeInPages * PAGE
    {
      data[..] + Zero(sizeInPages * PAGE - data.Length)
    }

    /** memory_instance_create: no page is allocated yet. */
    constructor (min: nat, max: nat)
      requires min <= max <= MAX_PAGES
      ensures Valid() && fresh(data) && Flat() == Zero(min * PAGE) && this.max == max
    {
      data := new byte[0];
      sizeInPages := min;
      this.max := max;
      new;
      assert data[..] == [];
    }

    /** mem_extend and the zeroing of what is new: another buffer with the same contents. */
    method Extend(need: nat)
      requires Valid() && data.Length <= need <= sizeInPages * PAGE
      modifies this`data
      ensures Valid() && fresh(data) && data.Length == need && Flat() == old(Flat())
    {
      var old_ := data;
      var np := new byte[need](_ => 0);
      var i := 0;
      while i < old_.Length
        invariant i <= old_.Length && fresh(np)
        invariant forall k :: 0 <= k < i ==> np[k] == old_[k]
        invariant forall k :: i <= k < need ==> np[k] == 0
        invariant old_[..] == old(data[..]) && data == old_
        modifies np
      {
        np[i] := old_[i];
        i := i + 1;
      }
      data := np;
      assert Flat() == old(Flat());
    }

    /** memory_instance_getptr2; `oom` is whether the allocator would fail. */
    method Getptr(ptr: u32, offset: u32, size: u32, oom: bool) returns (r: Ret, p: Ptr, moved: bool)
      requires Valid()
      modifies this`data
      ensures Valid() && Flat() == old(Flat())
      ensures r == Trap <==> Outside(sizeInPages * PAGE, ptr, offset, size)
      ensures r == NoMemory ==> oom
      ensures moved ==> r == Success && size > 0
      ensures r == Success ==> p == Ptr(data, ptr + offset) && (size > 0 ==> ptr + offset + size <= data.Length)
      ensures if moved then fresh(data) && data.Length > old(data.Length) else data == old(data)
      ensures r == Success && size > 0 && ptr + offset + size <= old(data.Length) ==> !moved
    {
      moved := false;
      p := Ptr(data, 0);
      if ptr + offset >= W { return Trap, p, false; }
      var ea := ptr + offset;
      if size == 0 {
        if ea > 0 && (ea - 1) / PAGE >= sizeInPages { return Trap, p, false; }
      } else {
        if ea + (size - 1) >= W { return Trap, p, false; }
        var last := ea + (size - 1);
        if last >= data.Length {
          if last / PAGE + 1 > sizeInPages { return Trap, p, false; }
          if oom { return NoMemory, p, false; }
          Extend(last + 1);
          moved := true;
        }
      }
      return Success, Ptr(data, ea), moved;
    }

    /** memory_grow_impl for an unshared memory: the old size, or -1 as 2^32 - 1. */
    method Grow(sz: u32, oom: bool) returns (r: u32)
      requires Valid()
      modifies this
      ensures Valid() && (data == old(data) || fresh(data))
      ensures r != W - 1 ==> r == old(sizeInPages) && sizeInPages == old(sizeInPages) + sz && Flat() == old(Flat()) + Zero(sz * PAGE)
      ensures r == W - 1 ==> sizeInPages == old(sizeInPages) && Flat() == old(Flat())
      ensures r == W - 1 <==> old(sizeInPages) + sz > max || (oom && sz > 0 && old(sizeInPages) + sz >= 4)
    {
      if sizeInPages + sz >= W { return W - 1; }
      var newSize := sizeInPages + sz;
      if newSize > max { return W - 1; }
      var doRealloc := newSize != sizeInPages;
      if newSize < 4 { doRealloc := false; }
      r := sizeInPages;
      if doRealloc {
        if oom { return W - 1; }
        ghost var was := Flat();
        sizeInPages := newSize;
        assert Flat() == was + Zero(sz * PAGE);
        Extend(newSize * PAGE);
      } else {
        ghost var was := Flat();
        sizeInPages := newSize;
        assert Flat() == was + Zero(sz * PAGE);
      }
    }

    // ---- accesses ----

    method Load(ptr: u32, offset: u32, n: u32, oom: bool) returns (r: Ret, bytes: seq<byte>)
      requires Valid() && n > 0
      modifies this`data
      ensures Valid() && Flat() == old(Flat()) && (data == old(data) || fresh(data))
      ensures r == Trap <==> ptr + offset + n > sizeInPages * PAGE
      ensures r == NoMemory ==> oom
      ensures r == Success ==> bytes == Flat()[ptr + offset..ptr + offset + n]
    {
      var p, moved;
      r, p, moved := Getptr(ptr, offset, n, oom);
      if r != Success { return r, []; }
      bytes := p.buf[p.at..p.at + n];
      assert Flat()[p.at..p.at + n] == data[..][p.at..p.at + n];
    }

    /** Put bytes where a pointer into the live buffer points. */
    method Put(at: nat, bytes: seq<byte>)
      requires Valid() && at + |bytes| <= data.Length
      modifies data
      ensures Valid() && Flat() == Written(old(Flat()), at, bytes)
    {
      ghost var was := data[..];
      CopyInto(data, at, bytes);
      WrittenInBuffer(was, data[..], at, bytes, Zero(sizeInPages * PAGE - data.Length));
    }

    method Store(ptr: u32, offset: u32, bytes: seq<byte>, oom: bool) returns (r: Ret)
      requires Valid() && 0 < |bytes| < W
      modifies this`data, data
      ensures Valid() && (data == old(data) || fresh(data))
      ensures r == Trap <==> ptr + offset + |bytes| > sizeInPages * PAGE
      ensures r == NoMemory ==> oom
      ensures Flat() == if r == Success then Written(old(Flat()), ptr + offset, bytes) else old(Flat())
    {
      var p, moved;
      r, p, moved := Getptr(ptr, offset, |bytes|, oom);
      if r == Success { Put(p.at, bytes); }
    }

    /** memory.fill */
    method Fill(d: u32, val: byte, n: u32, oom: bool) returns (r: Ret)
      requires Valid()
      modifies this`data, data
      ensures Valid() && (data == old(data) || fresh(data))
      ensures r == Trap <==> d + n > sizeInPages * PAGE
      ensures r == NoMemory ==> oom
      ensures Flat() == if r == Success then Written(old(Flat()), d, seq(n, _ => val)) else old(Flat())
    {
      var p, moved;
      r, p, moved := Getptr(d, 0, n, oom);
      if r != Success { return; }
      if n > 0 {
        Put(p.at, seq(n, _ => val));
      } else {
        assert Flat() == Written(Flat(), d, []);
      }
    }

    /** memory_init; a dropped segment is one of no bytes. */
    method Init(segment: seq<byte>, dropped: bool, d: u32, s: u32, n: u32, oom: bool) returns (r: Ret)
      requires Valid() && |segment| < W
      modifies this`data, data
      ensures Valid() && (data == old(data) || fresh(data))
      ensures r == Trap <==> s + n > (if dropped then 0 else |segment|) || d + n > sizeInPages * PAGE
      ensures r == NoMemory ==> oom
      ensures Flat() == if r == Success && !dropped then Written(old(Flat()), d, segment[s..s + n]) else old(Flat())
    {
      if (dropped && !(s == 0 && n == 0)) || s > |segment| || n > |segment| - s { return Trap; }
      var p, moved;
      r, p, moved := Getptr(d, 0, n, oom);
      if r != Success { return; }
      if n > 0 {
        Put(p.at, segment[s..s + n]);
      } else {
        assert segment[s..s + n] == [];
        assert Flat() == Written(Flat(), d, []);
      }
    }
  }

  /** `bytes` written over `m` at `at`. */
  function Written(m: seq<byte>, at: nat, bytes: seq<byte>): (r: seq<byte>)
    requires at + |bytes| <= |m|
    ensures |r| == |m|
  {
    m[..at] + bytes + m[at + |bytes|..]
  }

  lemma WrittenInBuffer(was: seq<byte>, now: seq<byte>, at: nat, bytes: seq<byte>, rest: seq<byte>)
    requires |was| == |now| && at + |bytes| <= |was|
    requires forall k :: 0 <= k < |bytes| ==> now[at + k] == bytes[k]
    requires forall k :: 0 <= k < |was| && !(at <= k < at + |bytes|) ==> now[k] == was[k]
    ensures now + rest == Written(was + rest, at, bytes)
  {
    assert now[at..at + |bytes|] == bytes;
    assert now[..at] == was[..at] && now[at + |bytes|..] == was[at + |bytes|..];
    var w := Written(was + rest, at, bytes);
    forall k | 0 <= k < |w| ensures w[k] == (now + rest)[k] {
      if at <= k < at + |bytes| { assert now[at + (k - at)] == bytes[k - at]; }
    }
  }

  /**
    The retry loop of memory.copy: both pointers are got again if the buffer of
    the destination moved, since the source may be the same memory. There are at
    most two passes, and in the end both pointers are into live buffers.
   */
  method GetBoth(dst: MemInst, src: MemInst, d: u32, s: u32, n: u32, oomSrc: bool, oomDst: bool)
    returns (r: Ret, srcP: Ptr, dstP: Ptr, passes: nat)
    requires dst.Valid() && src.Valid() && (dst != src ==> dst.data != src.data)
    modifies dst`data, src`data
    ensures dst.Valid() && src.Valid() && (dst != src ==> dst.data != src.data)
    ensures dst.Flat() == old(dst.Flat()) && src.Flat() == old(src.Flat())
    ensures dst.data == old(dst.data) || fresh(dst.data)
    ensures r == Trap ==> d + n > dst.sizeInPages * PAGE || s + n > src.sizeInPages * PAGE
    ensures r == Success ==> d + n <= dst.sizeInPages * PAGE && s + n <= src.sizeInPages * PAGE
    ensures r == NoMemory ==> oomSrc || oomDst
    ensures r == Success ==> srcP == Ptr(src.data, s) && dstP == Ptr(dst.data, d)
    ensures r == Success && n > 0 ==> s + n <= src.data.Length && d + n <= dst.data.Length
    ensures passes <= 2
  {
    passes := 0;
    var moved := true;
    srcP, dstP, r := Ptr(src.data, 0), Ptr(dst.data, 0), Success;
    while moved
      invariant dst.Valid() && src.Valid() && dst.Flat() == old(dst.Flat()) && src.Flat() == old(src.Flat())
      invariant dst != src ==> dst.data != src.data
      invariant dst.data == old(dst.data) || fresh(dst.data)
      invariant passes <= 2 && r == Success && (moved ==> passes <= 1)
      invariant moved && passes == 1 ==> n > 0 && d + n <= dst.data.Length && s + n <= src.data.Length
      invariant !moved ==> d + n <= dst.sizeInPages * PAGE && s + n <= src.sizeInPages * PAGE
      invariant !moved ==> srcP == Ptr(src.data, s) && dstP == Ptr(dst.data, d)
      invariant !moved && n > 0 ==> s + n <= src.data.Length && d + n <= dst.data.Length
      decreases 2 - passes
    {
      passes := passes + 1;
      var m;
      r, srcP, m := src.Getptr(s, 0, n, oomSrc);
      if r != Success { return; }
      r, dstP, moved := dst.Getptr(d, 0, n, oomDst);
      if r != Success { return; }
    }
  }

  /** memory.copy is a copy of what the source held before, also when the two overlap. */
  method Copy(dst: MemInst, src: MemInst, d: u32, s: u32, n: u32, oomSrc: bool, oomDst: bool) returns (r: Ret, passes: nat)
    requires dst.Valid() && src.Valid() && (dst != src ==> dst.data != src.data)
    modifies dst`data, src`data, dst.data
    ensures dst.Valid() && src.Valid() && (dst != src ==> dst.data != src.data)
    ensures r == Trap ==> d + n > dst.sizeInPages * PAGE || s + n > src.sizeInPages * PAGE
    ensures r == Success ==> d + n <= dst.sizeInPages * PAGE && s + n <= src.sizeInPages * PAGE
    ensures r == NoMemory ==> oomSrc || oomDst
    ensures dst.Flat() == if r == Success then Written(old(dst.Flat()), d, old(src.Flat())[s..s + n]) else old(dst.Flat())
    ensures dst != src ==> src.Flat() == old(src.Flat())
    ensures dst.data == old(dst.data) || fresh(dst.data)
    ensures passes <= 2
  {
    hide Written, Copied;
    var srcP, dstP;
    r, srcP, dstP, passes := GetBoth(dst, src, d, s, n, oomSrc, oomDst);
    if r != Success { return; }
    ghost var bytes := src.Flat()[s..s + n];
    if n > 0 {
      // both pointers are into the live buffers
      assert srcP.buf == src.data && dstP.buf == dst.data;
      ghost var was, rest := dst.data[..], Zero(dst.sizeInPages * PAGE - dst.data.Length);
      assert bytes == src.data[..][s..s + n];
      ghost var from := src.data[..];
      Move(dstP.buf, dstP.at, srcP.buf, srcP.at, n);
      CopiedIsWritten(was, d, from, s, n, bytes, rest);
    } else {
      assert bytes == [];
      WrittenNothing(dst.Flat(), d);
    }
  }

  lemma WrittenNothing(m: seq<byte>, at: nat)
    requires at <= |m|
    ensures Written(m, at, []) == m
  {
  }

  lemma CopiedIsWritten(was: seq<byte>, d: nat, from: seq<byte>, s: nat, n: nat, bytes: seq<byte>, rest: seq<byte>)
    requires d + n <= |was| && s + n <= |from| && bytes == from[s..s + n]
    ensures Copied(was, d, from, s, n) + rest == Written(was + rest, d, bytes)
  {
    var now := Copied(was, d, from, s, n);
    forall k | 0 <= k < |bytes| ensures now[d + k] == bytes[k] {
      assert now[d..d + n] == bytes;
    }
    WrittenInBuffer(was, now, d, bytes, rest);
  }

  // ---- whole runs ----

  datatype Op =
    | OpLoad(ptr: u32, offset: u32, n: u32)
    | OpStore(ptr: u32, offset: u32, bytes: seq<byte>)
    | OpGrow(sz: u32)
    | OpInit(segment: seq<byte>, dropped: bool, d: u32, s: u32, n: u32)
    | OpFill(d: u32, val: byte, n: u32)
    | OpCopy(d: u32, s: u32, n: u32)

  datatype Res = Trapped | OutOfMemory | Value(bytes: seq<byte>) | Done | Grown(size: u32)

  /** What the instruction encoding and validation give: accesses of at least a byte, sizes of 32 bits. */
  predicate OpOk(op: Op) {
    (op.OpLoad? ==> op.n > 0) && (op.OpStore? ==> 0 < |op.bytes| < W) && (op.OpInit? ==> |op.segment| < W)
  }

  function Segment(op: Op): seq<byte> requires op.OpInit? { if op.dropped then [] else op.segment }

  /** The bytes an operation touches: where, and how many. */
  predicate InBounds(m: seq<byte>, op: Op) {
    match op
    case OpLoad(ptr, offset, n) => ptr + offset + n <= |m|
    case OpStore(ptr, offset, bytes) => ptr + offset + |bytes| <= |m|
    case OpGrow(_) => true
    case OpInit(_, _, d, s, n) => s + n <= |Segment(op)| && d + n <= |m|
    case OpFill(d, _, n) => d + n <= |m|
    case OpCopy(d, s, n) => d + n <= |m| && s + n <= |m|
  }

  /** WebAssembly Core 2.0, section 4.4.7, on a flat memory whose size may reach `max` pages. */
  function Ideal(m: seq<byte>, max: nat, op: Op): (Res, seq<byte>) {
    if !InBounds(m, op) then (Trapped, m)
    else match op
      case OpLoad(ptr, offset, n) => (Value(m[ptr + offset..ptr + offset + n]), m)
      case OpStore(ptr, offset, bytes) => (Done, Written(m, ptr + offset, bytes))
      case OpGrow(sz) =>
        if |m| / PAGE + sz > max || |m| / PAGE >= W then (Grown(W - 1), m) else (Grown(|m| / PAGE), m + Zero(sz * PAGE))
      case OpInit(_, _, d, s, n) => (Done, Written(m, d, Segment(op)[s..s + n]))
      case OpFill(d, val, n) => (Done, Written(m, d, seq(n, _ => val)))
      case OpCopy(d, s, n) => (Done, Written(m, d, m[s..s + n]))
  }

  /** How an operation reports that the allocator failed. */
  function Failure(op: Op): Res { if op.OpGrow? then Grown(W - 1) else OutOfMemory }

  /** The memory after an operation that gave `r`. */
  function Follow(m: seq<byte>, max: nat, op: Op, r: Res): seq<byte> {
    if r == Ideal(m, max, op).0 then Ideal(m, max, op).1 else m
  }

  /** What the allocator would say in an operation. */
  datatype Allocator = Allocator(failsFirst: bool, failsSecond: bool)

  predicate Fails(a: Allocator) { a.failsFirst || a.failsSecond }

  /** The result of a bulk operation. */
  function Bulk(ret: Ret): Res {
    match ret case Success => Done case Trap => Trapped case NoMemory => OutOfMemory
  }

  method PerformBulk(mem: MemInst, op: Op, a: Allocator) returns (r: Res)
    requires mem.Valid() && OpOk(op) && (op.OpInit? || op.OpFill? || op.OpCopy?)
    modifies mem, mem.data
    ensures mem.Valid() && (mem.data == old(mem.data) || fresh(mem.data))
    ensures r == Ideal(old(mem.Flat()), mem.max, op).0 || (r == Failure(op) && Fails(a))
    ensures mem.Flat() == Follow(old(mem.Flat()), mem.max, op, r)
  {
    hide Written, Zero, MemInst.Flat;
    var ret, passes;
    match op {
      case OpInit(segment, dropped, d, s, n) =>
        ret := mem.Init(segment, dropped, d, s, n, a.failsFirst);
        if dropped && ret == Success {
          assert Segment(op)[s..s + n] == [];
          WrittenNothing(old(mem.Flat()), d);
        }
      case OpFill(d, val, n) => ret := mem.Fill(d, val, n, a.failsFirst);
      case OpCopy(d, s, n) => ret, passes := Copy(mem, mem, d, s, n, a.failsFirst, a.failsSecond);
    }
    r := Bulk(ret);
  }

  method Perform(mem: MemInst, op: Op, a: Allocator) returns (r: Res)
    requires mem.Valid() && OpOk(op)
    modifies mem, mem.data
    ensures mem.Valid() && (mem.data == old(mem.data) || fresh(mem.data))
    ensures r == Ideal(old(mem.Flat()), mem.max, op).0 || (r == Failure(op) && Fails(a))
    ensures mem.Flat() == Follow(old(mem.Flat()), mem.max, op, r)
  {
    hide Written, Zero, MemInst.Flat;
    match op {
      case OpGrow(sz) =>
        var size := mem.Grow(sz, a.failsFirst);
        assert old(|mem.Flat()|) / PAGE == old(mem.sizeInPages);
        r := Grown(size);
      case OpLoad(ptr, offset, n) =>
        var ret, bytes := mem.Load(ptr, offset, n, a.failsFirst);
        r := if ret == Success then Value(bytes) else Bulk(ret);
      case OpStore(ptr, offset, b) =>
        var ret := mem.Store(ptr, offset, b, a.failsFirst);
        r := Bulk(ret);
      case _ => r := PerformBulk(mem, op, a);
    }
  }

  /** The flat memory before the `k`-th operation of a run with results `rs`. */
  function Before(m: seq<byte>, max: nat, ops: seq<Op>, rs: seq<Res>, k: nat): seq<byte>
    requires k <= |ops| && k <= |rs|
    decreases k
  {
    if k == 0 then m else Follow(Before(m, max, ops, rs, k - 1), max, ops[k - 1], rs[k - 1])
  }

  lemma {:induction false} BeforePrefix(m: seq<byte>, max: nat, ops: seq<Op>, rs: seq<Res>, r: Res, k: nat)
    requires k <= |ops| && k <= |rs|
    ensures Before(m, max, ops, rs + [r], k) == Before(m, max, ops, rs, k)
    decreases k
  {
    if k > 0 {
      BeforePrefix(m, max, ops, rs, r, k - 1);
      assert (rs + [r])[k - 1] == rs[k - 1];
    }
  }

  /** The results of a run are those of the flat memory, but for reported failures of the allocator. */
  ghost predicate Refines(m: seq<byte>, max: nat, ops: seq<Op>, as_: seq<Allocator>, rs: seq<Res>)
    requires |as_| == |ops| && |rs| <= |ops|
  {
    forall k :: 0 <= k < |rs| ==>
      rs[k] == Ideal(Before(m, max, ops, rs, k), max, ops[k]).0 || (rs[k] == Failure(ops[k]) && Fails(as_[k]))
  }

  lemma RefinesMore(m: seq<byte>, max: nat, ops: seq<Op>, as_: seq<Allocator>, rs: seq<Res>, r: Res)
    requires |as_| == |ops| && |rs| < |ops| && Refines(m, max, ops, as_, rs)
    requires var k := |rs|; r == Ideal(Before(m, max, ops, rs, k), max, ops[k]).0 || (r == Failure(ops[k]) && Fails(as_[k]))
    ensures Refines(m, max, ops, as_, rs + [r])
    ensures Before(m, max, ops, rs + [r], |rs| + 1) == Follow(Before(m, max, ops, rs, |rs|), max, ops[|rs|], r)
  {
    hide Ideal, Follow, Failure, Before;
    forall k | 0 <= k <= |rs|
      ensures (rs + [r])[k] == Ideal(Before(m, max, ops, rs + [r], k), max, ops[k]).0 || ((rs + [r])[k] == Failure(ops[k]) && Fails(as_[k]))
    {
      BeforePrefix(m, max, ops, rs, r, k);
    }
    BeforePrefix(m, max, ops, rs, r, |rs|);
    BeforeNext(m, max, ops, rs + [r], |rs|);
    assert (rs + [r])[|rs|] == r;
  }

  lemma BeforeNext(m: seq<byte>, max: nat, ops: seq<Op>, rs: seq<Res>, k: nat)
    requires k < |ops| && k < |rs|
    ensures Before(m, max, ops, rs, k + 1) == Follow(Before(m, max, ops, rs, k), max, ops[k], rs[k])
  {
    hide Follow;
  }

  /** Any sequence of operations on a lazily allocated memory. */
  method Run(mem: MemInst, ops: seq<Op>, as_: seq<Allocator>) returns (rs: seq<Res>)
    requires mem.Valid() && |as_| == |ops| && forall k :: 0 <= k < |ops| ==> OpOk(ops[k])
    modifies mem, mem.data
    ensures mem.Valid() && |rs| == |ops|
    ensures Refines(old(mem.Flat()), mem.max, ops, as_, rs)
    ensures mem.Flat() == Before(old(mem.Flat()), mem.max, ops, rs, |ops|)
  {
    hide Before, Follow, Ideal, Refines, MemInst.Flat;
    rs := [];
    ghost var m := mem.Flat();
    EmptyRun(m, mem.max, ops, as_);
    var i := 0;
    while i < |ops|
      invariant mem.Valid() && i == |rs| <= |ops| && (mem.data == old(mem.data) || fresh(mem.data))
      invariant Refines(m, mem.max, ops, as_, rs) && mem.Flat() == Before(m, mem.max, ops, rs, i)
    {
      var r := Perform(mem, ops[i], as_[i]);
      RefinesMore(m, mem.max, ops, as_, rs, r);
      rs := rs + [r];
      i := i + 1;
    }
  }

  lemma EmptyRun(m: seq<byte>, max: nat, ops: seq<Op>, as_: seq<Allocator>)
    requires |as_| == |ops|
    ensures Refines(m, max, ops, as_, []) && Before(m, max, ops, [], 0) == m
  {
  }
}
