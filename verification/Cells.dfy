/**
  Where a local lives: cell indexes from 16-bit prefix-sum tables and from walks
  over the declared types (lib/cell.c, lib/module.c:161-187, 1046-1081 and
  982-1019), and locals as a typed array over the cells of a frame
  (lib/insn.c:173-213).
 */
module Cells {
  import opened Leb
  import opened Machine
  import opened Buffers

  type u16 = x: int | 0 <= x < 0x1_0000
  const U16_MAX: nat := 65535
  const U32_MAX: nat := 0xffff_ffff

  /** valtype_cellsize */
  function Csz(t: ValType): (n: nat)
    ensures 1 <= n <= 6
  {
    ValtypeCells(t).value
  }

  /** The cells of the first `i` types. */
  function Offset(ts: seq<ValType>, i: nat): nat
    requires i <= |ts|
    decreases i
  {
    if i == 0 then 0 else Offset(ts, i - 1) + Csz(ts[i - 1])
  }

  function Size(ts: seq<ValType>): nat { Offset(ts, |ts|) }

  /** A run of `n` locals of one type. */
  datatype Chunk = Chunk(n: nat, typ: ValType)

  function Repeat(n: nat, t: ValType): seq<ValType> { seq(n, _ => t) }

  /** The types that a run-length declaration stands for. */
  function Expand(cs: seq<Chunk>): seq<ValType> {
    if cs == [] then [] else Repeat(cs[0].n, cs[0].typ) + Expand(cs[1..])
  }

  // ---- offsets ----

  lemma {:induction false} OffsetMonotone(ts: seq<ValType>, i: nat, j: nat)
    requires i <= j <= |ts|
    ensures Offset(ts, i) + (j - i) <= Offset(ts, j)
    decreases j
  {
    if i < j { OffsetMonotone(ts, i, j - 1); }
  }

  lemma {:induction false} OffsetConcat(a: seq<ValType>, b: seq<ValType>, i: nat)
    requires i <= |a| + |b|
    ensures Offset(a + b, i) == if i <= |a| then Offset(a, i) else Size(a) + Offset(b, i - |a|)
    decreases i
  {
    if i > 0 {
      OffsetConcat(a, b, i - 1);
      assert i <= |a| ==> (a + b)[i - 1] == a[i - 1];
      assert i > |a| ==> (a + b)[i - 1] == b[i - 1 - |a|];
    }
  }

  lemma {:induction false} OffsetRepeat(n: nat, t: ValType, i: nat)
    requires i <= n
    ensures Offset(Repeat(n, t), i) == i * Csz(t)
    decreases i
  {
    if i > 0 {
      OffsetRepeat(n, t, i - 1);
      assert i * Csz(t) == (i - 1) * Csz(t) + Csz(t);
    }
  }

  lemma {:induction false} OffsetStep(ts: seq<ValType>, i: nat)
    requires i < |ts|
    ensures Offset(ts, i + 1) == Offset(ts, i) + Csz(ts[i]) && Offset(ts, i + 1) <= Size(ts) && Offset(ts, 0) == 0
  {
    hide Csz;
    OffsetMonotone(ts, i + 1, |ts|);
  }

  lemma OffsetZero(ts: seq<ValType>)
    ensures Offset(ts, 0) == 0
  {
  }

  /** resulttype_cellsize is the size of the whole list. */
  lemma {:induction false} SizeIsSum(ts: seq<ValType>)
    ensures CellSum(ts) == Size(ts)
    decreases ts
  {
    OffsetZero(ts);
    if ts != [] {
      assert ts == ts[..1] + ts[1..];
      SizeIsSum(ts[1..]);
      OffsetConcat(ts[..1], ts[1..], |ts|);
      OffsetZero(ts[..1]);
      OffsetStep(ts[..1], 0);
    }
  }

  /** The intervals of two locals do not meet. */
  lemma {:induction false} Disjoint(ts: seq<ValType>, i: nat, j: nat)
    requires i < j < |ts|
    ensures Offset(ts, i) + Csz(ts[i]) <= Offset(ts, j)
  {
    hide Csz;
    assert Offset(ts, i + 1) == Offset(ts, i) + Csz(ts[i]);
    OffsetMonotone(ts, i + 1, j);
  }

  /** Every cell of the frame belongs to a local. */
  lemma {:induction false} Covers(ts: seq<ValType>, k: nat) returns (i: nat)
    requires k < Size(ts)
    ensures i < |ts| && Offset(ts, i) <= k < Offset(ts, i) + Csz(ts[i])
  {
    i := 0;
    while Offset(ts, i + 1) <= k
      invariant i < |ts| && Offset(ts, i) <= k
      decreases |ts| - i
    {
      i := i + 1;
    }
  }

  /** And to one only. */
  lemma {:induction false} CoversOnce(ts: seq<ValType>, k: nat, i: nat, j: nat)
    requires i < |ts| && Offset(ts, i) <= k < Offset(ts, i) + Csz(ts[i])
    requires j < |ts| && Offset(ts, j) <= k < Offset(ts, j) + Csz(ts[j])
    ensures i == j
  {
    if i < j { Disjoint(ts, i, j); }
    if j < i { Disjoint(ts, j, i); }
  }

  // ---- the walks ----

  /** resulttype_cellidx without a table. */
  method WalkTypes(ts: seq<ValType>, idx: nat) returns (sz: nat, csz: nat)
    requires idx <= |ts| && Size(ts) <= U32_MAX
    ensures sz == Offset(ts, idx)
    ensures idx < |ts| ==> csz == Csz(ts[idx])
  {
    sz := 0;
    var i := 0;
    while i < idx
      invariant i <= idx && sz == Offset(ts, i)
    {
      var esz := Csz(ts[i]);
      OffsetMonotone(ts, i + 1, |ts|);
      assert U32_MAX - sz >= esz;
      sz := sz + esz;
      i := i + 1;
    }
    csz := if idx < |ts| then Csz(ts[idx]) else 0;
  }

  /** No chunk of the declaration is empty. */
  predicate NoEmptyChunk(cs: seq<Chunk>) { forall k :: 0 <= k < |cs| ==> cs[k].n > 0 }

  lemma ExpandHead(cs: seq<Chunk>, idx: nat)
    requires cs != [] && idx <= |Expand(cs)|
    ensures idx <= cs[0].n ==> Offset(Expand(cs), idx) == idx * Csz(cs[0].typ)
    ensures idx >= cs[0].n ==>
              Offset(Expand(cs), idx) == cs[0].n * Csz(cs[0].typ) + Offset(Expand(cs[1..]), idx - cs[0].n)
    ensures idx < cs[0].n ==> Expand(cs)[idx] == cs[0].typ
    ensures cs[0].n <= idx < |Expand(cs)| ==> Expand(cs)[idx] == Expand(cs[1..])[idx - cs[0].n]
  {
    var head := Repeat(cs[0].n, cs[0].typ);
    OffsetConcat(head, Expand(cs[1..]), idx);
    OffsetRepeat(cs[0].n, cs[0].typ, if idx <= cs[0].n then idx else cs[0].n);
    OffsetRepeat(cs[0].n, cs[0].typ, cs[0].n);
  }

  lemma {:induction false} ExpandSplit(a: seq<Chunk>, b: seq<Chunk>)
    ensures Expand(a + b) == Expand(a) + Expand(b)
    decreases a
  {
    if a == [] {
      assert a + b == b;
    } else {
      assert (a + b)[1..] == a[1..] + b;
      ExpandSplit(a[1..], b);
    }
  }

  /** After the chunks before `at`, and `inside` of that one. */
  lemma WalkAt(cs: seq<Chunk>, at: nat, inside: nat)
    requires at <= |cs| && (inside > 0 ==> at < |cs| && inside <= cs[at].n)
    ensures var i := |Expand(cs[..at])| + inside;
            && i <= |Expand(cs)|
            && Offset(Expand(cs), i) == Size(Expand(cs[..at])) + (if at < |cs| then inside * Csz(cs[at].typ) else 0)
            && (at < |cs| && inside < cs[at].n ==> i < |Expand(cs)| && Expand(cs)[i] == cs[at].typ)
    ensures at == |cs| ==> |Expand(cs[..at])| == |Expand(cs)|
  {
    hide Csz;
    ExpandSplit(cs[..at], cs[at..]);
    assert cs == cs[..at] + cs[at..];
    if at < |cs| { ExpandHead(cs[at..], inside); }
    OffsetConcat(Expand(cs[..at]), Expand(cs[at..]), |Expand(cs[..at])| + inside);
  }

  lemma NextChunk(cs: seq<Chunk>, at: nat)
    requires at < |cs|
    ensures |Expand(cs[..at + 1])| == |Expand(cs[..at])| + cs[at].n
    ensures Size(Expand(cs[..at + 1])) == Size(Expand(cs[..at])) + cs[at].n * Csz(cs[at].typ)
  {
    hide Csz;
    assert cs[..at + 1] == cs[..at] + [cs[at]];
    ExpandSplit(cs[..at], [cs[at]]);
    var r := Repeat(cs[at].n, cs[at].typ);
    assert Expand([cs[at]]) == r + [];
    assert r + [] == r;
    OffsetConcat(Expand(cs[..at]), r, |Expand(cs[..at])| + cs[at].n);
    OffsetRepeat(cs[at].n, cs[at].typ, cs[at].n);
  }

  /** localchunk_cellidx: whole chunks, then part of one. */
  method WalkChunks(cs: seq<Chunk>, localidx: nat) returns (cellidx: nat, csz: nat)
    requires NoEmptyChunk(cs) && localidx <= |Expand(cs)|
    ensures cellidx == Offset(Expand(cs), localidx)
    ensures localidx < |Expand(cs)| ==> csz == Csz(Expand(cs)[localidx])
  {
    hide Csz, Expand, Offset;
    cellidx := 0;
    var left, at: nat := localidx, 0;
    ghost var inside: nat := 0;
    assert Size(Expand(cs[..0])) == 0 && |Expand(cs[..0])| == 0 by { EmptyExpand(cs[..0]); }
    while left > 0
      invariant at <= |cs| && 0 <= left && |Expand(cs[..at])| + inside + left == localidx
      invariant inside > 0 ==> left == 0 && at < |cs| && inside < cs[at].n
      invariant cellidx == Size(Expand(cs[..at])) + (if at < |cs| then inside * Csz(cs[at].typ) else 0)
      decreases left
    {
      WalkAt(cs, at, 0);
      var c := cs[at];
      var n := if c.n > left then left else c.n;
      cellidx := cellidx + n * Csz(c.typ);
      left := left - n;
      if n == c.n {
        NextChunk(cs, at);
        at := at + 1;
      } else {
        inside := n;
      }
    }
    WalkAt(cs, at, inside);
    csz := if at < |cs| then Csz(cs[at].typ) else 0;
  }

  lemma EmptyExpand(cs: seq<Chunk>)
    requires cs == []
    ensures Expand(cs) == [] && Size(Expand(cs)) == 0
  {
  }

  // ---- the tables ----

  /** A table of 16-bit prefix sums, one entry more than there are types. */
  ghost predicate IsTable(tab: array<u16>, ts: seq<ValType>)
    reads tab
  {
    tab.Length == |ts| + 1 && forall i :: 0 <= i <= |ts| ==> tab[i] == Offset(ts, i)
  }

  /** populate_resulttype_cellidx; `oom` is whether the allocator fails. */
  method PopulateResulttype(ts: seq<ValType>, oom: bool) returns (tab: Option<array<u16>>)
    ensures tab.Some? <==> !oom && Size(ts) < 0x1_0000
    ensures tab.Some? ==> fresh(tab.value) && IsTable(tab.value, ts)
  {
    hide Csz, Offset;
    if oom { return None; }
    var idxes := new u16[|ts| + 1](_ => 0);
    var i, off := 0, 0;
    OffsetZero(ts);
    while i < |ts|
      invariant i <= |ts| && off == Offset(ts, i) <= U16_MAX
      invariant forall k :: 0 <= k <= i ==> idxes[k] == Offset(ts, k)
    {
      var csz := Csz(ts[i]);
      OffsetStep(ts, i);
      if U16_MAX - off < csz { return None; }
      off := off + csz;
      idxes[i + 1] := off;
      i := i + 1;
    }
    return Some(idxes);
  }

  /** The type of the local that the cursor of populate_localtype_cellidx is at. */
  lemma CursorAt(cs: seq<Chunk>, i: nat, at: nat, n: nat)
    requires at < |cs| && 0 < n <= cs[at].n && i + n == |Expand(cs[..at + 1])|
    ensures i < |Expand(cs)| && Expand(cs)[i] == cs[at].typ
  {
    hide Offset, Csz, Expand;
    NextChunk(cs, at);
    WalkAt(cs, at, cs[at].n - n);
  }

  lemma CursorNext(cs: seq<Chunk>, i: nat, at: nat)
    requires at <= |cs| && i == |Expand(cs[..at])| && i < |Expand(cs)|
    ensures at < |cs| && |Expand(cs[..at + 1])| == i + cs[at].n
  {
    hide Offset, Csz, Expand;
    WalkAt(cs, at, 0);
    if at < |cs| { NextChunk(cs, at); }
  }

  /** populate_localtype_cellidx: a cursor over the chunks, one local at a time. */
  method PopulateLocaltype(cs: seq<Chunk>, oom: bool) returns (tab: Option<array<u16>>)
    requires NoEmptyChunk(cs)
    ensures tab.Some? <==> !oom && Size(Expand(cs)) < 0x1_0000
    ensures tab.Some? ==> fresh(tab.value) && IsTable(tab.value, Expand(cs))
  {
    hide Expand, Csz, Offset;
    if oom { return None; }
    ghost var ts := Expand(cs);
    OffsetZero(ts);
    var nlocals := CountLocals(cs);
    var idxes := new u16[nlocals + 1](_ => 0);
    var i: nat, off: nat, chunk: nat, csz: nat, n: nat := 0, 0, 0, 0, 0;
    EmptyExpand(cs[..0]);
    while i < nlocals
      invariant i <= nlocals && chunk <= |cs| && off == Offset(ts, i) <= U16_MAX
      invariant i + n == |Expand(cs[..chunk])|
      invariant n > 0 ==> chunk > 0 && n <= cs[chunk - 1].n && csz == Csz(cs[chunk - 1].typ)
      invariant forall k :: 0 <= k <= i ==> idxes[k] == Offset(ts, k)
    {
      if n == 0 {
        CursorNext(cs, i, chunk);
        csz := Csz(cs[chunk].typ);
        n := cs[chunk].n;
        chunk := chunk + 1;
      }
      CursorAt(cs, i, chunk - 1, n);
      OffsetStep(ts, i);
      if U16_MAX - off < csz { return None; }
      off := off + csz;
      idxes[i + 1] := off;
      n := n - 1;
      i := i + 1;
    }
    return Some(idxes);
  }

  /** read_locals adds up the counts. */
  method CountLocals(cs: seq<Chunk>) returns (n: nat)
    ensures n == |Expand(cs)|
  {
    n := 0;
    var i := 0;
    EmptyExpand(cs[..0]);
    while i < |cs|
      invariant i <= |cs| && n == |Expand(cs[..i])|
    {
      NextChunk(cs, i);
      n := n + cs[i].n;
      i := i + 1;
    }
    assert cs[..|cs|] == cs;
  }

  // ---- a frame's locals ----

  class FrameLocals {
    const params: seq<ValType>
    const chunks: seq<Chunk>
    const paramTable: Option<array<u16>>
    const localTable: Option<array<u16>>
    const cells: array<cell>

    /** The types of all locals, parameters first. */
    function Types(): seq<ValType> { params + Expand(chunks) }

    ghost function Tables(): set<object> {
      (if paramTable.Some? then {paramTable.value} else {}) + (if localTable.Some? then {localTable.value} else {})
    }

    ghost predicate Valid()
      reads this, Tables()
    {
      && NoEmptyChunk(chunks) && cells.Length == Size(Types()) && Size(Types()) <= U32_MAX
      && (paramTable.Some? ==> IsTable(paramTable.value, params))
      && (localTable.Some? ==> IsTable(localTable.value, Expand(chunks)))
      && (cells as object) !in Tables()
    }

    constructor (params: seq<ValType>, chunks: seq<Chunk>, paramTable: Option<array<u16>>, localTable: Option<array<u16>>,
                 cells: array<cell>)
      requires NoEmptyChunk(chunks) && cells.Length == Size(params + Expand(chunks)) <= U32_MAX
      requires paramTable.Some? ==> IsTable(paramTable.value, params) && (cells as object) != paramTable.value
      requires localTable.Some? ==> IsTable(localTable.value, Expand(chunks)) && (cells as object) != localTable.value
      ensures Valid() && this.params == params && this.chunks == chunks && this.cells == cells
    {
      this.params, this.chunks, this.paramTable, this.localTable, this.cells := params, chunks, paramTable, localTable, cells;
    }

    /** The cells of local `i`. */
    ghost function Local(i: nat): seq<cell>
      requires Valid() && i < |Types()|
      reads this, Tables(), cells
    {
      OffsetMonotone(Types(), i + 1, |Types()|);
      cells[Offset(Types(), i)..Offset(Types(), i + 1)]
    }

    /** frame_locals_cellidx_fast: both tables are there. */
    method CellidxFast(localidx: nat) returns (cidx: nat, csz: nat)
      requires Valid() && localidx < |Types()| && paramTable.Some? && localTable.Some?
      ensures cidx == Offset(Types(), localidx) && csz == Csz(Types()[localidx])
    {
      OffsetConcat(params, Expand(chunks), localidx);
      OffsetConcat(params, Expand(chunks), localidx + 1);
      var nparams := |params|;
      if localidx < nparams {
        cidx, csz := CellidxLookup(paramTable.value, params, localidx);
      } else {
        var c;
        c, csz := CellidxLookup(localTable.value, Expand(chunks), localidx - nparams);
        var paramcsz := paramTable.value[nparams];
        cidx := paramcsz + c;
      }
    }

    /** frame_locals_cellidx_slow: each part from its table if it has one. */
    method CellidxSlow(localidx: nat) returns (cidx: nat, csz: nat)
      requires Valid() && localidx < |Types()|
      ensures cidx == Offset(Types(), localidx) && csz == Csz(Types()[localidx])
    {
      OffsetConcat(params, Expand(chunks), localidx);
      OffsetConcat(params, Expand(chunks), |params|);
      OffsetMonotone(Types(), |params|, |Types()|);
      var nparams := |params|;
      if localidx < nparams {
        if paramTable.Some? { cidx, csz := CellidxLookup(paramTable.value, params, localidx); }
        else { cidx, csz := WalkTypes(params, localidx); }
      } else {
        var psz, c, unused;
        if paramTable.Some? { psz := paramTable.value[nparams]; } else { psz, unused := WalkTypes(params, nparams); }
        if localTable.Some? { c, csz := CellidxLookup(localTable.value, Expand(chunks), localidx - nparams); }
        else { c, csz := WalkChunks(chunks, localidx - nparams); }
        cidx := psz + c;
      }
    }

    /** frame_locals_cellidx */
    method Cellidx(localidx: nat) returns (cidx: nat, csz: nat)
      requires Valid() && localidx < |Types()|
      ensures cidx == Offset(Types(), localidx) && csz == Csz(Types()[localidx])
    {
      if paramTable.Some? && localTable.Some? {
        cidx, csz := CellidxFast(localidx);
      } else {
        cidx, csz := CellidxSlow(localidx);
      }
    }

    /** local_get */
    method Get(localidx: nat) returns (v: seq<cell>)
      requires Valid() && localidx < |Types()|
      ensures v == Local(localidx)
    {
      var cidx, csz := Cellidx(localidx);
      OffsetMonotone(Types(), localidx + 1, |Types()|);
      v := cells[cidx..cidx + csz];
    }

    /** local_set: that local, and no other. */
    method Set(localidx: nat, v: seq<cell>)
      requires Valid() && localidx < |Types()| && |v| == Csz(Types()[localidx])
      modifies cells
      ensures Valid() && Local(localidx) == v
      ensures forall j :: 0 <= j < |Types()| && j != localidx ==> Local(j) == old(Local(j))
    {
      hide Csz, Offset, Expand;
      var cidx, csz := Cellidx(localidx);
      ghost var ts := Types();
      OffsetStep(ts, localidx);
      ghost var was := cells[..];
      CopyInto(cells, cidx, v);
      assert cells[..][cidx..cidx + csz] == v;
      assert Local(localidx) == v;
      forall j | 0 <= j < |ts| && j != localidx ensures Local(j) == old(Local(j)) {
        OffsetStep(ts, j);
        if j < localidx { Disjoint(ts, j, localidx); } else { Disjoint(ts, localidx, j); }
        SameSlice(was, cells[..], Offset(ts, j), Offset(ts, j + 1));
      }
    }
  }

  lemma SameSlice(a: seq<cell>, b: seq<cell>, i: nat, j: nat)
    requires i <= j <= |a| == |b| && forall k :: i <= k < j ==> a[k] == b[k]
    ensures a[i..j] == b[i..j]
  {
  }

  /** cellidx_lookup: two neighbouring entries. */
  method CellidxLookup(tab: array<u16>, ts: seq<ValType>, idx: nat) returns (cidx: nat, csz: nat)
    requires IsTable(tab, ts) && idx < |ts|
    ensures cidx == Offset(ts, idx) && csz == Csz(ts[idx])
  {
    cidx := tab[idx];
    csz := tab[idx + 1] - tab[idx];
  }

  // ---- values and cells ----

  /** A value of each type, as the cells that it takes. */
  predicate Typed(vals: seq<seq<cell>>, ts: seq<ValType>) {
    |vals| == |ts| && forall i :: 0 <= i < |ts| ==> |vals[i]| == Csz(ts[i])
  }

  function Pack(vals: seq<seq<cell>>): seq<cell> {
    if vals == [] then [] else Pack(vals[..|vals| - 1]) + vals[|vals| - 1]
  }

  function Unpack(cells: seq<cell>, ts: seq<ValType>): seq<seq<cell>>
    requires |cells| == Size(ts)
  {
    seq(|ts|, i requires 0 <= i < |ts| => OffsetStep(ts, i); cells[Offset(ts, i)..Offset(ts, i + 1)])
  }

  lemma OffsetPrefix(ts: seq<ValType>, n: nat, i: nat)
    requires i <= n <= |ts|
    ensures Offset(ts[..n], i) == Offset(ts, i)
    decreases i
  {
  }

  lemma {:induction false} PackAt(vals: seq<seq<cell>>, ts: seq<ValType>, i: nat)
    requires Typed(vals, ts) && i < |ts|
    ensures |Pack(vals)| == Size(ts) && Offset(ts, i) <= Offset(ts, i + 1) <= Size(ts)
    ensures Pack(vals)[Offset(ts, i)..Offset(ts, i + 1)] == vals[i]
    decreases |vals|
  {
    hide Csz;
    var n := |vals| - 1;
    OffsetStep(ts, i);
    OffsetStep(ts, n);
    OffsetPrefix(ts, n, n);
    PackSize(vals[..n], ts[..n]);
    if i < n {
      PackAt(vals[..n], ts[..n], i);
      OffsetPrefix(ts, n, i);
      OffsetPrefix(ts, n, i + 1);
      OffsetMonotone(ts, i + 1, n);
    }
  }

  lemma {:induction false} PackSize(vals: seq<seq<cell>>, ts: seq<ValType>)
    requires Typed(vals, ts)
    ensures |Pack(vals)| == Size(ts)
    decreases |vals|
  {
    hide Csz;
    if vals != [] {
      var n := |vals| - 1;
      OffsetStep(ts, n);
      OffsetPrefix(ts, n, n);
      PackSize(vals[..n], ts[..n]);
    }
  }

  /** Reading back the values that were laid out gives them again. */
  lemma UnpackPack(vals: seq<seq<cell>>, ts: seq<ValType>)
    requires Typed(vals, ts)
    ensures |Pack(vals)| == Size(ts) && Unpack(Pack(vals), ts) == vals
  {
    PackSize(vals, ts);
    forall i | 0 <= i < |ts| ensures Unpack(Pack(vals), ts)[i] == vals[i] { PackAt(vals, ts, i); }
  }

  lemma UnpackTyped(cells: seq<cell>, ts: seq<ValType>)
    requires |cells| == Size(ts)
    ensures Typed(Unpack(cells, ts), ts)
  {
    hide Csz, Offset;
    forall i | 0 <= i < |ts| ensures |Unpack(cells, ts)[i]| == Csz(ts[i]) { OffsetStep(ts, i); }
  }

  lemma UnpackLength(cells: seq<cell>, ts: seq<ValType>)
    requires |cells| == Size(ts)
    ensures |Unpack(cells, ts)| == |ts|
  {
  }

  lemma UnpackPrefix(cells: seq<cell>, ts: seq<ValType>, n: nat)
    requires |cells| == Size(ts) && n < |ts|
    ensures Offset(ts, n) <= Offset(ts, n + 1) <= |cells| && Offset(ts[..n], n) == Offset(ts, n)
    ensures Unpack(cells, ts)[..n] == Unpack(cells[..Offset(ts, n)], ts[..n])
    ensures Unpack(cells, ts)[n] == cells[Offset(ts, n)..Offset(ts, n + 1)]
  {
    hide Csz, Offset;
    OffsetStep(ts, n);
    OffsetPrefix(ts, n, n);
    var head := cells[..Offset(ts, n)];
    forall i | 0 <= i < n ensures Unpack(head, ts[..n])[i] == Unpack(cells, ts)[i] {
      OffsetPrefix(ts, n, i);
      OffsetPrefix(ts, n, i + 1);
      OffsetStep(ts, i);
      OffsetMonotone(ts, i + 1, n);
    }
  }

  /** And the other way. */
  lemma {:induction false} PackUnpack(cells: seq<cell>, ts: seq<ValType>)
    requires |cells| == Size(ts)
    ensures Typed(Unpack(cells, ts), ts) && Pack(Unpack(cells, ts)) == cells
    decreases |ts|
  {
    hide Csz, Offset, Unpack;
    UnpackTyped(cells, ts);
    if ts == [] {
      OffsetZero(ts);
    } else {
      var n := |ts| - 1;
      UnpackPrefix(cells, ts, n);
      PackUnpack(cells[..Offset(ts, n)], ts[..n]);
      OffsetStep(ts, n);
      assert cells == cells[..Offset(ts, n)] + cells[Offset(ts, n)..Offset(ts, n + 1)];
    }
  }

  /** vals_to_cells, to the cells of `dst` from `at` on. */
  method ValsToCells(vals: seq<seq<cell>>, dst: array<cell>, at: nat, ts: seq<ValType>)
    requires Typed(vals, ts) && at + Size(ts) <= dst.Length
    modifies dst
    ensures dst[at..at + Size(ts)] == Pack(vals)
    ensures dst[..at] == old(dst[..at]) && dst[at + Size(ts)..] == old(dst[at + Size(ts)..])
  {
    hide Csz, Offset;
    ghost var was := dst[..];
    var q, i := at, 0;
    OffsetZero(ts);
    assert Pack(vals[..0]) == [];
    while i < |ts|
      invariant i <= |ts| && q == at + Offset(ts, i) && Offset(ts, i) <= Size(ts)
      invariant dst[at..q] == Pack(vals[..i])
      invariant Outside(was, dst[..], at, q)
    {
      OffsetStep(ts, i);
      ghost var before := dst[..];
      CopyInto(dst, q, vals[i]);
      assert vals[..i + 1][..i] == vals[..i];
      NextPacked(was, before, dst[..], at, q, vals[i]);
      q := q + Csz(ts[i]);
      i := i + 1;
    }
    assert vals[..|ts|] == vals;
  }

  /** `b` is `a` but for the cells from `at` to `q`. */
  ghost predicate Outside(a: seq<cell>, b: seq<cell>, at: nat, q: nat) {
    at <= q <= |a| && |a| == |b| && b[..at] == a[..at] && b[q..] == a[q..]
  }

  lemma NextPacked(was: seq<cell>, before: seq<cell>, now: seq<cell>, at: nat, q: nat, v: seq<cell>)
    requires Outside(was, before, at, q) && q + |v| <= |was| && now == Buffers.Copied(before, q, v, 0, |v|)
    ensures Outside(was, now, at, q + |v|) && now[at..q + |v|] == before[at..q] + v
  {
    assert before[q + |v|..] == before[q..][|v|..] == was[q..][|v|..] == was[q + |v|..];
    assert now[..at] == before[..at];
  }

  lemma PartOf(src: array<cell>, at: nat, n: nat, lo: nat, hi: nat)
    requires at + n <= src.Length && lo <= hi <= n
    ensures src[at..at + n][lo..hi] == src[at + lo..at + hi]
  {
    var got, want := src[at..at + n][lo..hi], src[at + lo..at + hi];
    forall k | 0 <= k < hi - lo ensures got[k] == want[k] {
      assert src[at..at + n][lo + k] == src[at + (lo + k)];
    }
  }

  /** vals_from_cells, from the cells of `src` from `at` on. */
  method ValsFromCells(src: array<cell>, at: nat, ts: seq<ValType>) returns (vals: seq<seq<cell>>)
    requires at + Size(ts) <= src.Length
    ensures vals == Unpack(src[at..at + Size(ts)], ts)
  {
    hide Csz, Offset, Unpack;
    ghost var all := Unpack(src[at..at + Size(ts)], ts);
    UnpackLength(src[at..at + Size(ts)], ts);
    vals := [];
    var q, i := at, 0;
    OffsetZero(ts);
    while i < |ts|
      invariant i <= |ts| && q == at + Offset(ts, i) && Offset(ts, i) <= Size(ts) && vals == all[..i]
    {
      OffsetStep(ts, i);
      UnpackPrefix(src[at..at + Size(ts)], ts, i);
      PartOf(src, at, Size(ts), Offset(ts, i), Offset(ts, i + 1));
      vals := vals + [src[q..q + Csz(ts[i])]];
      q := q + Csz(ts[i]);
      i := i + 1;
    }
  }
}
