/**
  Tables (lib/exec_insn_subr.c:222-292, 345-388; lib/insn_impl_fc.h:163-216,
  261-296): arrays of references that take several cells each look like
  sequences of elements. The number of cells is below 2^32, so that an index
  times the size of an element does not wrap.
 */
module Tables {
  import opened Leb
  import opened Machine
  import opened Buffers

  type u32 = x: int | 0 <= x < 0x1_0000_0000
  const W: nat := 0x1_0000_0000

  datatype Ret = Success | Trap

  /** The cells of `n` elements. */
  function Times(n: nat, c: nat): nat { n * c }

  lemma Scale(a: nat, b: nat, c: nat)
    requires a <= b
    ensures Times(a, c) <= Times(b, c) && Times(b, c) == Times(a, c) + Times(b - a, c)
    ensures Times(1, c) == c && Times(0, c) == 0 && Times(a + 1, c) == Times(a, c) + c
    ensures a < b ==> Times(a, c) + c <= Times(b, c)
  {
    Distribute(a, b - a, c);
    Distribute(a, 1, c);
    assert 1 * c == c && 0 * c == 0;
    if a < b { Distribute(1, b - a - 1, c); }
  }

  lemma Distribute(a: nat, b: nat, c: nat)
    ensures Times(a + b, c) == Times(a, c) + Times(b, c)
  {
  }

  /** `n` references to the same. */
  function Repeat(v: seq<cell>, n: nat): (r: seq<seq<cell>>)
    ensures |r| == n
  {
    seq(n, _ => v)
  }

  /** Element `i` of `c` cells. */
  function Element(cells: seq<cell>, c: nat, i: nat, n: nat): (e: seq<cell>)
    requires |cells| == Times(n, c) && i < n
    ensures |e| == c
  {
    Scale(i, n, c);
    cells[Times(i, c)..Times(i, c) + c]
  }

  function Elements(cells: seq<cell>, c: nat, n: nat): (e: seq<seq<cell>>)
    requires |cells| == Times(n, c)
    ensures |e| == n
  {
    seq(n, i requires 0 <= i < n => Element(cells, c, i, n))
  }

  /** Moving cells of whole elements moves the elements. */
  lemma MovedElements(a: seq<cell>, na: nat, b: seq<cell>, nb: nat, c: nat, d: nat, s: nat, n: nat)
    requires |a| == Times(na, c) && |b| == Times(nb, c) && d + n <= na && s + n <= nb
    ensures Times(d, c) + Times(n, c) <= |a| && Times(s, c) + Times(n, c) <= |b|
    ensures Elements(Copied(a, Times(d, c), b, Times(s, c), Times(n, c)), c, na) == Copied(Elements(a, c, na), d, Elements(b, c, nb), s, n)
  {
    hide Times, Element;
    Scale(d + n, na, c);
    Scale(s + n, nb, c);
    Scale(d, d + n, c);
    Scale(s, s + n, c);
    var r := Copied(a, Times(d, c), b, Times(s, c), Times(n, c));
    var m := Copied(Elements(a, c, na), d, Elements(b, c, nb), s, n);
    forall i | 0 <= i < na ensures Element(r, c, i, na) == m[i] {
      OneElement(a, na, b, nb, c, d, s, n, i);
    }
  }

  lemma Within(a: seq<cell>, d: nat, b: seq<cell>, s: nat, n: nat, x: nat, c: nat)
    requires d + n <= |a| && s + n <= |b| && x + c <= n
    ensures Copied(a, d, b, s, n)[d + x..d + x + c] == b[s + x..s + x + c]
  {
    var r := Copied(a, d, b, s, n);
    var got, want := r[d + x..d + x + c], b[s + x..s + x + c];
    forall k | 0 <= k < c ensures got[k] == want[k] {
      assert r[d + x + k] == b[s..s + n][x + k];
    }
  }

  lemma Around(a: seq<cell>, d: nat, b: seq<cell>, s: nat, n: nat, x: nat, c: nat)
    requires d + n <= |a| && s + n <= |b| && x + c <= |a| && (x + c <= d || d + n <= x)
    ensures Copied(a, d, b, s, n)[x..x + c] == a[x..x + c]
  {
    var r := Copied(a, d, b, s, n);
    var got, want := r[x..x + c], a[x..x + c];
    forall k | 0 <= k < c ensures got[k] == want[k] {
      if d + n <= x { assert r[x + k] == a[d + n..][x + k - d - n]; }
    }
  }

  lemma OneElement(a: seq<cell>, na: nat, b: seq<cell>, nb: nat, c: nat, d: nat, s: nat, n: nat, i: nat)
    requires |a| == Times(na, c) && |b| == Times(nb, c) && d + n <= na && s + n <= nb && i < na
    requires Times(d, c) + Times(n, c) <= |a| && Times(s, c) + Times(n, c) <= |b|
    ensures Element(Copied(a, Times(d, c), b, Times(s, c), Times(n, c)), c, i, na) ==
            if d <= i < d + n then Element(b, c, s + (i - d), nb) else Element(a, c, i, na)
  {
    hide Times, Copied;
    var dc, sc, nc := Times(d, c), Times(s, c), Times(n, c);
    var r := Copied(a, dc, b, sc, nc);
    Scale(i, na, c);
    if i < d {
      Scale(i, d, c);
      Around(a, dc, b, sc, nc, Times(i, c), c);
    } else if i < d + n {
      var j := i - d;
      Scale(d, i, c);
      Scale(s, s + j, c);
      Scale(s + j, nb, c);
      Scale(j, n, c);
      var jc := Times(j, c);
      Within(a, dc, b, sc, nc, jc, c);
    } else {
      Scale(d, d + n, c);
      Scale(d + n, i, c);
      Around(a, dc, b, sc, nc, Times(i, c), c);
    }
  }

  lemma CopiedNothing<T>(was: seq<T>, d: nat, from: seq<T>, s: nat)
    requires d <= |was| && s <= |from|
    ensures Copied(was, d, from, s, 0) == was
  {
  }

  lemma CopiedMore<T>(was: seq<T>, d: nat, from: seq<T>, s: nat, i: nat)
    requires d + i < |was| && s + i < |from|
    ensures |Copied(was, d, from, s, i)| == |was| && Copied(was, d, from, s, i)[d + i := from[s + i]] == Copied(was, d, from, s, i + 1)
  {
  }

  class TableInst {
    var cells: array<cell>
    var size: nat
    const csz: nat
    const max: nat

    ghost predicate Valid()
      reads this
    {
      csz >= 2 && size <= max < W && cells.Length == Times(size, csz) < W
    }

    ghost function Elems(): (e: seq<seq<cell>>)
      requires Valid()
      reads this, cells
      ensures |e| == size
    {
      Elements(cells[..], csz, size)
    }

    /** table_instance_create: null references. */
    constructor (min: nat, max: nat, csz: nat)
      requires csz >= 2 && min <= max < W && Times(min, csz) < W
      ensures Valid() && fresh(cells) && this.csz == csz && this.max == max && size == min
      ensures forall i :: 0 <= i < size ==> Elems()[i] == Zeros(csz)
    {
      hide Times;
      cells := new cell[Times(min, csz)](_ => 0);
      size, this.csz, this.max := min, csz, max;
      new;
      forall i | 0 <= i < size ensures Elems()[i] == Zeros(csz) { Scale(i, size, csz); }
    }

    /** table_access */
    method Access(offset: u32, n: u32) returns (r: Ret)
      requires Valid()
      ensures r == Success <==> offset + n <= size
    {
      if offset > size || n > size - offset { return Trap; }
      return Success;
    }

    /** table_get and table_set (val_from_cells, val_to_cells) */
    method Get(i: nat) returns (v: seq<cell>)
      requires Valid() && i < size
      ensures v == Elems()[i]
    {
      hide Times;
      Scale(i, size, csz);
      v := cells[Times(i, csz)..Times(i, csz) + csz];
    }

    method Set(i: nat, v: seq<cell>)
      requires Valid() && i < size && |v| == csz
      modifies cells
      ensures Valid() && Elems() == old(Elems())[i := v]
    {
      hide Times, Elements;
      Scale(i, size, csz);
      SetElement(cells[..], size, v, csz, i);
      CopyInto(cells, Times(i, csz), v);
    }

    /** The loop of table_fill and table_grow over `[start, end)`. */
    method SetRange(start: nat, end: nat, v: seq<cell>)
      requires Valid() && start <= end <= size && |v| == csz
      modifies cells
      ensures Valid() && Elems() == old(Elems())[..start] + Repeat(v, end - start) + old(Elems())[end..]
    {
      hide Times, Elements;
      var i := start;
      ghost var was := Elems();
      while i < end
        invariant start <= i <= end && Valid()
        invariant Elems() == was[..start] + Repeat(v, i - start) + was[i..]
      {
        Set(i, v);
        i := i + 1;
      }
    }

    /** table_fill */
    method Fill(start: u32, v: seq<cell>, n: u32) returns (r: Ret)
      requires Valid() && |v| == csz
      modifies cells
      ensures Valid() && (r == Success <==> start + n <= size)
      ensures Elems() == if r == Success then old(Elems())[..start] + Repeat(v, n) + old(Elems())[start + n..] else old(Elems())
    {
      r := Access(start, n);
      if r == Success { SetRange(start, start + n, v); }
    }

    /** table_init from a segment of references; a dropped one has none. */
    method Init(segment: seq<seq<cell>>, dropped: bool, d: u32, s: u32, n: u32) returns (r: Ret)
      requires Valid() && |segment| < W && forall k :: 0 <= k < |segment| ==> |segment[k]| == csz
      modifies cells
      ensures Valid() && (r == Success <==> s + n <= (if dropped then 0 else |segment|) && d + n <= size)
      ensures Elems() == if r == Success && !dropped then Copied(old(Elems()), d, segment, s, n) else old(Elems())
    {
      if (dropped && !(s == 0 && n == 0)) || s > |segment| || n > |segment| - s { return Trap; }
      hide Times, Elements, Copied;
      r := Access(d, n);
      if r != Success { return; }
      ghost var was := Elems();
      CopiedNothing(was, d, segment, s);
      var i := 0;
      while i < n
        invariant i <= n && Valid()
        invariant Elems() == Copied(was, d, segment, s, i)
      {
        CopiedMore(was, d, segment, s, i);
        Set(d + i, segment[s + i]);
        i := i + 1;
      }
    }

    /** table_grow: the old size, or -1 as 2^32 - 1. */
    method Grow(v: seq<cell>, n: u32, oom: bool) returns (r: u32)
      requires Valid() && |v| == csz && (size + n <= max ==> Times(size + n, csz) < W)
      modifies this`cells, this`size
      ensures Valid() && (cells == old(cells) || fresh(cells))
      ensures r == W - 1 <==> n > 0 && (old(size) + n > max || oom)
      ensures r == W - 1 ==> Elems() == old(Elems())
      ensures r != W - 1 ==> r == old(size) && Elems() == old(Elems()) + Repeat(v, n)
    {
      hide Times, Elements, Copied;
      if n == 0 {
        assert Elems() + Repeat(v, 0) == Elems();
        Small(size, csz);
        return size;
      }
      if size + n >= W || size + n > max || oom { return W - 1; }
      var newsize, oldsize := size + n, size;
      ghost var was := Elems();
      Extend(newsize);
      SetRange(oldsize, newsize, v);
      assert was + Repeat(v, n) == Elems()[..oldsize] + Elems()[oldsize..];
      assert oldsize < W - 1;
      return oldsize;
    }

    /** mem_extend: more cells after the old ones. */
    method Extend(newsize: nat)
      requires Valid() && size <= newsize <= max && Times(newsize, csz) < W
      modifies this`cells, this`size
      ensures Valid() && fresh(cells) && size == newsize && Elems()[..old(size)] == old(Elems())
    {
      hide Times, Elements;
      Scale(size, newsize, csz);
      var np := new cell[Times(newsize, csz)](_ => 0);
      ghost var before := cells[..];
      Move(np, 0, cells, 0, Times(size, csz));
      assert np[..Times(size, csz)] == before;
      Extended(before, np[..], csz, size, newsize);
      cells, size := np, newsize;
    }
  }

  /** References take at least two cells. */
  lemma Small(n: nat, c: nat)
    requires c >= 2 && Times(n, c) < W
    ensures n < W - 1
  {
    assert n * c >= n * 2;
  }

  lemma SetElement(was: seq<cell>, n: nat, v: seq<cell>, c: nat, i: nat)
    requires |was| == Times(n, c) && |v| == c && i < n
    ensures Times(i, c) + c <= Times(n, c)
    ensures Elements(Copied(was, Times(i, c), v, 0, c), c, n) == Elements(was, c, n)[i := v]
  {
    hide Times;
    Scale(i, n, c);
    Scale(0, 1, c);
    MovedElements(was, n, v, 1, c, i, 0, 1);
    assert v[0..c] == v;
    assert Elements(v, c, 1)[0] == v;
  }

  lemma Extended(a: seq<cell>, b: seq<cell>, c: nat, n: nat, m: nat)
    requires n <= m && |a| == Times(n, c) <= |b| == Times(m, c) && b[..Times(n, c)] == a
    ensures Elements(b, c, m)[..n] == Elements(a, c, n)
  {
    hide Times;
    forall i | 0 <= i < n ensures Element(b, c, i, m) == Element(a, c, i, n) {
      Scale(i, n, c);
      Scale(i, m, c);
      PrefixSlice(b, Times(n, c), Times(i, c), Times(i, c) + c);
    }
  }

  lemma PrefixSlice(b: seq<cell>, n: nat, lo: nat, hi: nat)
    requires lo <= hi <= n <= |b|
    ensures b[lo..hi] == b[..n][lo..hi]
  {
    var got, want := b[..n][lo..hi], b[lo..hi];
    forall k | 0 <= k < hi - lo ensures got[k] == want[k] {
      assert b[..n][lo + k] == b[lo + k];
    }
  }

  /** table_copy: what the source held before, also when it is the same table. */
  method Copy(dst: TableInst, src: TableInst, d: u32, s: u32, n: u32) returns (r: Ret)
    requires dst.Valid() && src.Valid() && dst.csz == src.csz && (dst != src ==> dst.cells != src.cells)
    modifies dst.cells
    ensures dst.Valid() && (r == Success <==> d + n <= dst.size && s + n <= src.size)
    ensures dst.Elems() == if r == Success then Copied(old(dst.Elems()), d, old(src.Elems()), s, n) else old(dst.Elems())
    ensures dst != src ==> src.Elems() == old(src.Elems())
  {
    r := dst.Access(d, n);
    if r != Success { return; }
    r := src.Access(s, n);
    if r != Success { return; }
    hide Times, Elements, Copied;
    var c := src.csz;
    MovedElements(dst.cells[..], dst.size, src.cells[..], src.size, c, d, s, n);
    Move(dst.cells, Times(d, c), src.cells, Times(s, c), Times(n, c));
  }
}
