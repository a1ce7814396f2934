/**
  Copies between buffers that may overlap (memmove, and cells_move, which is its
  code), and the two places where the interpreter moves cells within the operand
  stack: rewinding it, and landing an exception on it.
 */
module Buffers {
  import opened Machine

  /** `n` elements of `b` from `s` on, written over `a` from `d` on. */
  function Copied<T>(a: seq<T>, d: nat, b: seq<T>, s: nat, n: nat): (r: seq<T>)
    requires d + n <= |a| && s + n <= |b|
    ensures |r| == |a|
  {
    a[..d] + b[s..s + n] + a[d + n..]
  }

  lemma CopiedAt<T>(a: seq<T>, d: nat, b: seq<T>, s: nat, n: nat, r: seq<T>)
    requires d + n <= |a| && s + n <= |b| && |r| == |a|
    requires forall k :: 0 <= k < d || d + n <= k < |a| ==> r[k] == a[k]
    requires forall k :: d <= k < d + n ==> r[k] == b[s + (k - d)]
    ensures r == Copied(a, d, b, s, n)
  {
  }

  /** cells_move (lib/cell.c:313-331): from the end that the copy does not overwrite first. */
  method Move<T>(dst: array<T>, d: nat, src: array<T>, s: nat, n: nat)
    requires d + n <= dst.Length && s + n <= src.Length
    modifies dst
    ensures dst[..] == Copied(old(dst[..]), d, old(src[..]), s, n)
  {
    if d <= s {
      var i: nat := 0;
      while i < n
        invariant i <= n
        invariant forall k :: d <= k < d + i ==> dst[k] == old(src[s + (k - d)])
        invariant forall k :: 0 <= k < dst.Length && !(d <= k < d + i) ==> dst[k] == old(dst[k])
        invariant dst != src ==> forall k :: 0 <= k < src.Length ==> src[k] == old(src[k])
      {
        dst[d + i] := src[s + i];
        i := i + 1;
      }
    } else {
      var i: nat := n;
      while i > 0
        invariant i <= n
        invariant forall k :: d + i <= k < d + n ==> dst[k] == old(src[s + (k - d)])
        invariant forall k :: 0 <= k < dst.Length && !(d + i <= k < d + n) ==> dst[k] == old(dst[k])
        invariant dst != src ==> forall k :: 0 <= k < src.Length ==> src[k] == old(src[k])
      {
        i := i - 1;
        dst[d + i] := src[s + i];
      }
    }
    CopiedAt(old(dst[..]), d, old(src[..]), s, n, dst[..]);
  }

  // ---- the operand stack ----

  /** cells_copy and the like: a value goes into a buffer. */
  method CopyInto<T>(dst: array<T>, at: nat, v: seq<T>)
    requires at + |v| <= dst.Length
    modifies dst
    ensures dst[..] == Copied(old(dst[..]), at, v, 0, |v|)
  {
    ghost var was := dst[..];
    var i := 0;
    while i < |v|
      invariant i <= |v|
      invariant forall k :: 0 <= k < i ==> dst[at + k] == v[k]
      invariant forall k :: 0 <= k < dst.Length && !(at <= k < at + i) ==> dst[k] == was[k]
    {
      dst[at + i] := v[i];
      i := i + 1;
    }
    CopiedAt(was, at, v, 0, |v|, dst[..]);
  }

  /** rewind_stack (lib/exec.c:763-793) on the cells themselves; the new size is returned. */
  method RewindInPlace(stack: array<cell>, lsize: nat, height: nat, arity: nat) returns (size: nat)
    requires lsize <= stack.Length && height + arity <= lsize
    modifies stack
    ensures size == height + arity
    ensures stack[..size] == Rewound(old(stack[..lsize]), height, arity)
    ensures stack[lsize..] == old(stack[lsize..])
  {
    size := height + arity;
    if height + arity == lsize {
      assert stack[..lsize] == stack[..lsize][..height] + stack[..lsize][lsize - arity..];
      return;
    }
    Move(stack, height, stack, lsize - arity, arity);
    assert stack[..size] == Rewound(old(stack[..lsize]), height, arity);
  }

  lemma LandedRef(s: seq<cell>, lsize: nat, height: nat, csz: nat)
    requires height <= lsize && lsize + EXNREF_CELLS <= |s| && csz <= EXN_CELLS && height + csz + EXNREF_CELLS <= |s|
    ensures var s1 := Copied(s, height + csz, s, lsize, EXNREF_CELLS);
            Copied(s1, height, s1, height + csz, csz)[..height + csz + EXNREF_CELLS]
            == Caught(s[..lsize], height, csz + EXNREF_CELLS, csz, s[lsize..lsize + EXNREF_CELLS])
  {
    hide Copied, Caught;
    var n := height + csz + EXNREF_CELLS;
    var s1 := Copied(s, height + csz, s, lsize, EXNREF_CELLS);
    var got, want := Copied(s1, height, s1, height + csz, csz), Caught(s[..lsize], height, csz + EXNREF_CELLS, csz, s[lsize..lsize + EXNREF_CELLS]);
    CaughtIndex(s[..lsize], height, csz, s[lsize..lsize + EXNREF_CELLS], 0);
    forall k | 0 <= k < n ensures got[k] == want[k] {
      CaughtIndex(s[..lsize], height, csz, s[lsize..lsize + EXNREF_CELLS], k);
      CopiedIndex(s1, height, s1, height + csz, csz, k);
      CopiedIndex(s, height + csz, s, lsize, EXNREF_CELLS, if height <= k < height + csz then k + csz else k);
    }
    assert got[..n] == want;
  }

  lemma CaughtIndex(stack: seq<cell>, height: nat, csz: nat, exn: seq<cell>, k: nat)
    requires height <= |stack| && csz <= EXN_CELLS && |exn| == EXNREF_CELLS && k < height + csz + EXNREF_CELLS
    ensures var c := Caught(stack, height, csz + EXNREF_CELLS, csz, exn);
            && |c| == height + csz + EXNREF_CELLS
            && c[k] == if k < height then stack[k] else if k < height + csz then exn[k - height] else exn[k - height - csz]
  {
  }

  lemma CopiedIndex<T>(a: seq<T>, d: nat, b: seq<T>, s: nat, n: nat, k: nat)
    requires d + n <= |a| && s + n <= |b| && k < |a|
    ensures Copied(a, d, b, s, n)[k] == if d <= k < d + n then b[s + (k - d)] else a[k]
  {
  }

  lemma LandedPlain(s: seq<cell>, lsize: nat, height: nat, csz: nat)
    requires height <= lsize && lsize + EXNREF_CELLS <= |s| && csz <= EXN_CELLS
    ensures Copied(s, height, s, lsize, csz)[..height + csz]
            == Caught(s[..lsize], height, csz, csz, s[lsize..lsize + EXNREF_CELLS])
  {
    assert s[lsize..lsize + csz] == s[lsize..lsize + EXNREF_CELLS][..csz];
  }

  /**
    The end of do_exception (lib/exec.c:663-731): the exception's cells, which
    lie just above the popped stack, go to `height`, where they may overlap
    themselves; the parameters are taken from where the exnref went to.
   */
  method LandInPlace(stack: array<cell>, lsize: nat, height: nat, arity: nat, csz: nat) returns (size: nat)
    requires height <= lsize && lsize + EXNREF_CELLS <= stack.Length && csz <= EXN_CELLS
    requires (arity == csz || arity == csz + EXNREF_CELLS) && height + arity <= stack.Length
    modifies stack
    ensures size == height + arity
    ensures stack[..size] == Caught(old(stack[..lsize]), height, arity, csz, old(stack[lsize..lsize + EXNREF_CELLS]))
  {
    hide Copied, Caught;
    ghost var s := stack[..];
    assert s[..lsize] == stack[..lsize] && s[lsize..lsize + EXNREF_CELLS] == stack[lsize..lsize + EXNREF_CELLS];
    var exc := lsize;
    if arity != csz {
      Move(stack, height + csz, stack, exc, EXNREF_CELLS);
      exc := height + csz;
      LandedRef(s, lsize, height, csz);
    } else {
      LandedPlain(s, lsize, height, csz);
    }
    Move(stack, height, stack, exc, csz);
    size := height + arity;
    assert stack[..size] == stack[..][..size];
  }
}
