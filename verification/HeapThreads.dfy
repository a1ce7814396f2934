/**
  Heap accounting under any interleaving (lib/mem.c:38-104, 128-240). A thread
  that reserves or gives back bytes does so one context at a time, and other
  threads may do the same in between. What a context counts is always the live
  bytes of its subtree and what is under way, and never more than its limit.
 */
module HeapThreads {
  import opened Leb

  /** What a finished reservation is for. */
  datatype Target = NewBlock | Grow(block: nat)

  /**
    Where a thread is. `i` contexts of the path from `base` to the root are done;
    `seen` is the value loaded for the compare and exchange.
   */
  datatype Op =
    | Idle
    | Reserving(base: nat, i: nat, seen: Option<int>, diff: nat, target: Target)
    | Undoing(base: nat, i: nat, diff: nat)
    | Reserved(base: nat, diff: nat, target: Target)
    | Unreserving(base: nat, i: nat, diff: nat)

  /** A freed block has no bytes. */
  datatype Block = Block(ctx: nat, size: nat)

  datatype Heap = Heap(parents: seq<Option<nat>>, limits: seq<nat>, counts: seq<int>, ops: seq<Op>, blocks: seq<Block>)

  /** A context is made after its parent. */
  predicate Tree(parents: seq<Option<nat>>) {
    forall c :: 0 <= c < |parents| && parents[c].Some? ==> parents[c].value < c
  }

  /** A context and its ancestors. */
  function Path(parents: seq<Option<nat>>, c: nat): (p: seq<nat>)
    requires Tree(parents) && c < |parents|
    ensures p != [] && p[0] == c
    ensures forall k :: 0 <= k < |p| ==> p[k] <= c
    ensures forall j, k :: 0 <= j < k < |p| ==> p[k] < p[j]
    decreases c
  {
    [c] + match parents[c] case None => [] case Some(p) => Path(parents, p)
  }

  // ---- what is counted where ----

  predicate OpOk(h: Heap, o: Op)
    requires Tree(h.parents)
  {
    match o
    case Idle => true
    case Reserving(base, i, seen, diff, t) =>
      && base < |h.parents| && i < |Path(h.parents, base)| && TargetOk(h, base, t)
      && (seen.Some? ==> Path(h.parents, base)[i] < |h.limits| && seen.value + diff <= h.limits[Path(h.parents, base)[i]])
    case Undoing(base, i, _) => base < |h.parents| && 0 < i <= |Path(h.parents, base)|
    case Reserved(base, _, t) => base < |h.parents| && TargetOk(h, base, t)
    case Unreserving(base, i, _) => base < |h.parents| && i < |Path(h.parents, base)|
  }

  predicate TargetOk(h: Heap, base: nat, t: Target) { t.Grow? ==> t.block < |h.blocks| && h.blocks[t.block].ctx == base }

  /** The contexts in which an operation under way is counted. */
  function HeldIn(h: Heap, o: Op): seq<nat>
    requires Tree(h.parents) && OpOk(h, o)
  {
    match o
    case Idle => []
    case Reserving(base, i, _, _, _) => Path(h.parents, base)[..i]
    case Undoing(base, i, _) => Path(h.parents, base)[..i]
    case Reserved(base, _, _) => Path(h.parents, base)
    case Unreserving(base, i, _) => Path(h.parents, base)[i..]
  }

  function Held(h: Heap, o: Op, c: nat): nat
    requires Tree(h.parents) && OpOk(h, o)
  {
    if !o.Idle? && c in HeldIn(h, o) then o.diff else 0
  }

  predicate WellFormed(h: Heap) {
    && Tree(h.parents) && |h.limits| == |h.counts| == |h.parents|
    && (forall k :: 0 <= k < |h.ops| ==> OpOk(h, h.ops[k]))
    && (forall k :: 0 <= k < |h.blocks| ==> h.blocks[k].ctx < |h.parents|)
  }

  /** The bytes under way in `c`, of the first `n` threads. */
  function InFlight(h: Heap, c: nat, n: nat): nat
    requires WellFormed(h) && n <= |h.ops|
    decreases n
  {
    if n == 0 then 0 else InFlight(h, c, n - 1) + Held(h, h.ops[n - 1], c)
  }

  /** A block counts in its context and the ancestors. */
  function Counted(h: Heap, b: Block, c: nat): nat
    requires Tree(h.parents) && b.ctx < |h.parents|
  {
    if c in Path(h.parents, b.ctx) then b.size else 0
  }

  /** The live bytes in the subtree of `c`, of the first `n` blocks. */
  function Live(h: Heap, c: nat, n: nat): nat
    requires WellFormed(h) && n <= |h.blocks|
    decreases n
  {
    if n == 0 then 0 else Live(h, c, n - 1) + Counted(h, h.blocks[n - 1], c)
  }

  /** The accounting invariant. */
  predicate Accounted(h: Heap) {
    && WellFormed(h)
    && forall c :: 0 <= c < |h.counts| ==>
         h.counts[c] == Live(h, c, |h.blocks|) + InFlight(h, c, |h.ops|) && h.counts[c] <= h.limits[c]
  }

  // ---- steps of thread `t` ----

  datatype Step =
    | Alloc(t: nat, base: nat, size: nat)
    | Extend(t: nat, block: nat, diff: nat)
    | Load(t: nat)                // of the counter, before the compare and exchange
    | Cas(t: nat, spurious: bool)
    | UndoOne(t: nat)
    | Commit(t: nat)              // malloc or realloc has succeeded
    | Fail(t: nat)                // or has not
    | Free(t: nat, block: nat)
    | Shrink(t: nat, block: nat, diff: nat)
    | UnreserveOne(t: nat)

  /** No other thread is about to change the block: its owner is who frees or resizes it. */
  predicate Owned(h: Heap, block: nat) {
    block < |h.blocks| && forall k :: 0 <= k < |h.ops| ==>
      match h.ops[k]
      case Reserving(_, _, _, _, t) => t != Grow(block)
      case Reserved(_, _, t) => t != Grow(block)
      case _ => true
  }

  predicate Enabled(h: Heap, s: Step) {
    s.t < |h.ops| &&
    match s
    case Alloc(t, base, size) => h.ops[t].Idle? && base < |h.parents| && size > 0
    case Extend(t, block, diff) => h.ops[t].Idle? && Owned(h, block) && h.blocks[block].size > 0 && diff > 0
    case Load(t) => h.ops[t].Reserving? && h.ops[t].seen == None
    case Cas(t, _) => h.ops[t].Reserving? && h.ops[t].seen.Some?
    case UndoOne(t) => h.ops[t].Undoing?
    case Commit(t) => h.ops[t].Reserved?
    case Fail(t) => h.ops[t].Reserved?
    case Free(t, block) => h.ops[t].Idle? && Owned(h, block) && h.blocks[block].size > 0
    case Shrink(t, block, diff) => h.ops[t].Idle? && Owned(h, block) && diff < h.blocks[block].size
    case UnreserveOne(t) => h.ops[t].Unreserving?
  }

  /** Where a thread is with `i` contexts of `base`'s path still counted. */
  function Undo(base: nat, i: nat, diff: nat): Op { if i == 0 then Idle else Undoing(base, i, diff) }

  function Next(h: Heap, s: Step): Heap
    requires WellFormed(h) && Enabled(h, s)
  {
    var o := h.ops[s.t];
    match s
    case Alloc(t, base, size) => h.(ops := h.ops[t := Reserving(base, 0, None, size, NewBlock)])
    case Extend(t, block, diff) => h.(ops := h.ops[t := Reserving(h.blocks[block].ctx, 0, None, diff, Grow(block))])
    case Load(t) =>
      var ov := h.counts[Path(h.parents, o.base)[o.i]];
      if h.limits[Path(h.parents, o.base)[o.i]] - ov < o.diff then h.(ops := h.ops[t := Undo(o.base, o.i, o.diff)])
      else h.(ops := h.ops[t := o.(seen := Some(ov))])
    case Cas(t, spurious) =>
      var c := Path(h.parents, o.base)[o.i];
      if spurious || h.counts[c] != o.seen.value then h.(ops := h.ops[t := o.(seen := None)])
      else h.(counts := h.counts[c := o.seen.value + o.diff], ops := h.ops[t := Reach(h, o)])
    case UndoOne(t) =>
      var c := Path(h.parents, o.base)[o.i - 1];
      h.(counts := h.counts[c := h.counts[c] - o.diff], ops := h.ops[t := Undo(o.base, o.i - 1, o.diff)])
    case Commit(t) => h.(blocks := Place(h, o), ops := h.ops[t := Idle])
    case Fail(t) => h.(ops := h.ops[t := Unreserving(o.base, 0, o.diff)])
    case Free(t, block) =>
      var b := h.blocks[block];
      h.(blocks := h.blocks[block := Block(b.ctx, 0)], ops := h.ops[t := Unreserving(b.ctx, 0, b.size)])
    case Shrink(t, block, diff) =>
      var b := h.blocks[block];
      h.(blocks := h.blocks[block := Block(b.ctx, b.size - diff)], ops := h.ops[t := Unreserving(b.ctx, 0, diff)])
    case UnreserveOne(t) =>
      var p := Path(h.parents, o.base);
      h.(counts := h.counts[p[o.i] := h.counts[p[o.i]] - o.diff],
         ops := h.ops[t := Unreserved(h, o)])
  }

  /** One more context of the path has the bytes. */
  function Reach(h: Heap, o: Op): Op
    requires WellFormed(h) && o.Reserving? && OpOk(h, o)
  {
    if o.i + 1 == |Path(h.parents, o.base)| then Reserved(o.base, o.diff, o.target)
    else Reserving(o.base, o.i + 1, None, o.diff, o.target)
  }

  /** One context less has the bytes. */
  function Unreserved(h: Heap, o: Op): Op
    requires WellFormed(h) && o.Unreserving? && OpOk(h, o)
  {
    if o.i + 1 == |Path(h.parents, o.base)| then Idle else Unreserving(o.base, o.i + 1, o.diff)
  }

  function Place(h: Heap, o: Op): seq<Block>
    requires WellFormed(h) && o.Reserved? && OpOk(h, o)
  {
    match o.target
    case NewBlock => h.blocks + [Block(o.base, o.diff)]
    case Grow(b) => h.blocks[b := Block(o.base, h.blocks[b].size + o.diff)]
  }

  // ---- sums ----

  /** The shape that the sums depend on. */
  predicate SameShape(h: Heap, g: Heap) { g.parents == h.parents && g.limits == h.limits && |g.counts| == |h.counts| }

  lemma {:induction false} InFlightChange(h: Heap, g: Heap, t: nat, c: nat, n: nat)
    requires WellFormed(h) && WellFormed(g) && SameShape(h, g) && |g.ops| == |h.ops| && n <= |h.ops|
    requires t < |h.ops| && g.ops == h.ops[t := g.ops[t]]
    requires forall k :: 0 <= k < |h.ops| ==> OpOk(g, h.ops[k])
    ensures InFlight(g, c, n) == InFlight(h, c, n) + if t < n then Held(g, g.ops[t], c) - Held(h, h.ops[t], c) else 0
    decreases n
  {
    hide Path, OpOk, Held;
    if n > 0 {
      InFlightChange(h, g, t, c, n - 1);
      if n - 1 != t { SameHeld(h, g, h.ops[n - 1], c); }
    }
  }

  lemma SameHeld(h: Heap, g: Heap, o: Op, c: nat)
    requires Tree(h.parents) && SameShape(h, g) && OpOk(h, o) && OpOk(g, o)
    ensures Held(g, o, c) == Held(h, o, c)
  {
  }

  lemma {:induction false} LiveSame(h: Heap, g: Heap, c: nat, n: nat)
    requires WellFormed(h) && WellFormed(g) && SameShape(h, g) && n <= |h.blocks| && n <= |g.blocks|
    requires forall k :: 0 <= k < n ==> g.blocks[k] == h.blocks[k]
    ensures Live(g, c, n) == Live(h, c, n)
    decreases n
  {
    hide Path;
    if n > 0 { LiveSame(h, g, c, n - 1); }
  }

  lemma {:induction false} LiveChange(h: Heap, g: Heap, b: nat, c: nat, n: nat)
    requires WellFormed(h) && WellFormed(g) && SameShape(h, g) && |g.blocks| == |h.blocks| && n <= |h.blocks|
    requires b < |h.blocks| && g.blocks == h.blocks[b := g.blocks[b]]
    ensures Live(g, c, n) == Live(h, c, n) + if b < n then Counted(g, g.blocks[b], c) - Counted(h, h.blocks[b], c) else 0
    decreases n
  {
    hide Path;
    if n > 0 { LiveChange(h, g, b, c, n - 1); }
  }

  /** `c` is the `i`-th context of a path: among the first `i + 1` but not the first `i`, and so on. */
  lemma Level(p: seq<nat>, i: nat, c: nat)
    requires i < |p| && forall j, k :: 0 <= j < k < |p| ==> p[k] < p[j]
    ensures c in p[..i + 1] <==> c in p[..i] || c == p[i]
    ensures c == p[i] ==> c !in p[..i] && c !in p[i + 1..]
    ensures c in p[i..] <==> c in p[i + 1..] || c == p[i]
    ensures p[..|p|] == p && p[0..] == p
  {
    assert p[..i + 1] == p[..i] + [p[i]];
    assert p[i..] == [p[i]] + p[i + 1..];
  }

  // ---- the invariant is kept ----

  /** The counter of one context and the operation of one thread change together. */
  lemma Balanced(h: Heap, g: Heap, t: nat)
    requires Accounted(h) && WellFormed(g) && SameShape(h, g) && |g.ops| == |h.ops| && t < |h.ops|
    requires g.ops == h.ops[t := g.ops[t]] && g.blocks == h.blocks
    requires forall c :: 0 <= c < |h.counts| ==>
               g.counts[c] == h.counts[c] + Held(g, g.ops[t], c) - Held(h, h.ops[t], c) && g.counts[c] <= g.limits[c]
    ensures Accounted(g)
  {
    hide Path, Held, OpOk;
    assert forall k :: 0 <= k < |h.ops| ==> OpOk(g, h.ops[k]) by { StillOk(h, g); }
    forall c | 0 <= c < |g.counts|
      ensures g.counts[c] == Live(g, c, |g.blocks|) + InFlight(g, c, |g.ops|)
    {
      InFlightChange(h, g, t, c, |h.ops|);
      LiveSame(h, g, c, |h.blocks|);
    }
  }

  lemma StillOk(h: Heap, g: Heap)
    requires WellFormed(h) && SameShape(h, g) && |g.blocks| >= |h.blocks|
    requires forall k :: 0 <= k < |h.blocks| ==> g.blocks[k].ctx == h.blocks[k].ctx
    ensures forall k :: 0 <= k < |h.ops| ==> OpOk(g, h.ops[k])
  {
    hide Path;
  }

  /** Nothing is counted differently. */
  lemma Unchanged(h: Heap, t: nat, o: Op)
    requires Accounted(h) && t < |h.ops| && OpOk(h, o)
    requires forall c :: 0 <= c < |h.counts| ==> Held(h, o, c) == Held(h, h.ops[t], c)
    ensures Accounted(h.(ops := h.ops[t := o]))
  {
    hide Path, Held;
    var g := h.(ops := h.ops[t := o]);
    StillOk(h, g);
    assert WellFormed(g) by { OneOp(h, g, t); }
    forall c | 0 <= c < |h.counts| ensures g.counts[c] == h.counts[c] + Held(g, g.ops[t], c) - Held(h, h.ops[t], c) && g.counts[c] <= g.limits[c] {
      SameHeld(h, g, o, c);
    }
    Balanced(h, g, t);
  }

  lemma OneOp(h: Heap, g: Heap, t: nat)
    requires WellFormed(h) && SameShape(h, g) && |g.ops| == |h.ops| && t < |h.ops| && g.ops == h.ops[t := g.ops[t]]
    requires |g.blocks| >= |h.blocks| && (forall k :: 0 <= k < |h.blocks| ==> g.blocks[k].ctx == h.blocks[k].ctx)
    requires OpOk(g, g.ops[t]) && forall k :: 0 <= k < |g.blocks| ==> g.blocks[k].ctx < |h.parents|
    ensures WellFormed(g)
  {
    hide Path, OpOk;
    StillOk(h, g);
  }

  /** One context's counter moves by `d` with what thread `t` holds there. */
  lemma Moved(h: Heap, t: nat, o: Op, c0: nat, v: int)
    requires Accounted(h) && t < |h.ops| && OpOk(h, o) && c0 < |h.counts| && v <= h.limits[c0]
    requires v == h.counts[c0] + Held(h, o, c0) - Held(h, h.ops[t], c0)
    requires forall c :: 0 <= c < |h.counts| && c != c0 ==> Held(h, o, c) == Held(h, h.ops[t], c)
    ensures Accounted(h.(counts := h.counts[c0 := v], ops := h.ops[t := o]))
  {
    hide Path, Held, OpOk;
    var g := h.(counts := h.counts[c0 := v], ops := h.ops[t := o]);
    StillOk(h, g);
    assert OpOk(g, o) by { OkElsewhere(h, g, o); }
    OneOp(h, g, t);
    forall c | 0 <= c < |h.counts| ensures g.counts[c] == h.counts[c] + Held(g, g.ops[t], c) - Held(h, h.ops[t], c) && g.counts[c] <= g.limits[c] {
      SameHeld(h, g, o, c);
    }
    Balanced(h, g, t);
  }

  lemma OkElsewhere(h: Heap, g: Heap, o: Op)
    requires Tree(h.parents) && SameShape(h, g) && g.blocks == h.blocks && OpOk(h, o)
    ensures OpOk(g, o)
  {
    hide Path;
  }

  lemma Formed(h: Heap)
    requires Accounted(h)
    ensures WellFormed(h)
  {
  }

  lemma Within(h: Heap, c: nat)
    requires Accounted(h) && c < |h.counts|
    ensures h.counts[c] <= h.limits[c]
  {
  }

  lemma LoadKeeps(h: Heap, t: nat)
    requires Accounted(h) && Enabled(h, Load(t))
    ensures Accounted(Next(h, Load(t)))
  {
    hide Accounted;
    Formed(h);
    var o := h.ops[t];
    assert OpOk(h, o);
    var c := Path(h.parents, o.base)[o.i];
    if h.limits[c] - h.counts[c] < o.diff {
      Unchanged(h, t, Undo(o.base, o.i, o.diff));
    } else {
      Unchanged(h, t, o.(seen := Some(h.counts[c])));
    }
  }

  lemma OneLevelMore(h: Heap, o: Op, c: nat)
    requires WellFormed(h) && o.Reserving? && OpOk(h, o)
    ensures var p := Path(h.parents, o.base);
            OpOk(h, Reach(h, o)) && Held(h, Reach(h, o), c) == Held(h, o, c) + if c == p[o.i] then o.diff else 0
    ensures Path(h.parents, o.base)[o.i] < |h.counts|
  {
    hide Path;
    Level(Path(h.parents, o.base), o.i, c);
  }

  lemma CasKeeps(h: Heap, t: nat, spurious: bool)
    requires Accounted(h) && Enabled(h, Cas(t, spurious))
    ensures Accounted(Next(h, Cas(t, spurious)))
  {
    hide Accounted, Path, Held, Reach;
    Formed(h);
    var o := h.ops[t];
    assert OpOk(h, o);
    var c := Path(h.parents, o.base)[o.i];
    OneLevelMore(h, o, c);
    if spurious || h.counts[c] != o.seen.value {
      forall k | 0 <= k < |h.counts| ensures Held(h, o.(seen := None), k) == Held(h, o, k) { SeenIsNotHeld(h, o, k); }
      Unchanged(h, t, o.(seen := None));
    } else {
      forall k | 0 <= k < |h.counts| ensures Held(h, Reach(h, o), k) == Held(h, o, k) + if k == c then o.diff else 0 {
        OneLevelMore(h, o, k);
      }
      Moved(h, t, Reach(h, o), c, o.seen.value + o.diff);
    }
  }

  lemma SeenIsNotHeld(h: Heap, o: Op, c: nat)
    requires WellFormed(h) && o.Reserving? && OpOk(h, o)
    ensures OpOk(h, o.(seen := None)) && Held(h, o.(seen := None), c) == Held(h, o, c)
  {
  }

  /** One level of a path taken off what an operation holds. */
  lemma OneLevelLess(h: Heap, o: Op, c: nat)
    requires WellFormed(h) && o.Unreserving? && OpOk(h, o)
    ensures var p := Path(h.parents, o.base);
            var o2 := Unreserved(h, o);
            OpOk(h, o2) && Held(h, o, c) == Held(h, o2, c) + if c == p[o.i] then o.diff else 0
  {
    hide Path;
    Level(Path(h.parents, o.base), o.i, c);
  }

  lemma OneLevelUndone(h: Heap, o: Op, c: nat)
    requires WellFormed(h) && o.Undoing? && OpOk(h, o)
    ensures var p := Path(h.parents, o.base);
            var o2 := Undo(o.base, o.i - 1, o.diff);
            OpOk(h, o2) && Held(h, o, c) == Held(h, o2, c) + if c == p[o.i - 1] then o.diff else 0
  {
    hide Path;
    Level(Path(h.parents, o.base), o.i - 1, c);
  }

  lemma UndoKeeps(h: Heap, t: nat)
    requires Accounted(h) && Enabled(h, UndoOne(t))
    ensures Accounted(Next(h, UndoOne(t)))
  {
    hide Accounted, Path, Held, OpOk;
    Formed(h);
    var o := h.ops[t];
    assert OpOk(h, o);
    InPath(h, o);
    var c := Path(h.parents, o.base)[o.i - 1];
    var o2 := Undo(o.base, o.i - 1, o.diff);
    forall k | 0 <= k < |h.counts| ensures OpOk(h, o2) && Held(h, o, k) == Held(h, o2, k) + if k == c then o.diff else 0 {
      OneLevelUndone(h, o, k);
    }
    OneLevelUndone(h, o, c);
    Within(h, c);
    Moved(h, t, o2, c, h.counts[c] - o.diff);
  }

  /** The levels of a path are contexts. */
  lemma InPath(h: Heap, o: Op)
    requires WellFormed(h) && OpOk(h, o) && (o.Undoing? || o.Unreserving?)
    ensures o.base < |h.parents| && forall k :: 0 <= k < |Path(h.parents, o.base)| ==> Path(h.parents, o.base)[k] < |h.counts|
    ensures if o.Undoing? then 0 < o.i <= |Path(h.parents, o.base)| else o.i < |Path(h.parents, o.base)|
  {
  }

  lemma UnreserveKeeps(h: Heap, t: nat)
    requires Accounted(h) && Enabled(h, UnreserveOne(t))
    ensures Accounted(Next(h, UnreserveOne(t)))
  {
    hide Accounted, Path, Held, OpOk;
    Formed(h);
    var o := h.ops[t];
    assert OpOk(h, o);
    InPath(h, o);
    var c := Path(h.parents, o.base)[o.i];
    var o2 := Unreserved(h, o);
    forall k | 0 <= k < |h.counts| ensures OpOk(h, o2) && Held(h, o, k) == Held(h, o2, k) + if k == c then o.diff else 0 {
      OneLevelLess(h, o, k);
    }
    OneLevelLess(h, o, c);
    Within(h, c);
    Moved(h, t, o2, c, h.counts[c] - o.diff);
  }

  /** Bytes pass from an operation to a block, or back. */
  lemma Transfer(h: Heap, g: Heap, t: nat, b: nat)
    requires Accounted(h) && WellFormed(g) && SameShape(h, g) && |g.ops| == |h.ops| && t < |h.ops|
    requires g.ops == h.ops[t := g.ops[t]] && g.counts == h.counts
    requires b < |h.blocks| == |g.blocks| && g.blocks == h.blocks[b := g.blocks[b]] && g.blocks[b].ctx == h.blocks[b].ctx
    requires forall c :: 0 <= c < |h.counts| ==>
               Counted(g, g.blocks[b], c) + Held(g, g.ops[t], c) == Counted(h, h.blocks[b], c) + Held(h, h.ops[t], c)
    ensures Accounted(g)
  {
    hide Path, Held, OpOk, Counted;
    StillOk(h, g);
    forall c | 0 <= c < |g.counts|
      ensures g.counts[c] == Live(g, c, |g.blocks|) + InFlight(g, c, |g.ops|)
    {
      InFlightChange(h, g, t, c, |h.ops|);
      LiveChange(h, g, b, c, |h.blocks|);
    }
  }

  lemma Append(h: Heap, g: Heap, t: nat)
    requires Accounted(h) && WellFormed(g) && SameShape(h, g) && |g.ops| == |h.ops| && t < |h.ops|
    requires g.ops == h.ops[t := g.ops[t]] && g.counts == h.counts
    requires |g.blocks| == |h.blocks| + 1 && g.blocks[..|h.blocks|] == h.blocks
    requires forall c :: 0 <= c < |h.counts| ==> Counted(g, g.blocks[|h.blocks|], c) + Held(g, g.ops[t], c) == Held(h, h.ops[t], c)
    ensures Accounted(g)
  {
    hide Path, Held, OpOk, Counted;
    assert forall k :: 0 <= k < |h.blocks| ==> g.blocks[k] == g.blocks[..|h.blocks|][k] == h.blocks[k];
    StillOk(h, g);
    forall c | 0 <= c < |g.counts|
      ensures g.counts[c] == Live(g, c, |g.blocks|) + InFlight(g, c, |g.ops|)
    {
      InFlightChange(h, g, t, c, |h.ops|);
      LiveSame(h, g, c, |h.blocks|);
    }
  }

  /** All of a path, from its start. */
  lemma WholePath(p: seq<nat>)
    ensures p[0..] == p
  {
  }

  lemma CommitKeeps(h: Heap, t: nat)
    requires Accounted(h) && Enabled(h, Commit(t))
    ensures Accounted(Next(h, Commit(t)))
  {
    hide Accounted, Path;
    Formed(h);
    var o := h.ops[t];
    assert OpOk(h, o);
    var g := Next(h, Commit(t));
    OneOp(h, g, t);
    match o.target {
      case NewBlock => Append(h, g, t);
      case Grow(b) => Transfer(h, g, t, b);
    }
  }

  /** Bytes given up by a block are under way in its whole path. */
  lemma GiveBack(h: Heap, t: nat, block: nat, diff: nat)
    requires Accounted(h) && t < |h.ops| && h.ops[t].Idle? && block < |h.blocks| && diff <= h.blocks[block].size
    ensures var b := h.blocks[block];
            Accounted(h.(blocks := h.blocks[block := Block(b.ctx, b.size - diff)], ops := h.ops[t := Unreserving(b.ctx, 0, diff)]))
  {
    hide Accounted, Path;
    Formed(h);
    var b := h.blocks[block];
    var g := h.(blocks := h.blocks[block := Block(b.ctx, b.size - diff)], ops := h.ops[t := Unreserving(b.ctx, 0, diff)]);
    OneOp(h, g, t);
    WholePath(Path(h.parents, b.ctx));
    Transfer(h, g, t, block);
  }

  lemma BeginKeeps(h: Heap, t: nat, o: Op)
    requires Accounted(h) && t < |h.ops| && h.ops[t].Idle? && OpOk(h, o) && o.Reserving? && o.i == 0
    ensures Accounted(h.(ops := h.ops[t := o]))
  {
    hide Accounted, Path;
    Formed(h);
    Unchanged(h, t, o);
  }

  lemma FailKeeps(h: Heap, t: nat)
    requires Accounted(h) && Enabled(h, Fail(t))
    ensures Accounted(Next(h, Fail(t)))
  {
    hide Accounted, Path;
    Formed(h);
    var o := h.ops[t];
    assert OpOk(h, o);
    WholePath(Path(h.parents, o.base));
    Unchanged(h, t, Unreserving(o.base, 0, o.diff));
  }

  /** Every step of every thread keeps the accounts. */
  lemma StepKeeps(h: Heap, s: Step)
    requires Accounted(h) && Enabled(h, s)
    ensures Accounted(Next(h, s))
  {
    hide Path, InFlight, Live;
    match s {
      case Alloc(t, base, size) => BeginKeeps(h, t, Reserving(base, 0, None, size, NewBlock));
      case Extend(t, block, diff) => BeginKeeps(h, t, Reserving(h.blocks[block].ctx, 0, None, diff, Grow(block)));
      case Load(t) => LoadKeeps(h, t);
      case Cas(t, spurious) => CasKeeps(h, t, spurious);
      case UndoOne(t) => UndoKeeps(h, t);
      case Commit(t) => CommitKeeps(h, t);
      case Fail(t) => FailKeeps(h, t);
      case Free(t, block) => GiveBack(h, t, block, h.blocks[block].size);
      case Shrink(t, block, diff) => GiveBack(h, t, block, diff);
      case UnreserveOne(t) => UnreserveKeeps(h, t);
    }
  }

  predicate CanRun(h: Heap, run: seq<Step>)
    decreases |run|
  {
    run == [] || (WellFormed(h) && Enabled(h, run[0]) && CanRun(Next(h, run[0]), run[1..]))
  }

  function After(h: Heap, run: seq<Step>): Heap
    requires CanRun(h, run)
    decreases |run|
  {
    if run == [] then h else After(Next(h, run[0]), run[1..])
  }

  /** Contexts that count nothing, and threads that do nothing. */
  predicate Fresh(h: Heap) {
    && Tree(h.parents) && |h.limits| == |h.counts| == |h.parents| && h.blocks == []
    && (forall c :: 0 <= c < |h.counts| ==> h.counts[c] == 0) && (forall t :: 0 <= t < |h.ops| ==> h.ops[t] == Idle)
  }

  lemma {:induction false} NothingInFlight(h: Heap, c: nat, n: nat)
    requires WellFormed(h) && n <= |h.ops| && forall t :: 0 <= t < |h.ops| ==> h.ops[t] == Idle
    ensures InFlight(h, c, n) == 0
    decreases n
  {
    if n > 0 { NothingInFlight(h, c, n - 1); }
  }

  lemma {:induction false} RunKeeps(h: Heap, run: seq<Step>)
    requires Accounted(h) && CanRun(h, run)
    ensures Accounted(After(h, run))
    decreases |run|
  {
    hide Accounted, Enabled, Next, WellFormed;
    if run != [] {
      StepKeeps(h, run[0]);
      RunKeeps(Next(h, run[0]), run[1..]);
    }
  }

  /**
    In every state of every run: each context counts the live bytes of its
    subtree and what is under way there, within its limit. When no thread is at
    work it counts the live bytes exactly.
   */
  lemma AccountsAreExact(h: Heap, run: seq<Step>)
    requires Fresh(h) && CanRun(h, run)
    ensures Accounted(After(h, run))
    ensures var g := After(h, run);
            (forall t :: 0 <= t < |g.ops| ==> g.ops[t] == Idle) ==>
              forall c :: 0 <= c < |g.counts| ==> g.counts[c] == Live(g, c, |g.blocks|)
  {
    forall c | 0 <= c < |h.counts| ensures InFlight(h, c, |h.ops|) == 0 { NothingInFlight(h, c, |h.ops|); }
    RunKeeps(h, run);
    var g := After(h, run);
    if forall t :: 0 <= t < |g.ops| ==> g.ops[t] == Idle {
      forall c | 0 <= c < |g.counts| ensures g.counts[c] == Live(g, c, |g.blocks|) { NothingInFlight(g, c, |g.ops|); }
    }
  }

  /** A counter never goes below what is taken off it (the assertions of mem_unreserve_one). */
  lemma EnoughToTake(h: Heap, t: nat)
    requires Accounted(h) && (Enabled(h, UndoOne(t)) || Enabled(h, UnreserveOne(t)))
    ensures var o := h.ops[t];
            var c := Path(h.parents, o.base)[if o.Undoing? then o.i - 1 else o.i];
            h.counts[c] >= o.diff
  {
    hide Path, Live, InFlight;
    var o := h.ops[t];
    assert OpOk(h, o);
    var p := Path(h.parents, o.base);
    var j := if o.Undoing? then o.i - 1 else o.i;
    Level(p, j, p[j]);
    HeldOfSum(h, p[j], t, |h.ops|);
  }

  lemma {:induction false} HeldOfSum(h: Heap, c: nat, t: nat, n: nat)
    requires WellFormed(h) && t < n <= |h.ops|
    ensures InFlight(h, c, n) >= Held(h, h.ops[t], c)
    decreases n
  {
    hide Path, OpOk;
    if n - 1 > t { HeldOfSum(h, c, t, n - 1); }
  }

  // ---- a thread that is left alone ----

  /** Steps of `t` alone towards a reservation, whose exchanges fail for no reason of their own. */
  predicate Undisturbed(run: seq<Step>, t: nat) {
    forall k :: 0 <= k < |run| ==> run[k] == Load(t) || run[k] == Cas(t, false) || run[k] == UndoOne(t)
  }

  /** Room for `diff` bytes in each of these contexts. */
  predicate RoomIn(h: Heap, p: seq<nat>, diff: nat) {
    forall c :: c in p ==> c < |h.counts| == |h.limits| && h.counts[c] + diff <= h.limits[c]
  }

  /** Just the counters of these contexts differ, by `d`. */
  predicate Shifted(counts: seq<int>, now: seq<int>, p: seq<nat>, d: int) {
    |now| == |counts| && forall c :: 0 <= c < |counts| ==> now[c] == counts[c] + if c in p then d else 0
  }

  /** What thread `t` has made of `h0` on its own, reserving `diff` bytes in the contexts `p` from `base` on. */
  predicate OnItsWay(h0: Heap, h: Heap, t: nat, base: nat, p: seq<nat>, diff: nat, target: Target) {
    && t < |h.ops| == |h0.ops| && h == h0.(ops := h0.ops[t := h.ops[t]], counts := h.counts)
    && match h.ops[t]
       case Reserving(b, i, seen, d, tg) =>
         && b == base && d == diff && tg == target && i < |p| && p[i] < |h0.counts| == |h0.limits|
         && Shifted(h0.counts, h.counts, p[..i], diff) && RoomIn(h0, p[..i], diff)
         && (seen.Some? ==> seen.value == h0.counts[p[i]] && seen.value + diff <= h0.limits[p[i]])
       case Reserved(b, d, tg) =>
         b == base && d == diff && tg == target && Shifted(h0.counts, h.counts, p, diff) && RoomIn(h0, p, diff)
       case Undoing(b, i, d) =>
         b == base && d == diff && 0 < i <= |p| && Shifted(h0.counts, h.counts, p[..i], diff) && !RoomIn(h0, p, diff)
       case Idle => h.counts == h0.counts && !RoomIn(h0, p, diff)
       case Unreserving(_, _, _) => false
  }

  /** A level of a path, and those before it. */
  lemma NextLevel(p: seq<nat>, i: nat)
    requires i < |p| && forall j, k :: 0 <= j < k < |p| ==> p[k] < p[j]
    ensures p[..i + 1] == p[..i] + [p[i]] && p[i] !in p[..i] && p[i] in p
    ensures i + 1 == |p| ==> p[..i + 1] == p
  {
  }

  /** One more context counts the bytes, or one less. */
  lemma ShiftedOne(was: seq<int>, now: seq<int>, p: seq<nat>, c: nat, d: int)
    requires |was| == |now| && c < |was| && c !in p
    ensures Shifted(was, now, p, d) ==> now[c] == was[c] && Shifted(was, now[c := was[c] + d], p + [c], d)
    ensures Shifted(was, now, p + [c], d) ==> Shifted(was, now[c := now[c] - d], p, d)
  {
    assert c in p + [c];
    assert forall x :: x != c ==> (x in p + [c] <==> x in p);
  }

  lemma RoomInOne(h: Heap, p: seq<nat>, c: nat, diff: nat)
    ensures RoomIn(h, p + [c], diff) <==> RoomIn(h, p, diff) && c < |h.counts| == |h.limits| && h.counts[c] + diff <= h.limits[c]
  {
    assert c in p + [c];
    assert forall x :: x in p + [c] <==> x in p || x == c;
  }

  lemma SameLength(was: seq<int>, now: seq<int>, p: seq<nat>, d: int)
    requires Shifted(was, now, p, d)
    ensures |now| == |was|
  {
  }

  lemma NothingShifted(was: seq<int>, now: seq<int>, d: int)
    ensures Shifted(was, now, [], d) <==> now == was
  {
  }

  lemma LoadAlone(h0: Heap, h: Heap, t: nat, base: nat, p: seq<nat>, diff: nat, target: Target)
    requires OnItsWay(h0, h, t, base, p, diff, target) && WellFormed(h) && base < |h.parents| && p == Path(h.parents, base)
    requires Enabled(h, Load(t))
    ensures OnItsWay(h0, Next(h, Load(t)), t, base, p, diff, target)
  {
    hide Path, WellFormed;
    NextLevel(p, h.ops[t].i);
    assert p[..0] == [];
  }

  /** The state after an exchange that succeeded at level `i`. */
  lemma CountedOnce(h0: Heap, h: Heap, t: nat, base: nat, p: seq<nat>, diff: nat, target: Target, i: nat, o2: Op)
    requires OnItsWay(h0, h, t, base, p, diff, target) && h.ops[t].Reserving? && h.ops[t].i == i && h.ops[t].seen.Some?
    requires p[i] !in p[..i] && p[..i + 1] == p[..i] + [p[i]] && (i + 1 == |p| ==> p[..i + 1] == p)
    requires i + 1 < |p| ==> p[i + 1] < |h0.counts|
    requires o2 == if i + 1 == |p| then Reserved(base, diff, target) else Reserving(base, i + 1, None, diff, target)
    ensures OnItsWay(h0, h.(counts := h.counts[p[i] := h.ops[t].seen.value + diff], ops := h.ops[t := o2]), t, base, p, diff, target)
  {
    hide Shifted, RoomIn;
    SameLength(h0.counts, h.counts, p[..i], diff);
    ShiftedOne(h0.counts, h.counts, p[..i], p[i], diff);
    RoomInOne(h0, p[..i], p[i], diff);
  }

  lemma CasAlone(h0: Heap, h: Heap, t: nat, base: nat, p: seq<nat>, diff: nat, target: Target)
    requires OnItsWay(h0, h, t, base, p, diff, target) && WellFormed(h) && base < |h.parents| && p == Path(h.parents, base)
    requires Enabled(h, Cas(t, false))
    ensures OnItsWay(h0, Next(h, Cas(t, false)), t, base, p, diff, target)
  {
    hide Path, OnItsWay, Shifted, RoomIn;
    var o := h.ops[t];
    OnTheWay(h0, h, t, base, p, diff, target);
    NextLevel(p, o.i);
    CountedOnce(h0, h, t, base, p, diff, target, o.i, Reach(h, o));
  }

  /** Where a thread is on its way. */
  lemma OnTheWay(h0: Heap, h: Heap, t: nat, base: nat, p: seq<nat>, diff: nat, target: Target)
    requires OnItsWay(h0, h, t, base, p, diff, target)
    ensures |h.counts| == |h0.counts|
    ensures var o := h.ops[t];
            && (o.Reserving? ==> o.base == base && o.diff == diff && o.target == target && o.i < |p| && p[o.i] < |h.counts|
                                 && (o.seen.Some? ==> h.counts[p[o.i]] == o.seen.value || p[o.i] in p[..o.i]))
            && (o.Undoing? ==> o.base == base && o.diff == diff && 0 < o.i <= |p|)
  {
    var o := h.ops[t];
    if o.Reserving? && o.seen.Some? && p[o.i] !in p[..o.i] { ShiftedOne(h0.counts, h.counts, p[..o.i], p[o.i], diff); }
  }

  /** The state after undoing level `i`. */
  lemma UndoneOnce(h0: Heap, h: Heap, t: nat, base: nat, p: seq<nat>, diff: nat, target: Target, i: nat)
    requires OnItsWay(h0, h, t, base, p, diff, target) && h.ops[t].Undoing? && h.ops[t].i == i + 1
    requires p[i] !in p[..i] && p[..i + 1] == p[..i] + [p[i]] && p[i] < |h.counts|
    ensures OnItsWay(h0, h.(counts := h.counts[p[i] := h.counts[p[i]] - diff], ops := h.ops[t := Undo(base, i, diff)]), t, base, p, diff, target)
  {
    hide Shifted, RoomIn;
    SameLength(h0.counts, h.counts, p[..i + 1], diff);
    ShiftedOne(h0.counts, h.counts, p[..i], p[i], diff);
    if i == 0 { NothingShifted(h0.counts, h.counts[p[i] := h.counts[p[i]] - diff], diff); }
  }

  lemma UndoAlone(h0: Heap, h: Heap, t: nat, base: nat, p: seq<nat>, diff: nat, target: Target)
    requires OnItsWay(h0, h, t, base, p, diff, target) && WellFormed(h) && base < |h.parents| && p == Path(h.parents, base)
    requires Enabled(h, UndoOne(t))
    ensures OnItsWay(h0, Next(h, UndoOne(t)), t, base, p, diff, target)
  {
    hide Path, OnItsWay, Shifted, RoomIn;
    OnTheWay(h0, h, t, base, p, diff, target);
    NextLevel(p, h.ops[t].i - 1);
    UndoneOnce(h0, h, t, base, p, diff, target, h.ops[t].i - 1);
  }

  lemma {:induction false} AloneKeeps(h0: Heap, h: Heap, t: nat, run: seq<Step>, base: nat, p: seq<nat>, diff: nat, target: Target)
    requires OnItsWay(h0, h, t, base, p, diff, target) && CanRun(h, run) && Undisturbed(run, t)
    requires Tree(h.parents) && base < |h.parents| && p == Path(h.parents, base)
    ensures OnItsWay(h0, After(h, run), t, base, p, diff, target)
    decreases |run|
  {
    if run != [] {
      var g := Next(h, run[0]);
      assert Undisturbed(run[1..], t);
      hide Path, Next, WellFormed, OnItsWay, Enabled;
      if run[0] == Load(t) { LoadAlone(h0, h, t, base, p, diff, target); }
      else if run[0] == UndoOne(t) { UndoAlone(h0, h, t, base, p, diff, target); }
      else { CasAlone(h0, h, t, base, p, diff, target); }
      SameTree(h0, h, g, t, base, p, diff, target);
      AloneKeeps(h0, g, t, run[1..], base, p, diff, target);
    }
  }

  lemma SameTree(h0: Heap, h: Heap, g: Heap, t: nat, base: nat, p: seq<nat>, diff: nat, target: Target)
    requires OnItsWay(h0, h, t, base, p, diff, target) && OnItsWay(h0, g, t, base, p, diff, target)
    ensures g.parents == h.parents
  {
  }

  /**
    A reservation that no other thread disturbs ends as mem_reserve does alone:
    it is refused only if some context of the path has no room, and then nothing
    has changed; otherwise the whole path counts the bytes.
   */
  lemma ReserveAlone(h: Heap, t: nat, run: seq<Step>)
    requires CanRun(h, run) && Undisturbed(run, t) && WellFormed(h) && t < |h.ops|
    requires h.ops[t].Reserving? && h.ops[t].i == 0 && h.ops[t].seen == None && h.ops[t].base < |h.parents|
    ensures var o, g := h.ops[t], After(h, run);
            var p := Path(h.parents, o.base);
            && t < |g.ops| && g == h.(ops := h.ops[t := g.ops[t]], counts := g.counts)
            && (g.ops[t].Idle? ==> !RoomIn(h, p, o.diff) && g.counts == h.counts)
            && (g.ops[t].Reserved? ==>
                  RoomIn(h, p, o.diff) && g.ops[t] == Reserved(o.base, o.diff, o.target) && Shifted(h.counts, g.counts, p, o.diff))
  {
    hide Path, After, CanRun;
    var o := h.ops[t];
    var p := Path(h.parents, o.base);
    assert OpOk(h, o);
    assert p[..0] == [];
    AloneKeeps(h, h, t, run, o.base, p, o.diff, o.target);
  }

  /** Nothing is ruled out: an idle thread may ask for any bytes anywhere, any other can go on, whatever the others do. */
  lemma NothingRuledOut(h: Heap, t: nat, base: nat, size: nat, block: nat)
    requires WellFormed(h) && t < |h.ops|
    ensures h.ops[t].Idle? ==>
              && (base < |h.parents| && size > 0 ==> Enabled(h, Alloc(t, base, size)))
              && (Owned(h, block) && h.blocks[block].size > 0 ==>
                    && Enabled(h, Free(t, block)) && (size > 0 ==> Enabled(h, Extend(t, block, size)))
                    && (size < h.blocks[block].size ==> Enabled(h, Shrink(t, block, size))))
    ensures h.ops[t].Reserving? ==> Enabled(h, Load(t)) || (Enabled(h, Cas(t, false)) && Enabled(h, Cas(t, true)))
    ensures h.ops[t].Reserved? ==> Enabled(h, Commit(t)) && Enabled(h, Fail(t))
    ensures h.ops[t].Undoing? ==> Enabled(h, UndoOne(t))
    ensures h.ops[t].Unreserving? ==> Enabled(h, UnreserveOne(t))
  {
    hide Path, OpOk;
  }
}
