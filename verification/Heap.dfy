/**
  Hierarchical heap accounting (lib/mem.c): a reservation counts in a context and
  in all its ancestors, or in none.

  First the functions as they run alone, on objects. Then any interleaving of
  any number of threads, one atomic access at a time: a load of a counter, a
  compare and exchange, a fetch-and-subtract.
 */
module Heap {
  import opened Leb

  // ---- running alone ----

  class MemContext {
    /** The bytes that are reserved (`allocated` in the C code). */
    var inUse: nat
    const limit: nat
    const parent: MemContext?
    /** This context and its ancestors, nearest first. */
    ghost const chain: seq<MemContext>

    constructor (limit: nat, parent: MemContext?)
      requires parent != null ==> parent.Valid()
      ensures Valid() && inUse == 0 && this.limit == limit && this.parent == parent
    {
      inUse := 0;
      this.limit := limit;
      this.parent := parent;
      chain := [this] + if parent == null then [] else parent.chain;
    }

    /** The parent links end at a root. */
    ghost predicate Valid()
      decreases |chain|
    {
      && chain != [] && chain[0] == this
      && if parent == null then |chain| == 1 else chain[1..] == parent.chain && parent.Valid()
    }

    /** No counter is past its limit. */
    ghost predicate WithinLimits()
      reads chain
    {
      forall k :: 0 <= k < |chain| ==> chain[k].inUse <= chain[k].limit
    }

    /** There are `diff` bytes left here and in every ancestor. */
    ghost predicate RoomFor(diff: nat)
      reads chain
    {
      forall k :: 0 <= k < |chain| ==> chain[k].inUse + diff <= chain[k].limit
    }

    /** An ancestor's chain is shorter. */
    lemma Suffixes(k: nat)
      requires Valid() && k < |chain|
      ensures chain[k].chain == chain[k..]
      decreases |chain|
    {
      if k > 0 { parent.Suffixes(k - 1); }
    }

    lemma NotOwnAncestor()
      requires Valid()
      ensures forall k :: 0 < k < |chain| ==> chain[k] != this
    {
      forall k | 0 < k < |chain| ensures chain[k] != this { Suffixes(k); Suffixes(0); }
    }

    method ReserveOne(diff: nat) returns (ok: bool)
      requires inUse <= limit
      modifies this`inUse
      ensures ok <==> old(inUse) + diff <= limit
      ensures inUse == if ok then old(inUse) + diff else old(inUse)
    {
      if limit - inUse < diff { return false; }
      inUse := inUse + diff;
      return true;
    }

    /** mem_reserve: here, then in the ancestors; undone here if that fails. */
    method Reserve(diff: nat) returns (ok: bool)
      requires Valid() && WithinLimits()
      modifies chain
      ensures ok <==> old(RoomFor(diff))
      ensures forall k :: 0 <= k < |chain| ==> chain[k].inUse == old(chain[k].inUse) + if ok then diff else 0
      decreases |chain|
    {
      NotOwnAncestor();
      assert parent != null ==> forall k :: 0 <= k < |parent.chain| ==> parent.chain[k] == chain[k + 1];
      assert forall k :: 0 < k < |chain| ==> parent != null && chain[k] == parent.chain[k - 1];
      ok := ReserveOne(diff);
      if ok && parent != null {
        ok := parent.Reserve(diff);
        if !ok { inUse := inUse - diff; }
      }
    }

    /** mem_unreserve, of bytes that are counted everywhere. */
    method Unreserve(diff: nat)
      requires Valid() && forall k :: 0 <= k < |chain| ==> chain[k].inUse >= diff
      modifies chain
      ensures forall k :: 0 <= k < |chain| ==> chain[k].inUse == old(chain[k].inUse) - diff
      decreases |chain|
    {
      NotOwnAncestor();
      assert parent != null ==> forall k :: 0 <= k < |parent.chain| ==> parent.chain[k] == chain[k + 1];
      assert forall k :: 0 < k < |chain| ==> parent != null && chain[k] == parent.chain[k - 1];
      inUse := inUse - diff;
      if parent != null { parent.Unreserve(diff); }
    }

    /** mem_alloc without the memory itself: `fails` is whether malloc does. */
    method Alloc(sz: nat, fails: bool) returns (ok: bool)
      requires Valid() && WithinLimits()
      modifies chain
      ensures ok <==> old(RoomFor(sz)) && !fails
      ensures forall k :: 0 <= k < |chain| ==> chain[k].inUse == old(chain[k].inUse) + if ok then sz else 0
      ensures WithinLimits()
    {
      ok := Reserve(sz);
      if ok && fails {
        Unreserve(sz);
        ok := false;
      }
    }
  }
}
