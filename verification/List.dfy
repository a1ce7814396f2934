/**
  The tail queue (lib/list.c, lib/list.h): a head with the first element and a
  pointer to the last next-pointer, and in every element a pointer to the
  next-pointer that points to it. A pointer to a pointer is a Loc: it names the
  field of the head or of an element that it points to.
 */
module List {

  datatype Loc = Unset | FirstOf(h: Head) | NextOf(e: Elem)

  /** The pointer that points to element `i` of `items`, or, past the end, holds null. */
  ghost function Slot(h: Head, items: seq<Elem>, i: nat): Loc
    requires i <= |items|
  {
    if i == 0 then FirstOf(h) else NextOf(items[i - 1])
  }

  ghost predicate Distinct(s: seq<Elem>) { forall i, j :: 0 <= i < j < |s| ==> s[i] != s[j] }

  lemma OtherThan(s: seq<Elem>, i: nat)
    requires Distinct(s) && i < |s|
    ensures forall k :: 0 <= k < |s| && k != i ==> s[k] != s[i]
  {
  }

  lemma DistinctConcat(a: seq<Elem>, b: seq<Elem>)
    requires Distinct(a) && Distinct(b) && forall e :: e in a ==> e !in b
    ensures Distinct(a + b)
  {
    forall i, j | 0 <= i < j < |a + b| ensures (a + b)[i] != (a + b)[j] {
      if i < |a| <= j { assert a[i] in a && b[j - |a|] in b; }
    }
  }

  lemma SingleDistinct(e: Elem)
    ensures Distinct([e])
  {
  }

  lemma DistinctWithout(s: seq<Elem>, i: nat)
    requires Distinct(s) && i < |s|
    ensures Distinct(s[..i] + s[i + 1..])
  {
  }

  /** `s` is linked, its first element from `before`, its last one to `after`. */
  ghost predicate Linked(s: seq<Elem>, before: Loc, after: Elem?)
    reads s
  {
    && (forall i {:trigger s[i].next} :: 0 <= i < |s| ==> s[i].next == if i + 1 < |s| then s[i + 1] else after)
    && (forall i {:trigger s[i].prevnextp} :: 0 <= i < |s| ==> s[i].prevnextp == if i == 0 then before else NextOf(s[i - 1]))
  }

  /** Where a sequence of elements leaves off. */
  ghost function End(s: seq<Elem>, before: Loc): Loc { if s == [] then before else NextOf(s[|s| - 1]) }

  lemma LinkedConcat(a: seq<Elem>, b: seq<Elem>, before: Loc, after: Elem?)
    requires Linked(a, before, if b == [] then after else b[0]) && Linked(b, End(a, before), after)
    ensures Linked(a + b, before, after) && End(a + b, before) == End(b, End(a, before))
  {
    var s := a + b;
    forall i | 0 <= i < |s| ensures s[i].next == if i + 1 < |s| then s[i + 1] else after {
      if i < |a| { assert s[i] == a[i]; } else { assert s[i] == b[i - |a|]; }
    }
    forall i | 0 <= i < |s| ensures s[i].prevnextp == if i == 0 then before else NextOf(s[i - 1]) {
      if i < |a| { assert s[i] == a[i]; } else { assert s[i] == b[i - |a|]; }
    }
  }

  lemma LinkedParts(a: seq<Elem>, b: seq<Elem>, before: Loc, after: Elem?)
    requires Linked(a + b, before, after)
    ensures Linked(a, before, if b == [] then after else b[0]) && Linked(b, End(a, before), after)
  {
    var s := a + b;
    forall i | 0 <= i < |a| ensures a[i].next == (if i + 1 < |a| then a[i + 1] else if b == [] then after else b[0])
                              && a[i].prevnextp == if i == 0 then before else NextOf(a[i - 1]) {
      assert s[i] == a[i];
    }
    forall i | 0 <= i < |b| ensures b[i].next == (if i + 1 < |b| then b[i + 1] else after)
                              && b[i].prevnextp == if i == 0 then End(a, before) else NextOf(b[i - 1]) {
      assert s[|a| + i] == b[i];
    }
  }

  class Elem {
    var next: Elem?
    var prevnextp: Loc

    constructor ()
    {
      next, prevnextp := null, Unset;
    }
  }

  class Head {
    var first: Elem?
    var tailnextp: Loc
    /** The elements on the list. */
    ghost var items: seq<Elem>

    /** list_head_init */
    constructor ()
      ensures Valid() && items == []
    {
      first, items := null, [];
      new;
      tailnextp := FirstOf(this);
    }

    /** list_head_init, of a head that exists. */
    method Init()
      modifies this
      ensures Valid() && items == []
    {
      first := null;
      tailnextp := FirstOf(this);
      items := [];
    }


    ghost predicate Valid()
      reads this, items
    {
      && Distinct(items)
      && first == (if items == [] then null else items[0])
      && tailnextp == Slot(this, items, |items|)
      && Linked(items, FirstOf(this), null)
    }

    /** The position of an element on the list. */
    ghost function At(e: Elem): (i: nat)
      requires e in items
      reads this
      ensures i < |items| && items[i] == e
    {
      var i: nat :| i < |items| && items[i] == e;
      i
    }

    // ---- reading ----

    /** LIST_LAST: the element that holds the last next-pointer. */
    method Last() returns (e: Elem?)
      requires Valid()
      ensures e == if items == [] then null else items[|items| - 1]
    {
      if first == null { return null; }
      return tailnextp.e;
    }

    /** LIST_PREV */
    method Prev(e: Elem) returns (p: Elem?)
      requires Valid() && e in items
      ensures p == if At(e) == 0 then null else items[At(e) - 1]
    {
      if first == e { return null; }
      return e.prevnextp.e;
    }

    /** The walk of list_check2: it meets every element once, and its assertions hold. */
    method Check(e: Elem) returns (onList: bool)
      requires Valid()
      ensures onList <==> e in items
    {
      onList := false;
      var elem := first;
      ghost var i := 0;
      while elem != null
        invariant i <= |items| && elem == (if i < |items| then items[i] else null)
        invariant onList <==> e in items[..i]
        decreases |items| - i
      {
        if elem == e { onList := true; }
        assert Deref(elem.prevnextp) == elem && elem.next != elem;
        assert elem.next == null ==> tailnextp == NextOf(elem);
        assert items[..i + 1] == items[..i] + [items[i]];
        elem := elem.next;
        i := i + 1;
      }
      assert items[..i] == items;
    }

    // ---- updates ----

    method InsertTail(e: Elem)
      requires Valid() && e !in items
      modifies this, items, e
      ensures Valid() && items == old(items) + [e]
    {
      hide Distinct;
      ghost var was := items;
      if was != [] { OtherThan(was, |was| - 1); }
      SingleDistinct(e);
      DistinctConcat(was, [e]);
      e.prevnextp := tailnextp;
      Assign(tailnextp, e);
      tailnextp := NextOf(e);
      e.next := null;
      items := items + [e];
      LinkedConcat(was, [e], FirstOf(this), null);
    }

    method InsertHead(e: Elem)
      requires Valid() && e !in items
      modifies this, items, e
      ensures Valid() && items == [e] + old(items)
    {
      hide Distinct;
      ghost var was := items;
      if was != [] { OtherThan(was, 0); }
      SingleDistinct(e);
      DistinctConcat([e], was);
      if first == null {
        tailnextp := NextOf(e);
      } else {
        first.prevnextp := NextOf(e);
      }
      e.next := first;
      e.prevnextp := FirstOf(this);
      first := e;
      items := [e] + items;
      LinkedConcat([e], was, FirstOf(this), null);
    }

    /** The pointer updates of list_remove, between the elements before and after. */
    method Bypass(e: Elem, ghost a: seq<Elem>, ghost b: seq<Elem>)
      requires Linked(a, FirstOf(this), e) && Linked(b, NextOf(e), null)
      requires e.prevnextp == End(a, FirstOf(this)) && e.next == (if b == [] then null else b[0])
      requires tailnextp == End(b, NextOf(e)) && first == if a == [] then e else a[0]
      requires a != [] ==> forall k :: 0 <= k < |a| - 1 ==> a[k] != a[|a| - 1]
      requires a != [] ==> forall k :: 0 <= k < |b| ==> b[k] != a[|a| - 1]
      requires b != [] ==> forall k :: 0 < k < |b| ==> b[k] != b[0]
      requires b != [] ==> forall k :: 0 <= k < |a| ==> a[k] != b[0]
      requires (forall k :: 0 <= k < |a| ==> a[k] != e) && (forall k :: 0 <= k < |b| ==> b[k] != e)
      modifies this`first, this`tailnextp, a, b
      ensures Linked(a, FirstOf(this), if b == [] then null else b[0]) && Linked(b, End(a, FirstOf(this)), null)
      ensures tailnextp == End(a + b, FirstOf(this)) && first == if a + b == [] then null else (a + b)[0]
    {
      match e.prevnextp {
        case FirstOf(h) => h.first := e.next;
        case NextOf(p) => p.next := e.next;
      }
      if e.next == null {
        tailnextp := e.prevnextp;
      } else {
        e.next.prevnextp := e.prevnextp;
      }
    }

    /** list_remove, from anywhere on the list. */
    method Remove(e: Elem)
      requires Valid() && e in items
      modifies this, items
      ensures Valid() && items == old(items[..At(e)] + items[At(e) + 1..])
    {
      hide *;
      ghost var i := At(e);
      ghost var a, b := items[..i], items[i + 1..];
      SplitAt(this, e, i);
      PartsApart(a, e, b);
      assert forall k :: 0 <= k < |a| ==> a[k] in items;
      assert forall k :: 0 <= k < |b| ==> b[k] in items;
      Bypass(e, a, b);
      items := a + b;
      LinkedConcat(a, b, FirstOf(this), null);
      Relinked(this);
    }

    /** LIST_SPLICE_TAIL: constant time; `src` is not a list any more unless it was empty. */
    method SpliceTail(src: Head)
      requires Valid() && src.Valid() && src != this
      requires Apart(items, src.items)
      modifies this, items, src.items
      ensures Valid() && items == old(items) + old(src.items)
    {
      hide Distinct, Apart;
      ghost var a, b := items, src.items;
      if src.first == null {
        assert a + b == a;
        return;
      }
      ApartFacts(a, b);
      src.first.prevnextp := tailnextp;
      Assign(tailnextp, src.first);
      tailnextp := src.tailnextp;
      items := a + b;
      LinkedConcat(a, b, FirstOf(this), null);
    }

    /** LIST_SPLICE_HEAD */
    method SpliceHead(src: Head)
      requires Valid() && src.Valid() && src != this
      requires Apart(items, src.items)
      modifies this, items, src, src.items
      ensures Valid() && items == old(src.items) + old(items)
    {
      hide Distinct, Apart;
      ghost var a, b := src.items, items;
      if src.first == null {
        assert a + b == b;
        return;
      }
      ApartSym(b, a);
      ApartFacts(a, b);
      if first == null {
        tailnextp := src.tailnextp;
      } else {
        first.prevnextp := src.tailnextp;
        Assign(src.tailnextp, first);
      }
      first := src.first;
      first.prevnextp := FirstOf(this);
      items := a + b;
      LinkedConcat(a, b, FirstOf(this), null);
    }
  }

  /** The list before and after one of its elements. */
  lemma SplitAt(h: Head, e: Elem, i: nat)
    requires h.Valid() && i < |h.items| && h.items[i] == e
    ensures var a, b := h.items[..i], h.items[i + 1..];
            && h.items == a + ([e] + b)
            && Linked(a, FirstOf(h), e) && Linked(b, NextOf(e), null)
            && e.prevnextp == End(a, FirstOf(h)) && e.next == (if b == [] then null else b[0])
            && h.tailnextp == End(b, NextOf(e)) && (h.first == if a == [] then e else a[0])
            && Distinct(a + ([e] + b))
  {
    hide Distinct;
    var a, b := h.items[..i], h.items[i + 1..];
    assert h.items == a + ([e] + b);
    LinkedParts(a, [e] + b, FirstOf(h), null);
    LinkedParts([e], b, End(a, FirstOf(h)), null);
    assert [e][0].next == e.next && [e][0].prevnextp == e.prevnextp;
  }

  lemma Relinked(h: Head)
    requires Distinct(h.items) && Linked(h.items, FirstOf(h), null)
    requires h.tailnextp == End(h.items, FirstOf(h)) && h.first == if h.items == [] then null else h.items[0]
    ensures h.Valid()
  {
  }

  /** Around an element that is removed. */
  lemma PartsApart(a: seq<Elem>, e: Elem, b: seq<Elem>)
    requires Distinct(a + ([e] + b))
    ensures Distinct(a + b)
    ensures a != [] ==> forall k :: 0 <= k < |a| - 1 ==> a[k] != a[|a| - 1]
    ensures a != [] ==> forall k :: 0 <= k < |b| ==> b[k] != a[|a| - 1]
    ensures b != [] ==> forall k :: 0 < k < |b| ==> b[k] != b[0]
    ensures b != [] ==> forall k :: 0 <= k < |a| ==> a[k] != b[0]
    ensures (forall k :: 0 <= k < |a| ==> a[k] != e) && (forall k :: 0 <= k < |b| ==> b[k] != e)
  {
    hide Distinct;
    var s := a + ([e] + b);
    assert forall k :: 0 <= k < |a| ==> a[k] == s[k];
    assert forall k :: 0 <= k < |b| ==> b[k] == s[|a| + 1 + k];
    assert e == s[|a|];
    DistinctWithout(s, |a|);
    assert s[..|a|] + s[|a| + 1..] == a + b;
    OtherThan(s, |a|);
    if a != [] { OtherThan(s, |a| - 1); }
    if b != [] { OtherThan(s, |a| + 1); }
  }

  ghost predicate Apart(a: seq<Elem>, b: seq<Elem>) { forall e :: e in a ==> e !in b }

  lemma ApartSym(a: seq<Elem>, b: seq<Elem>)
    requires Apart(a, b)
    ensures Apart(b, a)
  {
  }

  /** What joining two lists needs to know of their ends. */
  lemma ApartFacts(a: seq<Elem>, b: seq<Elem>)
    requires Distinct(a) && Distinct(b) && Apart(a, b)
    ensures Distinct(a + b)
    ensures b != [] ==> forall k :: 0 <= k < |a| ==> a[k] != b[0]
    ensures b != [] ==> forall k :: 0 < k < |b| ==> b[k] != b[0]
    ensures a != [] ==> forall k :: 0 <= k < |b| ==> b[k] != a[|a| - 1]
    ensures a != [] ==> forall k :: 0 <= k < |a| - 1 ==> a[k] != a[|a| - 1]
    ensures a != [] ==> forall k :: 0 < k < |a| ==> a[k] != a[0]
    ensures a != [] ==> forall k :: 0 <= k < |b| ==> b[k] != a[0]
  {
    DistinctConcat(a, b);
    assert forall k :: 0 <= k < |a| ==> a[k] in a;
    assert forall k :: 0 <= k < |b| ==> b[k] in b;
  }

  /** What a pointer to a pointer points to. */
  function Deref(l: Loc): Elem?
    reads match l case Unset => {} case FirstOf(h) => {h as object} case NextOf(e) => {e as object}
  {
    match l case Unset => null case FirstOf(h) => h.first case NextOf(e) => e.next
  }

  /** *l = e */
  method Assign(l: Loc, e: Elem?)
    requires !l.Unset?
    modifies match l case Unset => {} case FirstOf(h) => {h as object} case NextOf(n) => {n as object}
    ensures Deref(l) == e
    ensures l.FirstOf? ==> l.h.tailnextp == old(l.h.tailnextp) && l.h.items == old(l.h.items)
    ensures l.NextOf? ==> l.e.prevnextp == old(l.e.prevnextp)
  {
    match l {
      case FirstOf(h) => h.first := e;
      case NextOf(n) => n.next := e;
    }
  }
}
