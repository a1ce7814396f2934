/**
  Local declarations of functions (lib/module.c:1017-1095 and
  lib/module_writer.c:387-396). The reader drops chunks of no locals but keeps
  their number, so that what it stores ends in entries that are all zero; the
  writer writes those out, and the reader does not accept them.
 */
module Locals {
  import opened Leb
  import opened Writer
  import opened Reader
  import opened RoundTrip
  import G = Grammar

  /** An entry of the array of chunks. */
  datatype Entry = Entry(n: u32, typ: byte)

  const UNUSED: Entry := Entry(0, 0)

  /** The array of chunks: `used` of its entries, and the rest zero. */
  datatype LocalType = LocalType(chunks: seq<Entry>, nlocals: nat)

  function Total(es: seq<Entry>): nat { if es == [] then 0 else es[0].n + Total(es[1..]) }

  /** The declared entries, as they stand in the bytes; `total` locals are declared before. */
  function DecEntries(s: seq<byte>, n: nat, total: nat): (d: Decoded<seq<Entry>>)
    ensures d.Some? ==> d.value.1 <= |s| && |d.value.0| == n
    decreases n
  {
    if n == 0 then Some(([], 0))
    else match DecU32(s)
      case None => None
      case Some(c) =>
        if U32_MAX < total + c.0 || c.1 >= |s| || !IsValtype(s[c.1]) then None
        else match DecEntries(s[c.1 + 1..], n - 1, total + c.0)
          case None => None
          case Some(q) => Some(([Entry(c.0, s[c.1])] + q.0, c.1 + 1 + q.1))
  }

  function NotEmpty(es: seq<Entry>): (r: seq<Entry>)
    ensures |r| <= |es|
  {
    if es == [] then [] else (if es[0].n == 0 then [] else [es[0]]) + NotEmpty(es[1..])
  }

  function Unused(n: nat): seq<Entry> { seq(n, _ => UNUSED) }

  /** What is stored of some entries: those that declare something, then nothing. */
  function Stored(es: seq<Entry>): seq<Entry> { NotEmpty(es) + Unused(|es| - |NotEmpty(es)|) }

  /** read_locals */
  function DecLocals(s: seq<byte>): Decoded<LocalType> {
    match DecU32(s)
    case None => None
    case Some(n) =>
      match DecEntries(s[n.1..], n.0, 0)
      case None => None
      case Some(q) => Some((LocalType(Stored(q.0), Total(q.0)), n.1 + q.1))
  }

  // ---- the reader ----

  lemma {:induction false} NotEmptyMore(es: seq<Entry>, e: Entry)
    ensures NotEmpty(es + [e]) == NotEmpty(es) + if e.n == 0 then [] else [e]
    ensures Total(es + [e]) == Total(es) + e.n
    decreases es
  {
    if es == [] {
      assert es + [e] == [e];
      assert [e][1..] == [];
    } else {
      assert (es + [e])[1..] == es[1..] + [e];
      NotEmptyMore(es[1..], e);
    }
  }

  /** One entry, and the others. */
  lemma EntryStep(s: seq<byte>, n: nat, total: nat)
    requires n > 0
    ensures DecU32(s).None? ==> DecEntries(s, n, total).None?
    ensures DecU32(s).Some? ==>
              var c := DecU32(s).value;
              if U32_MAX < total + c.0 || c.1 >= |s| || !IsValtype(s[c.1]) then DecEntries(s, n, total).None?
              else DecEntries(s, n, total) == Later(DecEntries(s[c.1 + 1..], n - 1, total + c.0), [Entry(c.0, s[c.1])], c.1 + 1)
  {
    hide DecU32;
  }

  lemma NoEntry(s: seq<byte>, total: nat)
    ensures DecEntries(s, 0, total) == Some(([], 0))
  {
  }

  /** The array after the entry `e` in the bytes. */
  lemma OneStored(chunks: seq<Entry>, es: seq<Entry>, e: Entry, at: nat, now: seq<Entry>)
    requires at == |NotEmpty(es)| < |chunks| && chunks[..at] == NotEmpty(es)
    requires forall k :: at <= k < |chunks| ==> chunks[k] == UNUSED
    requires now == if e.n > 0 then chunks[at := e] else chunks
    ensures var at2 := |NotEmpty(es + [e])|;
            at2 == (if e.n > 0 then at + 1 else at) && now[..at2] == NotEmpty(es + [e])
            && forall k :: at2 <= k < |now| ==> now[k] == UNUSED
  {
    hide NotEmpty;
    NotEmptyMore(es, e);
  }

  /** The local declarations that some entries at `p` are. */
  function LocalsOf(d: Decoded<seq<Entry>>, p: nat): Option<(LocalType, nat)> {
    match d case None => None case Some(q) => Some((LocalType(Stored(q.0), Total(q.0)), p + q.1))
  }

  /** read_locals */
  method ReadLocals(buf: seq<byte>, p: nat, ep: nat) returns (r: Option<(LocalType, nat)>)
    requires p <= ep <= |buf|
    ensures r == At(DecLocals(buf[p..ep]), p)
  {
    hide DecU32, DecEntries, Stored, Total;
    var c := ReadU32(buf, p, ep);
    if c.None? { return None; }
    assert buf[p..ep][c.value.1 - p..] == buf[c.value.1..ep];
    r := ReadEntries(buf, c.value.1, ep, c.value.0);
  }

  /** The loop of read_locals, on the array that was allocated. */
  method ReadEntries(buf: seq<byte>, q0: nat, ep: nat, count: nat) returns (r: Option<(LocalType, nat)>)
    requires q0 <= ep <= |buf|
    ensures r == LocalsOf(DecEntries(buf[q0..ep], count, 0), q0)
  {
    hide DecU32, NotEmpty, Total, DecEntries, Later;
    var q := q0;
    var chunks := new Entry[count](_ => UNUSED);
    var nlocals: nat, i: nat, at: nat := 0, 0, 0;
    ghost var es: seq<Entry> := [];
    assert NotEmpty([]) == [] && Total([]) == 0 by { NoEntries(); }
    LaterNothing(DecEntries(buf[q..ep], count, 0));
    while i < count
      invariant i == |es| <= count && q0 <= q <= ep && nlocals == Total(es)
      invariant DecEntries(buf[q0..ep], count, 0) == Later(DecEntries(buf[q..ep], count - i, nlocals), es, q - q0)
      invariant at == |NotEmpty(es)| <= i && chunks[..at] == NotEmpty(es)
      invariant forall k :: at <= k < count ==> chunks[k] == UNUSED
    {
      EntryStep(buf[q..ep], count - i, nlocals);
      LaterNone<Entry>(es, q - q0);
      var d := ReadU32(buf, q, ep);
      if d.None? { return None; }
      var n, t := d.value.0, d.value.1;
      if U32_MAX < nlocals + n { return None; }
      if t >= ep || !IsValtype(buf[t]) { return None; }
      var e := Entry(n, buf[t]);
      assert buf[q..ep][t + 1 - q..] == buf[t + 1..ep] && buf[q..ep][t - q] == buf[t];
      LaterOnce(DecEntries(buf[t + 1..ep], count - i - 1, nlocals + n), es, q - q0, (e, t + 1 - q));
      NotEmptyMore(es, e);
      ghost var was := chunks[..];
      if n > 0 {
        chunks[at] := e;
        at := at + 1;
      }
      OneStored(was, es, e, |NotEmpty(es)|, chunks[..]);
      es := es + [e];
      nlocals := nlocals + n;
      q := t + 1;
      i := i + 1;
    }
    NoEntry(buf[q..ep], nlocals);
    LaterSome<Entry>([], 0, es, q - q0);
    assert es + [] == es;
    assert chunks[..] == Stored(es);
    return Some((LocalType(chunks[..], nlocals), q));
  }

  lemma NoEntries()
    ensures NotEmpty([]) == [] && Total([]) == 0
  {
  }

  // ---- the writer ----

  function EntriesChunks(es: seq<Entry>): Chunks {
    if es == [] then [] else LebChunks(es[0].n) + [[es[0].typ]] + EntriesChunks(es[1..])
  }

  /** write_locals */
  function LocalsChunks(lt: LocalType): Chunks { LebChunks(|lt.chunks|) + EntriesChunks(lt.chunks) }

  method WriteLocals(w: ByteWriter, lt: LocalType)
    requires |lt.chunks| <= U32_MAX
    modifies w
    ensures w.Abs() == PutAll(w.kind, old(w.Abs()), LocalsChunks(lt))
  {
    hide PutAll, LebChunks;
    PutAllConcat(w.kind, w.Abs(), LebChunks(|lt.chunks|), EntriesChunks(lt.chunks));
    w.WriteLebU32(|lt.chunks|);
    var i := 0;
    assert lt.chunks[0..] == lt.chunks;
    while i < |lt.chunks|
      invariant i <= |lt.chunks|
      invariant PutAll(w.kind, w.Abs(), EntriesChunks(lt.chunks[i..])) == PutAll(w.kind, old(w.Abs()), LocalsChunks(lt))
    {
      var e := lt.chunks[i];
      assert lt.chunks[i..][1..] == lt.chunks[i + 1..];
      PutAllConcat(w.kind, w.Abs(), LebChunks(e.n) + [[e.typ]], EntriesChunks(lt.chunks[i + 1..]));
      PutAllConcat(w.kind, w.Abs(), LebChunks(e.n), [[e.typ]]);
      w.WriteLebU32(e.n);
      PutOne(w.kind, w.Abs(), [e.typ]);
      w.Write([e.typ]);
      i := i + 1;
    }
    PutNone(w.kind, w.Abs());
  }

  // ---- round trip ----

  /** Entries that read_locals can have stored. */
  predicate StoredOk(es: seq<Entry>) {
    forall i :: 0 <= i < |es| ==> es[i] == UNUSED || (es[i].n > 0 && IsValtype(es[i].typ))
  }

  predicate AllUsed(es: seq<Entry>) { forall i :: 0 <= i < |es| ==> es[i] != UNUSED }

  lemma {:induction false} DecodedStored(s: seq<byte>, n: nat, total: nat)
    requires DecEntries(s, n, total).Some?
    ensures StoredOk(NotEmpty(DecEntries(s, n, total).value.0)) && AllUsed(NotEmpty(DecEntries(s, n, total).value.0))
    ensures total <= U32_MAX ==> total + Total(DecEntries(s, n, total).value.0) <= U32_MAX
    decreases n
  {
    hide DecU32;
    if n > 0 {
      var c := DecU32(s).value;
      DecodedStored(s[c.1 + 1..], n - 1, total + c.0);
      var es := DecEntries(s, n, total).value.0;
      assert es[1..] == DecEntries(s[c.1 + 1..], n - 1, total + c.0).value.0;
    }
  }

  /** Written entries are restored up to the first one that is unused, which is refused. */
  lemma {:induction false} EntriesRestored(es: seq<Entry>, total: nat, rest: seq<byte>)
    requires StoredOk(es) && total + Total(es) <= U32_MAX
    ensures DecEntries(Flat(EntriesChunks(es)) + rest, |es|, total) ==
            if AllUsed(es) then Some((es, |Flat(EntriesChunks(es))|)) else None
    decreases es
  {
    hide DecU32, LebChunks, Flat, DecEntries, StoredOk, AllUsed;
    if es == [] {
      Nothing();
      NoEntry(rest, total);
      NothingUsed();
      assert [] + rest == rest;
    } else {
      var e, tl := es[0], es[1..];
      var more := Flat(EntriesChunks(tl)) + rest;
      EntryFront(e, tl, rest);
      U32Restored(e.n, [e.typ] + more);
      var s, k := Flat(EntriesChunks(es)) + rest, |Flat(LebChunks(e.n))|;
      assert s[k] == e.typ && s[k + 1..] == more;
      EntryStep(s, |es|, total);
      UsedTail(es);
      EntriesRestored(tl, total + e.n, rest);
      assert [e] + tl == es;
    }
  }

  lemma EntryFront(e: Entry, tl: seq<Entry>, rest: seq<byte>)
    ensures var es := [e] + tl;
            Flat(EntriesChunks(es)) + rest == Flat(LebChunks(e.n)) + ([e.typ] + (Flat(EntriesChunks(tl)) + rest))
    ensures |Flat(EntriesChunks([e] + tl))| == |Flat(LebChunks(e.n))| + 1 + |Flat(EntriesChunks(tl))|
  {
    hide LebChunks;
    assert ([e] + tl)[1..] == tl;
    FlatConcat(LebChunks(e.n) + [[e.typ]], EntriesChunks(tl));
    FlatConcat(LebChunks(e.n), [[e.typ]]);
    One([e.typ]);
  }

  lemma NothingUsed()
    ensures AllUsed([])
  {
  }

  lemma UsedTail(es: seq<Entry>)
    requires es != []
    ensures AllUsed(es) <==> es[0] != UNUSED && AllUsed(es[1..])
    ensures StoredOk(es) ==> StoredOk(es[1..]) && (es[0] == UNUSED || (es[0].n > 0 && IsValtype(es[0].typ)))
    ensures !IsValtype(0)
  {
    assert forall i :: 0 < i < |es| ==> es[i] == es[1..][i - 1];
  }

  lemma {:induction false} UnusedTotal(es: seq<Entry>, n: nat)
    ensures Total(es + Unused(n)) == Total(es)
    decreases |es| + n
  {
    if es != [] {
      assert (es + Unused(n))[1..] == es[1..] + Unused(n);
      UnusedTotal(es[1..], n);
    } else if n > 0 {
      assert (es + Unused(n))[1..] == [] + Unused(n - 1);
      UnusedTotal([], n - 1);
    }
  }

  /** No entry declares no locals. */
  predicate EachDeclares(es: seq<Entry>) { forall i :: 0 <= i < |es| ==> es[i].n > 0 }

  lemma DeclaresTail(es: seq<Entry>)
    requires es != []
    ensures EachDeclares(es) <==> es[0].n > 0 && EachDeclares(es[1..])
  {
    assert forall i :: 0 < i < |es| ==> es[i] == es[1..][i - 1];
  }

  lemma {:induction false} StoredTotal(es: seq<Entry>)
    ensures Total(NotEmpty(es)) == Total(es)
    ensures |NotEmpty(es)| == |es| <==> EachDeclares(es)
    decreases es
  {
    if es != [] {
      StoredTotal(es[1..]);
      DeclaresTail(es);
      var u := NotEmpty(es[1..]);
      assert ([es[0]] + u)[1..] == u && [] + u == u;
    }
  }

  lemma {:induction false} UsedIsNotEmpty(es: seq<Entry>)
    requires StoredOk(es) && AllUsed(es)
    ensures NotEmpty(es) == es
    decreases es
  {
    if es != [] {
      assert forall i :: 0 < i < |es| ==> es[i] == es[1..][i - 1];
      UsedIsNotEmpty(es[1..]);
    }
  }

  /** The declarations in `s`. */
  function Declared(s: seq<byte>): seq<Entry>
    requires DecLocals(s).Some?
  {
    DecEntries(s[DecU32(s).value.1..], DecU32(s).value.0, 0).value.0
  }

  /** What is stored of `s`. */
  lemma StoredFacts(s: seq<byte>)
    requires DecLocals(s).Some?
    ensures var lt := DecLocals(s).value.0;
            && StoredOk(lt.chunks) && Total(lt.chunks) == lt.nlocals <= U32_MAX && |lt.chunks| == |Declared(s)| <= U32_MAX
            && (AllUsed(lt.chunks) <==> EachDeclares(Declared(s)))
            && (AllUsed(lt.chunks) ==> Stored(lt.chunks) == lt.chunks)
  {
    hide DecU32, Total, NotEmpty, EachDeclares;
    var es, lt := Declared(s), DecLocals(s).value.0;
    DecodedStored(s[DecU32(s).value.1..], DecU32(s).value.0, 0);
    var u := NotEmpty(es);
    StoredTotal(es);
    UnusedTotal(u, |es| - |u|);
    if |u| < |es| { assert lt.chunks[|u|] == UNUSED; }
    if |u| == |es| { assert lt.chunks == u; }
    if AllUsed(lt.chunks) {
      assert |u| == |es|;
      UsedIsNotEmpty(lt.chunks);
      assert Unused(0) == [];
    }
  }

  /**
    Local declarations that were read are restored exactly if none of them
    declared no locals; otherwise the reader refuses what the writer wrote.
   */
  lemma LocalsRestored(s: seq<byte>, rest: seq<byte>)
    requires DecLocals(s).Some?
    ensures var lt := DecLocals(s).value.0;
            DecLocals(Flat(LocalsChunks(lt)) + rest) ==
            if EachDeclares(Declared(s)) then Some((lt, |Flat(LocalsChunks(lt))|)) else None
  {
    hide DecU32, Total, NotEmpty, LebChunks, Flat, StoredOk, AllUsed, Declared, Stored, EntriesChunks;
    var lt := DecLocals(s).value.0;
    StoredFacts(s);
    Front(LebChunks(|lt.chunks|), EntriesChunks(lt.chunks), rest);
    U32Restored(|lt.chunks|, Flat(EntriesChunks(lt.chunks)) + rest);
    EntriesRestored(lt.chunks, 0, rest);
  }

  /** Such declarations exist: one chunk of no locals. */
  lemma NotAlwaysRestored() returns (s: seq<byte>)
    ensures DecLocals(s).Some? && DecLocals(Flat(LocalsChunks(DecLocals(s).value.0))).None?
  {
    hide DecU32, LocalsChunks, Flat;
    s := [1, 0, 0x7f];
    assert LebChunks(1) == [[1]] && LebChunks(0) == [[0]];
    One([1]);
    One([0]);
    U32Restored(1, [0, 0x7f]);
    U32Restored(0, [0x7f]);
    assert s == Flat(LebChunks(1)) + [0, 0x7f] && s[1..] == Flat(LebChunks(0)) + [0x7f];
    assert DecEntries(s[1..][2..], 0, 0) == Some(([], 0));
    assert s[1..][1] == 0x7f;
    assert DecEntries(s[1..], 1, 0) == Some(([Entry(0, 0x7f)] + [], 2));
    assert Declared(s) == [Entry(0, 0x7f)] + [];
    assert Declared(s)[0].n == 0;
    LocalsRestored(s, []);
    var b := Flat(LocalsChunks(DecLocals(s).value.0));
    assert b + [] == b;
  }

  // ---- which bytes are local declarations, and what they declare ----

  ghost predicate EntryForm(b: seq<byte>, e: Entry) {
    exists k: nat :: k < |b| && G.IntForm(b[..k], e.n) && IsValtype(e.typ) && G.ValForm(b[k..], e.typ)
  }

  /** Pairs of a number and a type, not more than 2^32 - 1 locals in all. */
  ghost predicate LocalsForm(b: seq<byte>, lt: LocalType) {
    exists es: seq<Entry> :: G.VecForm(b, es, EntryForm) && Total(es) <= U32_MAX && lt == LocalType(Stored(es), Total(es))
  }

  /** One entry. */
  function DecEntry(s: seq<byte>): Decoded<Entry> {
    match DecU32(s)
    case None => None
    case Some(c) => if c.1 >= |s| || !IsValtype(s[c.1]) then None else Some((Entry(c.0, s[c.1]), c.1 + 1))
  }

  lemma {:induction false} EntriesAre(s: seq<byte>, n: nat, total: nat)
    requires total <= U32_MAX
    ensures var d := DecSeq(DecEntry, s, n);
            DecEntries(s, n, total) == if d.Some? && total + Total(d.value.0) <= U32_MAX then d else None
    decreases n
  {
    hide DecU32, DecSeq, DecEntries, Later;
    if n == 0 {
      NoEntry(s, total);
      NoElements(DecEntry, s);
    } else {
      OneElement(DecEntry, s, n);
      EntryStep(s, n, total);
      if DecEntry(s).Some? {
        var (e, k) := DecEntry(s).value;
        var d := DecSeq(DecEntry, s[k..], n - 1);
        LaterNone<Entry>([e], k);
        if d.Some? {
          LaterSome(d.value.0, d.value.1, [e], k);
          assert ([e] + d.value.0)[1..] == d.value.0;
        }
        if total + e.n <= U32_MAX { EntriesAre(s[k..], n - 1, total + e.n); }
      }
    }
  }

  lemma EntryExact(s: seq<byte>, e: Entry, n: nat)
    ensures DecEntry(s) == Some((e, n)) <==> n <= |s| && EntryForm(s[..n], e)
  {
    hide DecU32, G.IntForm, IsValtype;
    if DecEntry(s).Some? {
      var (v, k) := DecU32(s).value;
      G.IntExact(s, v, k);
      G.TypeBytes(s[k]);
      if n == k + 1 { assert s[..n][..k] == s[..k] && s[..n][k..] == [s[k]]; }
    }
    if n <= |s| && EntryForm(s[..n], e) {
      var k: nat :| k < n && G.IntForm(s[..n][..k], e.n) && IsValtype(e.typ) && G.ValForm(s[..n][k..], e.typ);
      assert s[..n][..k] == s[..k] && s[..n][k..][0] == s[k];
      G.IntExact(s, e.n, k);
    }
  }

  /** On every input: what is read, and how far, is what the form says. */
  lemma LocalsExact(s: seq<byte>, lt: LocalType, n: nat)
    ensures DecLocals(s) == Some((lt, n)) <==> n <= |s| && LocalsForm(s[..n], lt)
  {
    hide DecU32, DecSeq, DecEntries, EntryForm, DecEntry, G.VecForm, Stored, Total;
    forall b, e, k: nat ensures DecEntry(b) == Some((e, k)) <==> k <= |b| && EntryForm(b[..k], e) { EntryExact(b, e, k); }
    assert G.Exact(DecEntry, EntryForm);
    hide G.Exact;
    if DecU32(s).Some? { EntriesAre(s[DecU32(s).value.1..], DecU32(s).value.0, 0); }
    if DecLocals(s) == Some((lt, n)) {
      var es := DecVec(DecEntry, s).value.0;
      G.VecExact(DecEntry, EntryForm, s, es, n);
    }
    if n <= |s| && LocalsForm(s[..n], lt) {
      var es :| G.VecForm(s[..n], es, EntryForm) && Total(es) <= U32_MAX && lt == LocalType(Stored(es), Total(es));
      G.VecExact(DecEntry, EntryForm, s, es, n);
    }
  }

  /** The types of the locals that some entries declare, one by one. */
  function TypesOf(es: seq<Entry>): seq<byte> {
    if es == [] then [] else seq(es[0].n, _ => es[0].typ) + TypesOf(es[1..])
  }

  lemma {:induction false} TypesConcat(a: seq<Entry>, b: seq<Entry>)
    ensures TypesOf(a + b) == TypesOf(a) + TypesOf(b)
    decreases a
  {
    if a == [] {
      assert a + b == b;
    } else {
      assert (a + b)[1..] == a[1..] + b;
      TypesConcat(a[1..], b);
    }
  }

  /** Dropping the chunks of no locals changes neither the locals nor the length of the array. */
  lemma {:induction false} StoredMeans(es: seq<Entry>)
    ensures TypesOf(Stored(es)) == TypesOf(es) && |TypesOf(es)| == Total(es) && |Stored(es)| == |es|
    decreases es
  {
    TypesConcat(NotEmpty(es), Unused(|es| - |NotEmpty(es)|));
    UnusedTypes(|es| - |NotEmpty(es)|);
    if es != [] {
      var tl := es[1..];
      StoredMeans(tl);
      TypesConcat(NotEmpty(tl), Unused(|tl| - |NotEmpty(tl)|));
      UnusedTypes(|tl| - |NotEmpty(tl)|);
      TypesConcat(if es[0].n == 0 then [] else [es[0]], NotEmpty(tl));
    }
  }

  lemma {:induction false} UnusedTypes(n: nat)
    ensures TypesOf(Unused(n)) == []
    decreases n
  {
    if n > 0 {
      assert Unused(n)[1..] == Unused(n - 1);
      UnusedTypes(n - 1);
    }
  }
}
