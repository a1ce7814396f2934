/**
  Reading what was written gives it again, and writing fails exactly when it
  should not have been possible: the writer of Writer against the decoders of
  Reader.
 */
module RoundTrip {
  import opened Leb
  import opened Writer
  import opened Reader
  import Utf8

  // ---- integers ----

  lemma {:induction false} LebRestored(n: nat, u: nat)
    requires n > 0 && u < Pow2(n)
    ensures UN(n, Flat(LebChunks(u))) == Some(u)
    decreases u
  {
    var bs := Flat(LebChunks(u));
    if u < 128 {
      assert bs == [u];
    } else {
      assert Pow2(7) == 128 by { assert Pow2(3) == 8; }
      if n <= 7 { Pow2Mono(n, 7); }
      Pow2Seven(n - 7);
      LebRestored(n - 7, u / 128);
      assert LebChunks(u)[1..] == LebChunks(u / 128);
      assert bs[1..] == Flat(LebChunks(u / 128));
    }
  }

  lemma U32Restored(u: u32, rest: seq<byte>)
    ensures DecU32(Flat(LebChunks(u)) + rest) == Some((u, |Flat(LebChunks(u))|))
    ensures Flat(LebChunks(u)) != []
  {
    hide DecU32, UN;
    Pow2Of32();
    LebRestored(32, u);
    var bs := Flat(LebChunks(u));
    assert (bs + rest)[..|bs|] == bs;
    DecU32Is(bs + rest, |bs|);
  }

  /** A flattened concatenation, and what is left of it after its first part. */
  lemma Front(a: Chunks, b: Chunks, rest: seq<byte>)
    ensures Flat(a + b) + rest == Flat(a) + (Flat(b) + rest)
    ensures (Flat(a + b) + rest)[|Flat(a)|..] == Flat(b) + rest && |Flat(a + b)| == |Flat(a)| + |Flat(b)|
  {
    FlatConcat(a, b);
  }

  lemma One(b: seq<byte>)
    ensures Flat([b]) == b
  {
    assert [b][1..] == [];
    assert Flat([]) == [];
  }

  // ---- types ----

  lemma {:induction false} TypesRestored(ts: seq<ValType>, rest: seq<byte>)
    ensures DecSeq(DecValtype, Flat(TypesChunks(ts)) + rest, |ts|) == Some((ts, |Flat(TypesChunks(ts))|))
    decreases ts
  {
    var s := Flat(TypesChunks(ts)) + rest;
    if ts != [] {
      var tl := ts[1..];
      Front([[ts[0]]], TypesChunks(tl), rest);
      One([ts[0]]);
      TypesRestored(tl, rest);
      assert s[0] == ts[0] && s[1..] == Flat(TypesChunks(tl)) + rest;
      assert [ts[0]] + tl == ts;
    }
  }

  lemma ResulttypeRestored(ts: seq<ValType>, rest: seq<byte>)
    requires |ts| <= U32_MAX
    ensures DecResulttype(Flat(ResulttypeChunks(ts)) + rest) == Some((ts, |Flat(ResulttypeChunks(ts))|))
  {
    hide DecU32, DecSeq, LebChunks;
    Front(LebChunks(|ts|), TypesChunks(ts), rest);
    U32Restored(|ts|, Flat(TypesChunks(ts)) + rest);
    TypesRestored(ts, rest);
  }

  lemma SignatureRestored(t: Signature, rest: seq<byte>)
    requires SignatureFits(t)
    ensures DecSignature(Flat(SignatureChunks(t)) + rest) == Some((t, |Flat(SignatureChunks(t))|))
  {
    hide DecResulttype, ResulttypeChunks;
    var a, b := ResulttypeChunks(t.params), ResulttypeChunks(t.results);
    Front([[0x60]] + a, b, rest);
    Front([[0x60]], a, Flat(b) + rest);
    One([0x60]);
    var s := Flat(SignatureChunks(t)) + rest;
    assert s[0] == 0x60 && s[1..] == Flat(a) + (Flat(b) + rest);
    ResulttypeRestored(t.params, Flat(b) + rest);
    assert s[1 + |Flat(a)|..] == Flat(b) + rest;
    ResulttypeRestored(t.results, rest);
  }

  lemma NameRestored(n: seq<byte>, rest: seq<byte>)
    requires |n| <= U32_MAX
    ensures DecName(Flat(NameChunks(n)) + rest) == (if Utf8.IsUtf8(n) then Some((n, |Flat(NameChunks(n))|)) else None)
  {
    hide DecU32, Utf8.IsUtf8, Utf8.Valid, LebChunks;
    Front(LebChunks(|n|), [n], rest);
    One(n);
    U32Restored(|n|, n + rest);
    var s, k := Flat(NameChunks(n)) + rest, |Flat(LebChunks(|n|))|;
    assert s[k..k + |n|] == n;
  }

  // ---- limits ----

  /** The bytes of limits, part by part. */
  lemma LimitsParts(lim: Limits, shared: bool, custom: bool, shift: byte, rest: seq<byte>)
    ensures var flags: nat := (if shared then SHARED else 0) + if custom then CUSTOM_PAGE_SIZE else 0;
            var s := Flat(LimitsChunks(lim, shared, custom, shift)) + rest;
            var tail := (if custom then Flat(LebChunks(shift)) else []) + rest;
            var more := if lim.max == U32_MAX then tail else Flat(LebChunks(lim.max)) + tail;
            && s != [] && s[0] == (if lim.max == U32_MAX then flags else flags + 1)
            && s[1..] == Flat(LebChunks(lim.min)) + more
            && |Flat(LimitsChunks(lim, shared, custom, shift))| == |s| - |rest|
  {
    hide LebChunks, Flat;
    var flags: nat := (if shared then SHARED else 0) + if custom then CUSTOM_PAGE_SIZE else 0;
    var f := [if lim.max == U32_MAX then flags else flags + 1];
    var maxs, end := if lim.max == U32_MAX then [] else LebChunks(lim.max), if custom then LebChunks(shift) else [];
    assert LimitsChunks(lim, shared, custom, shift) == [f] + (LebChunks(lim.min) + (maxs + end));
    One(f);
    Nothing();
    FlatConcat([f], LebChunks(lim.min) + (maxs + end));
    FlatConcat(LebChunks(lim.min), maxs + end);
    FlatConcat(maxs, end);
    Regroup(f, Flat(LebChunks(lim.min)), Flat(maxs), Flat(end), rest);
  }

  lemma Nothing()
    ensures Flat([]) == []
  {
  }

  lemma Regroup(f: seq<byte>, a: seq<byte>, b: seq<byte>, c: seq<byte>, rest: seq<byte>)
    requires |f| == 1
    ensures var s := f + (a + (b + c)) + rest; s[0] == f[0] && s[1..] == a + (b + (c + rest))
    ensures [] + (c + rest) == c + rest
  {
  }

  /** The two decoders after the minimum, on written limits. */
  lemma RestOfLimits(s: seq<byte>, lim: Limits, custom: bool, shift: byte, rest: seq<byte>)
    requires s != []
    requires var tail := (if custom then Flat(LebChunks(shift)) else []) + rest;
             s[1..] == Flat(LebChunks(lim.min)) + if lim.max == U32_MAX then tail else Flat(LebChunks(lim.max)) + tail
    ensures var k := 1 + |Flat(LebChunks(lim.min))|;
            var k2 := if lim.max == U32_MAX then k else k + |Flat(LebChunks(lim.max))|;
            && DecU32(s[1..]) == Some((lim.min, k - 1)) && k <= k2 <= |s|
            && (lim.max != U32_MAX ==> DecU32(s[k..]) == Some((lim.max, k2 - k)))
            && (custom ==> DecU32(s[k2..]) == Some((shift, |s| - k2 - |rest|)))
            && (!custom ==> |s| == k2 + |rest|)
  {
    hide DecU32, LebChunks, Flat;
    var tail := (if custom then Flat(LebChunks(shift)) else []) + rest;
    var more := if lim.max == U32_MAX then tail else Flat(LebChunks(lim.max)) + tail;
    U32Restored(lim.min, more);
    var k := 1 + |Flat(LebChunks(lim.min))|;
    After(s, 1, Flat(LebChunks(lim.min)), more);
    if lim.max != U32_MAX {
      U32Restored(lim.max, tail);
      After(s, k, Flat(LebChunks(lim.max)), tail);
    }
    if custom { U32Restored(shift, rest); } else { assert [] + rest == rest; }
  }

  lemma After(s: seq<byte>, k: nat, a: seq<byte>, b: seq<byte>)
    requires k <= |s| && s[k..] == a + b
    ensures k + |a| <= |s| && s[k + |a|..] == b
  {
    assert s[k + |a|..] == s[k..][|a|..];
  }

  /** What read_limits makes of written limits. */
  lemma LimitsReread(lim: Limits, shared: bool, custom: bool, shift: byte, mem: bool, rest: seq<byte>)
    requires !mem ==> !shared && !custom
    ensures var d := DecLimits(Flat(LimitsChunks(lim, shared, custom, shift)) + rest, mem);
            var sh: nat := if custom then shift else if mem then PAGE_SHIFT else 0;
            var top := TypeMax(mem, sh);
            var max := if lim.max == U32_MAX && top < U32_MAX then top else lim.max;
            d == (if (shared && lim.max == U32_MAX) || (sh != 0 && sh != PAGE_SHIFT)
                     || (lim.max != U32_MAX && top < lim.max) || top < lim.min || lim.min > max
                  then None
                  else Some((LimitsAt(Limits(lim.min, max), shared, sh), |Flat(LimitsChunks(lim, shared, custom, shift))|)))
  {
    hide DecU32, LebChunks, Flat, LimitsChunks;
    LimitsParts(lim, shared, custom, shift, rest);
    RestOfLimits(Flat(LimitsChunks(lim, shared, custom, shift)) + rest, lim, custom, shift, rest);
  }

  /** A memory type that can come from a module and go back into one. */
  predicate MemOk(t: MemType) {
    && (t.shift == 0 || t.shift == PAGE_SHIFT) && t.lim.min <= t.lim.max
    && (t.shift == PAGE_SHIFT ==> t.lim.max <= 65536)
    && !(t.shared && t.lim.max == U32_MAX)
  }

  /** A memory type is restored exactly if it is one of those; a shared one with maximum 2^32 - 1 is not. */
  lemma MemRestored(t: MemType, rest: seq<byte>)
    ensures DecMemtype(Flat(MemChunks(t)) + rest) == Some((t, |Flat(MemChunks(t))|)) <==> MemOk(t)
    ensures var d := DecMemtype(Flat(MemChunks(t)) + rest); d.Some? ==> d.value.1 == |Flat(MemChunks(t))|
  {
    hide DecLimits, LimitsChunks;
    LimitsReread(t.lim, t.shared, t.shift != PAGE_SHIFT, if t.shift != PAGE_SHIFT then t.shift else 0, true, rest);
  }

  /** Such a memory can be read: one of pages of a byte. */
  lemma SharedMaxRefused() returns (s: seq<byte>, t: MemType)
    ensures DecMemtype(s) == Some((t, |s|)) && t.shared && t.lim.max == U32_MAX
    ensures DecMemtype(Flat(MemChunks(t))) == None
  {
    hide DecU32, LebChunks, Flat;
    var max: u32 := U32_MAX;
    var zero, m := Flat(LebChunks(0)), Flat(LebChunks(max));
    t := MemType(Limits(0, max), true, 0);
    var b: byte := SHARED + CUSTOM_PAGE_SIZE + 1;
    s := [b] + (zero + (m + zero));
    U32Restored(0, m + zero);
    U32Restored(max, zero);
    U32Restored(0, []);
    assert s[1..] == zero + (m + zero);
    assert s[1 + |zero|..] == m + zero;
    assert s[1 + |zero| + |m|..] == zero + [] == zero;
    LimitsReread(t.lim, true, true, 0, true, []);
    var w := Flat(MemChunks(t));
    assert w + [] == w;
  }

  lemma TableRestored(t: TableType, rest: seq<byte>)
    ensures DecTabletype(Flat(TableChunks(t)) + rest) == Some((t, |Flat(TableChunks(t))|)) <==> t.lim.min <= t.lim.max
    ensures var d := DecTabletype(Flat(TableChunks(t)) + rest); d.Some? ==> d.value.1 == |Flat(TableChunks(t))|
  {
    hide DecLimits, LimitsChunks;
    Front([[t.et]], LimitsChunks(t.lim, false, false, 0), rest);
    One([t.et]);
    var s := Flat(TableChunks(t)) + rest;
    assert s[0] == t.et && s[1..] == Flat(LimitsChunks(t.lim, false, false, 0)) + rest;
    LimitsReread(t.lim, false, false, 0, false, rest);
  }

  lemma GlobalRestored(t: GlobalType, rest: seq<byte>)
    ensures DecGlobaltype(Flat(GlobalChunks(t)) + rest) == Some((t, |Flat(GlobalChunks(t))|))
  {
    var b: byte := if t.mut then 1 else 0;
    Front([[t.t]], [[b]], rest);
    One([t.t]);
    One([b]);
  }

  // ---- imports ----

  predicate DescOk(d: ImportDesc, ntypes: nat) {
    match d
    case ImportFunc(i) => i < ntypes
    case ImportTable(t) => t.lim.min <= t.lim.max
    case ImportMem(t) => MemOk(t)
    case ImportGlobal(_) => true
  }

  ghost predicate ImportOk(i: Import, ntypes: nat) {
    Utf8.IsUtf8(i.modName) && Utf8.IsUtf8(i.name) && DescOk(i.desc, ntypes)
  }

  lemma DescRestored(d: ImportDesc, ntypes: nat, rest: seq<byte>)
    ensures DecDesc(Flat(DescChunks(d)) + rest, ntypes) == Some((d, |Flat(DescChunks(d))|)) <==> DescOk(d, ntypes)
    ensures var r := DecDesc(Flat(DescChunks(d)) + rest, ntypes); r.Some? ==> r.value.1 == |Flat(DescChunks(d))|
  {
    hide DecTabletype, DecMemtype, DecGlobaltype, DecU32, TableChunks, MemChunks, GlobalChunks, LebChunks;
    var f, body := [DescChunks(d)[0]], DescChunks(d)[1..];
    assert DescChunks(d) == f + body;
    Front(f, body, rest);
    One(f[0]);
    var s := Flat(DescChunks(d)) + rest;
    assert s[0] == f[0][0] && s[1..] == Flat(body) + rest;
    match d {
      case ImportFunc(i) => assert body == LebChunks(i); U32Restored(i, rest);
      case ImportTable(t) => assert body == TableChunks(t); TableRestored(t, rest);
      case ImportMem(t) => assert body == MemChunks(t); MemRestored(t, rest);
      case ImportGlobal(t) => assert body == GlobalChunks(t); GlobalRestored(t, rest);
    }
  }

  /** An import is restored exactly if its names are UTF-8 and its type is one that can be. */
  lemma ImportRestored(i: Import, ntypes: nat, rest: seq<byte>)
    requires |i.modName| <= U32_MAX && |i.name| <= U32_MAX
    ensures DecImport(Flat(ImportChunks(i)) + rest, ntypes) == Some((i, |Flat(ImportChunks(i))|)) <==> ImportOk(i, ntypes)
    ensures var d := DecImport(Flat(ImportChunks(i)) + rest, ntypes); d.Some? ==> d.value.1 == |Flat(ImportChunks(i))|
  {
    hide DecName, DecDesc, DescChunks, NameChunks, DescOk, Utf8.IsUtf8;
    var a, b, c := NameChunks(i.modName), NameChunks(i.name), DescChunks(i.desc);
    Front(a + b, c, rest);
    Front(a, b, Flat(c) + rest);
    var s := Flat(ImportChunks(i)) + rest;
    NameRestored(i.modName, Flat(b) + (Flat(c) + rest));
    assert s == Flat(a) + (Flat(b) + (Flat(c) + rest));
    assert s[|Flat(a)|..] == Flat(b) + (Flat(c) + rest);
    NameRestored(i.name, Flat(c) + rest);
    assert s[|Flat(a)| + |Flat(b)|..] == Flat(c) + rest;
    DescRestored(i.desc, ntypes, rest);
  }

  // ---- vectors ----

  ghost predicate AllImportsOk(xs: seq<Import>, ntypes: nat) { forall i :: 0 <= i < |xs| ==> ImportOk(xs[i], ntypes) }
  predicate AllTablesOk(xs: seq<TableType>) { forall i :: 0 <= i < |xs| ==> xs[i].lim.min <= xs[i].lim.max }
  predicate AllMemsOk(xs: seq<MemType>) { forall i :: 0 <= i < |xs| ==> MemOk(xs[i]) }

  /** The elements are decoded as they were if the first one is, and the others. */
  lemma FirstRestored<T>(dec: seq<byte> -> Decoded<T>, xs: seq<T>, a: seq<byte>, b: seq<byte>, rest: seq<byte>)
    requires xs != [] && (dec(a + (b + rest)).Some? ==> dec(a + (b + rest)).value.1 == |a|)
    ensures DecSeq(dec, a + (b + rest), |xs|) == Some((xs, |a| + |b|)) <==>
              dec(a + (b + rest)) == Some((xs[0], |a|)) && DecSeq(dec, b + rest, |xs| - 1) == Some((xs[1..], |b|))
  {
    var s := a + (b + rest);
    OneElement(dec, s, |xs|);
    assert [xs[0]] + xs[1..] == xs;
    if dec(s).Some? {
      assert s[|a|..] == b + rest;
      var d := DecSeq(dec, b + rest, |xs| - 1);
      if d.Some? {
        LaterSome(d.value.0, d.value.1, [dec(s).value.0], |a|);
        assert ([dec(s).value.0] + d.value.0)[0] == dec(s).value.0 && ([dec(s).value.0] + d.value.0)[1..] == d.value.0;
      }
    }
  }

  lemma {:induction false} SignaturesRestored(xs: seq<Signature>, rest: seq<byte>)
    requires forall i :: 0 <= i < |xs| ==> SignatureFits(xs[i])
    ensures DecSeq(DecSignature, Flat(SignaturesChunks(xs)) + rest, |xs|) == Some((xs, |Flat(SignaturesChunks(xs))|))
    decreases xs
  {
    hide Flat, SignatureChunks, DecSignature;
    if xs == [] {
      Nothing();
    } else {
      var tl := xs[1..];
      Front(SignatureChunks(xs[0]), SignaturesChunks(tl), rest);
      SignatureRestored(xs[0], Flat(SignaturesChunks(tl)) + rest);
      SignaturesRestored(tl, rest);
      assert [xs[0]] + tl == xs;
    }
  }

  lemma {:induction false} ImportsRestored(xs: seq<Import>, ntypes: nat, rest: seq<byte>)
    requires forall i :: 0 <= i < |xs| ==> |xs[i].modName| <= U32_MAX && |xs[i].name| <= U32_MAX
    ensures DecSeq(ImportDecoder(ntypes), Flat(ImportsChunks(xs)) + rest, |xs|) == Some((xs, |Flat(ImportsChunks(xs))|)) <==>
              AllImportsOk(xs, ntypes)
    decreases xs
  {
    hide Flat, ImportChunks, DecImport, ImportOk, DecSeq;
    var all := Flat(ImportsChunks(xs));
    if xs == [] {
      Nothing();
      NoElements(ImportDecoder(ntypes), all + rest);
    } else {
      var tl := xs[1..];
      Front(ImportChunks(xs[0]), ImportsChunks(tl), rest);
      ImportRestored(xs[0], ntypes, Flat(ImportsChunks(tl)) + rest);
      ImportsRestored(tl, ntypes, rest);
      FirstRestored(ImportDecoder(ntypes), xs, Flat(ImportChunks(xs[0])), Flat(ImportsChunks(tl)), rest);
      assert AllImportsOk(xs, ntypes) <==> ImportOk(xs[0], ntypes) && AllImportsOk(tl, ntypes) by {
        assert forall i :: 0 < i < |xs| ==> xs[i] == tl[i - 1];
      }
    }
  }

  lemma {:induction false} TablesRestored(xs: seq<TableType>, rest: seq<byte>)
    ensures DecSeq(DecTabletype, Flat(TablesChunks(xs)) + rest, |xs|) == Some((xs, |Flat(TablesChunks(xs))|)) <==> AllTablesOk(xs)
    decreases xs
  {
    hide Flat, TableChunks, DecTabletype, DecSeq;
    if xs == [] {
      Nothing();
      NoElements(DecTabletype, Flat(TablesChunks(xs)) + rest);
    } else {
      var tl := xs[1..];
      Front(TableChunks(xs[0]), TablesChunks(tl), rest);
      TableRestored(xs[0], Flat(TablesChunks(tl)) + rest);
      TablesRestored(tl, rest);
      FirstRestored(DecTabletype, xs, Flat(TableChunks(xs[0])), Flat(TablesChunks(tl)), rest);
      assert AllTablesOk(xs) <==> xs[0].lim.min <= xs[0].lim.max && AllTablesOk(tl) by {
        assert forall i :: 0 < i < |xs| ==> xs[i] == tl[i - 1];
      }
    }
  }

  lemma {:induction false} MemsRestored(xs: seq<MemType>, rest: seq<byte>)
    ensures DecSeq(DecMemtype, Flat(MemsChunks(xs)) + rest, |xs|) == Some((xs, |Flat(MemsChunks(xs))|)) <==> AllMemsOk(xs)
    decreases xs
  {
    hide Flat, MemChunks, DecMemtype, DecSeq, MemOk;
    if xs == [] {
      Nothing();
      NoElements(DecMemtype, Flat(MemsChunks(xs)) + rest);
    } else {
      var tl := xs[1..];
      Front(MemChunks(xs[0]), MemsChunks(tl), rest);
      MemRestored(xs[0], Flat(MemsChunks(tl)) + rest);
      MemsRestored(tl, rest);
      FirstRestored(DecMemtype, xs, Flat(MemChunks(xs[0])), Flat(MemsChunks(tl)), rest);
      assert AllMemsOk(xs) <==> MemOk(xs[0]) && AllMemsOk(tl) by {
        assert forall i :: 0 < i < |xs| ==> xs[i] == tl[i - 1];
      }
    }
  }

  /** A count and its elements. */
  lemma VecRestored<T>(dec: seq<byte> -> Decoded<T>, xs: seq<T>, items: Chunks)
    requires |xs| <= U32_MAX
    ensures DecAll(dec, Flat(LebChunks(|xs|) + items)) == Some(xs) <==> DecSeq(dec, Flat(items), |xs|) == Some((xs, |Flat(items)|))
  {
    hide Flat, DecU32, DecSeq, LebChunks;
    Front(LebChunks(|xs|), items, []);
    U32Restored(|xs|, Flat(items));
    assert Flat(items) + [] == Flat(items);
    assert Flat(LebChunks(|xs|) + items) + [] == Flat(LebChunks(|xs|) + items);
  }

  // ---- sections ----

  /** The part of a module that a section holds can be read back. */
  ghost predicate PartOk(s: Section, m: Mod) {
    match s
    case TypeSection => true
    case ImportSection => AllImportsOk(m.imports, |m.types|)
    case TableSection => AllTablesOk(m.tables)
    case MemorySection => AllMemsOk(m.mems)
  }

  /** A module that can be loaded: every part of it can be read back, and there is at most one memory. */
  ghost predicate ModOk(m: Mod) {
    AllImportsOk(m.imports, |m.types|) && AllTablesOk(m.tables) && AllMemsOk(m.mems) && OneMemory(m)
  }

  /** The bytes of a section: nothing, or its id, its size and its content. */
  function SectionBytes(id: byte, cs: Chunks): seq<byte> {
    if Flat(cs) == [] then [] else [id] + Flat(LebChunks(|Flat(cs)|)) + Flat(cs)
  }

  function SectionsBytes(ss: seq<Section>, m: Mod): seq<byte> {
    if ss == [] then [] else SectionBytes(SectionId(ss[0]), ContentChunks(ss[0], m)) + SectionsBytes(ss[1..], m)
  }

  function ModuleBytes(m: Mod): seq<byte> { Flat(PREAMBLE) + SectionsBytes(SECTIONS, m) }

  lemma Framed(id: byte, n: seq<byte>, c: seq<byte>, rest: seq<byte>)
    ensures var s := [id] + n + c + rest;
            s[0] == id && s[1..] == n + (c + rest) && s[1 + |n|..1 + |n| + |c|] == c && |s| == 1 + |n| + |c| + |rest|
  {
  }

  lemma SectionRestored(id: byte, cs: Chunks, rest: seq<byte>)
    requires Flat(cs) != [] && |Flat(cs)| <= U32_MAX
    ensures DecSection(SectionBytes(id, cs) + rest) == Some(((id, Flat(cs)), |SectionBytes(id, cs)|))
  {
    hide Flat, DecU32, LebChunks;
    Framed(id, Flat(LebChunks(|Flat(cs)|)), Flat(cs), rest);
    U32Restored(|Flat(cs)|, Flat(cs) + rest);
  }

  /** What reading a section's content adds to what is read before. */
  function Added(s: Section, m: Mod, have: Mod): Mod {
    match s
    case TypeSection => have.(types := m.types)
    case ImportSection => have.(imports := m.imports)
    case TableSection => have.(tables := m.tables)
    case MemorySection => have.(mems := m.mems)
  }

  lemma ContentRestored(s: Section, m: Mod, have: Mod)
    requires ModFits(m) && ContentChunks(s, m) != [] && (s.ImportSection? ==> have.types == m.types)
    ensures DecContent(SectionId(s), Flat(ContentChunks(s, m)), have) == Some(Added(s, m, have)) <==> PartOk(s, m)
  {
    hide Flat, DecAll, LebChunks, ImportOk, MemOk, SignatureFits, DecSeq, AllImportsOk, AllTablesOk, AllMemsOk;
    match s {
      case TypeSection =>
        SignaturesRestored(m.types, []);
        Trailing(Flat(SignaturesChunks(m.types)));
        VecRestored(DecSignature, m.types, SignaturesChunks(m.types));
      case ImportSection =>
        ImportsRestored(m.imports, |m.types|, []);
        Trailing(Flat(ImportsChunks(m.imports)));
        VecRestored(ImportDecoder(|m.types|), m.imports, ImportsChunks(m.imports));
      case TableSection =>
        TablesRestored(m.tables, []);
        Trailing(Flat(TablesChunks(m.tables)));
        VecRestored(DecTabletype, m.tables, TablesChunks(m.tables));
      case MemorySection =>
        MemsRestored(m.mems, []);
        Trailing(Flat(MemsChunks(m.mems)));
        VecRestored(DecMemtype, m.mems, MemsChunks(m.mems));
    }
  }

  /** A section changes its own part of the module only. */
  lemma ContentAdds(s: Section, bytes: seq<byte>, have: Mod)
    ensures var d := DecContent(SectionId(s), bytes, have); d.Some? ==> Added(s, d.value, have) == d.value
  {
    hide DecAll;
  }

  /** What a section has added is not changed by the later ones. */
  lemma {:induction false} LaterKeep(s: Section, bytes: seq<byte>, seen: nat, have: Mod)
    requires seen >= SectionId(s)
    ensures var d := DecSections(bytes, seen, have); d.Some? ==> forall base :: Added(s, d.value, base) == Added(s, have, base)
    decreases |bytes|
  {
    hide DecSection, DecAll, DecName;
    if bytes != [] && DecSection(bytes).Some? {
      var d := DecSection(bytes).value;
      if d.0.0 == 0 || seen < d.0.0 {
        var c := DecContent(d.0.0, d.0.1, have);
        if c.Some? { LaterKeep(s, bytes[d.1..], if d.0.0 > 0 then d.0.0 else seen, c.value); }
      }
    }
  }

  lemma Trailing(s: seq<byte>)
    ensures s + [] == s
  {
  }

  /** A section that has something in it has bytes. */
  lemma ContentNotEmpty(s: Section, m: Mod)
    ensures ContentChunks(s, m) == [] <==> Flat(ContentChunks(s, m)) == []
    ensures ContentChunks(s, m) == [] ==> PartOk(s, m) && forall have :: Added(s, m, have) == Added(s, EMPTY, have)
  {
    hide LebChunks, DecU32;
    match s {
      case TypeSection => if m.types != [] { CountNotEmpty(|m.types|, SignaturesChunks(m.types)); }
      case ImportSection => if m.imports != [] { CountNotEmpty(|m.imports|, ImportsChunks(m.imports)); }
      case TableSection => if m.tables != [] { CountNotEmpty(|m.tables|, TablesChunks(m.tables)); }
      case MemorySection => if m.mems != [] { CountNotEmpty(|m.mems|, MemsChunks(m.mems)); }
    }
  }

  lemma CountNotEmpty(n: nat, cs: Chunks)
    ensures Flat(LebChunks(n) + cs) != [] && LebChunks(n) + cs != []
  {
    FlatConcat(LebChunks(n), cs);
    LebNotEmpty(n);
  }

  lemma LebNotEmpty(n: nat)
    ensures Flat(LebChunks(n)) != [] && LebChunks(n) != []
  {
  }

  // ---- modules ----

  /** What has been read after the first `k` sections. */
  function Partial(m: Mod, k: nat): Mod {
    Mod(if k > 0 then m.types else [], if k > 1 then m.imports else [], if k > 2 then m.tables else [], if k > 3 then m.mems else [])
  }

  lemma PartialStep(m: Mod, k: nat)
    requires k < 4
    ensures Added(SECTIONS[k], m, Partial(m, k)) == Partial(m, k + 1)
    ensures ContentChunks(SECTIONS[k], m) == [] ==> Partial(m, k + 1) == Partial(m, k)
    ensures k == 1 ==> Partial(m, k).types == m.types
    ensures k + 1 < 4 ==> SectionId(SECTIONS[k]) < SectionId(SECTIONS[k + 1])
    ensures SECTIONS[k..][0] == SECTIONS[k] && SECTIONS[k..][1..] == SECTIONS[k + 1..]
    ensures SECTIONS[k].ImportSection? <==> k == 1
  {
    hide LebChunks;
    assert SECTIONS == [TypeSection, ImportSection, TableSection, MemorySection];
    match SECTIONS[k] {
      case TypeSection => if m.types != [] { CountNotEmpty(|m.types|, SignaturesChunks(m.types)); }
      case ImportSection => if m.imports != [] { CountNotEmpty(|m.imports|, ImportsChunks(m.imports)); }
      case TableSection => if m.tables != [] { CountNotEmpty(|m.tables|, TablesChunks(m.tables)); }
      case MemorySection => if m.mems != [] { CountNotEmpty(|m.mems|, MemsChunks(m.mems)); }
    }
  }

  /** No section is longer than its size field can say. */
  predicate SectionsFit(m: Mod) { forall k :: 0 <= k < 4 ==> |Flat(ContentChunks(SECTIONS[k], m))| <= U32_MAX }

  /** The sections from the `k`-th on, read after the others. */
  lemma {:induction false} SectionsRestored(m: Mod, k: nat, seen: nat)
    requires ModFits(m) && SectionsFit(m) && k <= 4 && (k < 4 ==> seen < SectionId(SECTIONS[k]))
    ensures DecSections(SectionsBytes(SECTIONS[k..], m), seen, Partial(m, k)) == Some(m) <==>
              forall j :: k <= j < 4 ==> PartOk(SECTIONS[j], m)
    decreases 4 - k
  {
    hide Flat, DecSections, ContentChunks, SectionBytes, ModFits, Added, Partial, SectionId, PartOk;
    if k == 4 {
      AllRead(m, seen);
    } else {
      var s := SECTIONS[k];
      var cs, rest := ContentChunks(s, m), SectionsBytes(SECTIONS[k + 1..], m);
      PartialStep(m, k);
      ContentNotEmpty(s, m);
      assert SectionsBytes(SECTIONS[k..], m) == SectionBytes(SectionId(s), cs) + rest;
      if cs == [] {
        NoBytes(SectionId(s), cs, rest);
        SectionsRestored(m, k + 1, seen);
      } else {
        OneSection(s, m, Partial(m, k), cs, rest, seen);
        SectionsRestored(m, k + 1, SectionId(s));
      }
      assert (forall j :: k <= j < 4 ==> PartOk(SECTIONS[j], m)) <==>
             PartOk(s, m) && forall j :: k + 1 <= j < 4 ==> PartOk(SECTIONS[j], m);
    }
  }

  /** One section that is there, and the others. */
  lemma OneSection(s: Section, m: Mod, have: Mod, cs: Chunks, rest: seq<byte>, seen: nat)
    requires ModFits(m) && cs == ContentChunks(s, m) != [] && Flat(cs) != [] && |Flat(cs)| <= U32_MAX && seen < SectionId(s)
    requires s.ImportSection? ==> have.types == m.types
    ensures DecSections(SectionBytes(SectionId(s), cs) + rest, seen, have) == Some(m) <==>
              PartOk(s, m) && DecSections(rest, SectionId(s), Added(s, m, have)) == Some(m)
  {
    hide Flat, DecContent, ContentChunks, ModFits, PartOk, DecSection, SectionBytes;
    var bytes := SectionBytes(SectionId(s), cs);
    SectionRestored(SectionId(s), cs, rest);
    ContentRestored(s, m, have);
    ContentAdds(s, Flat(cs), have);
    assert (bytes + rest)[|bytes|..] == rest;
    assert SectionId(s) > 0;
    var d := DecContent(SectionId(s), Flat(cs), have);
    if d.Some? { LaterKeep(s, rest, SectionId(s), d.value); }
  }

  lemma AllRead(m: Mod, seen: nat)
    ensures DecSections(SectionsBytes(SECTIONS[4..], m), seen, Partial(m, 4)) == Some(m)
  {
    assert SECTIONS[4..] == [];
  }

  lemma NoBytes(id: byte, cs: Chunks, rest: seq<byte>)
    requires Flat(cs) == []
    ensures SectionBytes(id, cs) + rest == rest
  {
  }

  /** Reading the bytes of a module gives the module exactly if it can be loaded. */
  lemma ModuleRestored(m: Mod)
    requires ModFits(m) && SectionsFit(m)
    ensures DecModule(ModuleBytes(m)) == Some(m) <==> ModOk(m)
  {
    hide SectionsBytes, DecSections, ModFits, SectionsFit, OneMemory, AllImportsOk, AllTablesOk, AllMemsOk;
    var body := SectionsBytes(SECTIONS, m);
    PreambleIs();
    assert ModuleBytes(m)[..4] == PREAMBLE[0] && ModuleBytes(m)[4..8] == PREAMBLE[1] && ModuleBytes(m)[8..] == body;
    assert SECTIONS[0..] == SECTIONS;
    NothingRead(m);
    SectionsRestored(m, 0, 0);
    AllParts(m);
  }

  lemma AllParts(m: Mod)
    ensures (forall j :: 0 <= j < 4 ==> PartOk(SECTIONS[j], m)) <==>
              AllImportsOk(m.imports, |m.types|) && AllTablesOk(m.tables) && AllMemsOk(m.mems)
  {
    hide AllImportsOk, AllTablesOk, AllMemsOk;
    assert PartOk(SECTIONS[0], m);
    assert PartOk(SECTIONS[1], m) <==> AllImportsOk(m.imports, |m.types|);
    assert PartOk(SECTIONS[2], m) <==> AllTablesOk(m.tables);
    assert PartOk(SECTIONS[3], m) <==> AllMemsOk(m.mems);
  }

  lemma PreambleIs()
    ensures Flat(PREAMBLE) == PREAMBLE[0] + PREAMBLE[1] && |PREAMBLE[0]| == 4 && |PREAMBLE[1]| == 4 && NoEmptyChunk(PREAMBLE)
  {
    assert PREAMBLE == [PREAMBLE[0]] + [PREAMBLE[1]];
    One(PREAMBLE[0]);
    One(PREAMBLE[1]);
    FlatConcat([PREAMBLE[0]], [PREAMBLE[1]]);
  }

  lemma NothingRead(m: Mod)
    ensures Partial(m, 0) == EMPTY && 0 < SectionId(SECTIONS[0])
  {
  }

  // ---- when writing succeeds ----

  /** A section is written exactly when its size can be told, no chunk of it is empty and it fits; then the size is that of the content. */
  lemma SectionWritten(room: nat, w: Output, id: byte, cs: Chunks)
    requires w.error == NoError && |w.out| <= room && (cs == [] <==> Flat(cs) == [])
    ensures var g := PutSection(File(room), w, id, cs);
            var bytes := SectionBytes(id, cs);
            && (g.error == NoError <==>
                  |Flat(cs)| <= U32_MAX && NoEmptyChunk(cs) && w.size + |bytes| <= U32_MAX && |w.out| + |bytes| <= room)
            && (g.error == NoError ==> g == Output(w.out + bytes, w.size + |bytes|, NoError))
  {
    hide LebChunks, PutAll;
    CounterExact(Output([], 0, NoError), cs);
    if |Flat(cs)| <= U32_MAX && Flat(cs) != [] {
      var n := LebChunks(|Flat(cs)|);
      var all := [[id]] + n + cs;
      FileExact(room, w, all);
      One([id]);
      FlatConcat([[id]] + n, cs);
      FlatConcat([[id]], n);
      LebChunksNotEmpty(|Flat(cs)|);
      assert NoEmptyChunk(all) <==> NoEmptyChunk(cs) by { AllNotEmpty([[id]] + n, cs); }
    } else if Flat(cs) == [] {
      assert w.out + [] == w.out;
    }
  }

  lemma {:induction false} LebChunksNotEmpty(u: nat)
    ensures NoEmptyChunk(LebChunks(u))
    decreases u
  {
    if u >= 128 { LebChunksNotEmpty(u / 128); }
  }

  lemma AllNotEmpty(a: Chunks, b: Chunks)
    requires NoEmptyChunk(a)
    ensures NoEmptyChunk(a + b) <==> NoEmptyChunk(b)
  {
    if NoEmptyChunk(a + b) {
      forall i | 0 <= i < |b| ensures b[i] != [] { assert (a + b)[|a| + i] == b[i]; }
    }
  }

  /** An error of an earlier section stays, or gives way to another one. */
  lemma {:induction false} SectionsSticky(k: Kind, w: Output, ss: seq<Section>, m: Mod)
    requires w.error != NoError
    ensures PutSections(k, w, ss, m).error != NoError
    decreases ss
  {
    hide ContentChunks, LebChunks;
    if ss != [] {
      var id, cs := SectionId(ss[0]), ContentChunks(ss[0], m);
      var counter := PutAll(Counter, Output([], 0, NoError), cs);
      Sticky(k, w, [[id]] + LebChunks(counter.size) + cs);
      SectionsSticky(k, PutSection(k, w, id, cs), ss[1..], m);
    }
  }

  /** Every section's size fits, and none of its chunks is empty. */
  ghost predicate Writable(ss: seq<Section>, m: Mod) {
    forall s :: s in ss ==> |Flat(ContentChunks(s, m))| <= U32_MAX && NoEmptyChunk(ContentChunks(s, m))
  }

  lemma {:induction false} SectionsWritten(room: nat, w: Output, ss: seq<Section>, m: Mod)
    requires w.error == NoError && |w.out| <= room
    ensures var g := PutSections(File(room), w, ss, m);
            var bytes := SectionsBytes(ss, m);
            && (g.error == NoError <==> Writable(ss, m) && w.size + |bytes| <= U32_MAX && |w.out| + |bytes| <= room)
            && (g.error == NoError ==> g == Output(w.out + bytes, w.size + |bytes|, NoError))
    decreases ss
  {
    hide ContentChunks, LebChunks, Flat, PutAll, PutSection, SectionBytes;
    if ss == [] {
      assert w.out + [] == w.out;
    } else {
      var id, cs := SectionId(ss[0]), ContentChunks(ss[0], m);
      ContentNotEmpty(ss[0], m);
      SectionWritten(room, w, id, cs);
      var w1 := PutSection(File(room), w, id, cs);
      assert Writable(ss, m) <==> |Flat(cs)| <= U32_MAX && NoEmptyChunk(cs) && Writable(ss[1..], m) by { WritableTail(ss, m); }
      if w1.error == NoError {
        SectionsWritten(room, w1, ss[1..], m);
        assert w.out + SectionBytes(id, cs) + SectionsBytes(ss[1..], m) == w.out + (SectionBytes(id, cs) + SectionsBytes(ss[1..], m));
      } else {
        SectionsSticky(File(room), w1, ss[1..], m);
      }
    }
  }

  lemma WritableTail(ss: seq<Section>, m: Mod)
    requires ss != []
    ensures Writable(ss, m) <==>
              |Flat(ContentChunks(ss[0], m))| <= U32_MAX && NoEmptyChunk(ContentChunks(ss[0], m)) && Writable(ss[1..], m)
  {
    hide ContentChunks, NoEmptyChunk, Flat;
    assert forall s :: s in ss <==> s == ss[0] || s in ss[1..];
  }

  // ---- empty chunks come from empty names ----

  predicate NamesNotEmpty(xs: seq<Import>) { forall i :: 0 <= i < |xs| ==> xs[i].modName != [] && xs[i].name != [] }

  lemma {:induction false} TypesNotEmpty(ts: seq<ValType>)
    ensures NoEmptyChunk(TypesChunks(ts))
    decreases ts
  {
    if ts != [] { TypesNotEmpty(ts[1..]); }
  }

  lemma {:induction false} SignaturesNotEmpty(xs: seq<Signature>)
    ensures NoEmptyChunk(SignaturesChunks(xs))
    decreases xs
  {
    hide LebChunks, TypesChunks, NoEmptyChunk;
    if xs == [] {
      NoChunks();
    } else {
      var a, b := xs[0].params, xs[0].results;
      TypesNotEmpty(a);
      TypesNotEmpty(b);
      LebChunksNotEmpty(|a|);
      LebChunksNotEmpty(|b|);
      OneChunk([0x60]);
      AllNotEmpty(LebChunks(|a|), TypesChunks(a));
      AllNotEmpty(LebChunks(|b|), TypesChunks(b));
      AllNotEmpty([[0x60]], ResulttypeChunks(a));
      AllNotEmpty([[0x60]] + ResulttypeChunks(a), ResulttypeChunks(b));
      SignaturesNotEmpty(xs[1..]);
      AllNotEmpty(SignatureChunks(xs[0]), SignaturesChunks(xs[1..]));
    }
  }

  lemma NoChunks()
    ensures NoEmptyChunk([])
  {
  }

  lemma OneChunk(c: seq<byte>)
    ensures NoEmptyChunk([c]) <==> c != []
  {
    assert [c][0] == c;
  }

  lemma LimitsNotEmpty(lim: Limits, shared: bool, custom: bool, shift: byte)
    ensures NoEmptyChunk(LimitsChunks(lim, shared, custom, shift))
  {
    hide LebChunks, NoEmptyChunk;
    var flags: nat := (if shared then SHARED else 0) + if custom then CUSTOM_PAGE_SIZE else 0;
    var f := if lim.max == U32_MAX then [flags] else [flags + 1];
    OneChunk(f);
    LebChunksNotEmpty(lim.min);
    LebChunksNotEmpty(lim.max);
    LebChunksNotEmpty(shift);
    NoChunks();
    AllNotEmpty([f], LebChunks(lim.min));
    AllNotEmpty([f] + LebChunks(lim.min), LebChunks(lim.max));
    AllNotEmpty(if lim.max == U32_MAX then [f] + LebChunks(lim.min) else [f] + LebChunks(lim.min) + LebChunks(lim.max),
                if custom then LebChunks(shift) else []);
  }

  lemma TableNotEmpty(t: TableType)
    ensures NoEmptyChunk(TableChunks(t))
  {
    hide LimitsChunks, NoEmptyChunk;
    OneChunk([t.et]);
    LimitsNotEmpty(t.lim, false, false, 0);
    AllNotEmpty([[t.et]], LimitsChunks(t.lim, false, false, 0));
  }

  lemma MemNotEmpty(t: MemType)
    ensures NoEmptyChunk(MemChunks(t))
  {
    hide LimitsChunks, NoEmptyChunk;
    LimitsNotEmpty(t.lim, t.shared, t.shift != PAGE_SHIFT, if t.shift != PAGE_SHIFT then t.shift else 0);
  }

  lemma {:induction false} TablesNotEmpty(xs: seq<TableType>)
    ensures NoEmptyChunk(TablesChunks(xs))
    decreases xs
  {
    hide TableChunks, NoEmptyChunk;
    if xs == [] {
      NoChunks();
    } else {
      TableNotEmpty(xs[0]);
      TablesNotEmpty(xs[1..]);
      AllNotEmpty(TableChunks(xs[0]), TablesChunks(xs[1..]));
    }
  }

  lemma {:induction false} MemsNotEmpty(xs: seq<MemType>)
    ensures NoEmptyChunk(MemsChunks(xs))
    decreases xs
  {
    hide MemChunks, NoEmptyChunk;
    if xs == [] {
      NoChunks();
    } else {
      MemNotEmpty(xs[0]);
      MemsNotEmpty(xs[1..]);
      AllNotEmpty(MemChunks(xs[0]), MemsChunks(xs[1..]));
    }
  }

  lemma DescNotEmpty(d: ImportDesc)
    ensures NoEmptyChunk(DescChunks(d))
  {
    hide TableChunks, MemChunks, LebChunks, NoEmptyChunk;
    var f, body := DescChunks(d)[0], DescChunks(d)[1..];
    OneChunk(f);
    assert DescChunks(d) == [f] + body;
    match d {
      case ImportFunc(i) => assert body == LebChunks(i); LebChunksNotEmpty(i);
      case ImportTable(t) => assert body == TableChunks(t); TableNotEmpty(t);
      case ImportMem(t) => assert body == MemChunks(t); MemNotEmpty(t);
      case ImportGlobal(t) =>
        OneChunk([t.t]);
        OneChunk([if t.mut then 1 else 0]);
        AllNotEmpty([[t.t]], [[if t.mut then 1 else 0]]);
        assert body == GlobalChunks(t);
    }
    AllNotEmpty([f], body);
  }

  lemma BothNotEmpty(a: Chunks, b: Chunks)
    ensures NoEmptyChunk(a + b) <==> NoEmptyChunk(a) && NoEmptyChunk(b)
  {
    if NoEmptyChunk(a + b) {
      forall i | 0 <= i < |a| ensures a[i] != [] { assert (a + b)[i] == a[i]; }
      forall i | 0 <= i < |b| ensures b[i] != [] { assert (a + b)[|a| + i] == b[i]; }
    }
  }

  lemma NameChunksNotEmpty(n: seq<byte>)
    ensures NoEmptyChunk(NameChunks(n)) <==> n != []
  {
    hide LebChunks, NoEmptyChunk;
    LebChunksNotEmpty(|n|);
    OneChunk(n);
    BothNotEmpty(LebChunks(|n|), [n]);
  }

  lemma {:induction false} ImportsNotEmpty(xs: seq<Import>)
    ensures NoEmptyChunk(ImportsChunks(xs)) <==> NamesNotEmpty(xs)
    decreases xs
  {
    hide NameChunks, DescChunks, NoEmptyChunk;
    if xs == [] {
      NoChunks();
    } else {
      var x, tl := xs[0], xs[1..];
      NameChunksNotEmpty(x.modName);
      NameChunksNotEmpty(x.name);
      DescNotEmpty(x.desc);
      BothNotEmpty(NameChunks(x.modName), NameChunks(x.name));
      BothNotEmpty(NameChunks(x.modName) + NameChunks(x.name), DescChunks(x.desc));
      ImportsNotEmpty(tl);
      BothNotEmpty(ImportChunks(x), ImportsChunks(tl));
      assert NamesNotEmpty(xs) <==> x.modName != [] && x.name != [] && NamesNotEmpty(tl) by { NamesTail(xs); }
    }
  }

  lemma NamesTail(xs: seq<Import>)
    requires xs != []
    ensures NamesNotEmpty(xs) <==> xs[0].modName != [] && xs[0].name != [] && NamesNotEmpty(xs[1..])
  {
    assert forall i :: 0 < i < |xs| ==> xs[i] == xs[1..][i - 1];
  }

  lemma ContentsNotEmpty(s: Section, m: Mod)
    ensures NoEmptyChunk(ContentChunks(s, m)) <==> (s.ImportSection? ==> NamesNotEmpty(m.imports))
  {
    hide NoEmptyChunk, LebChunks;
    NoChunks();
    match s {
      case TypeSection => SignaturesNotEmpty(m.types); LebChunksNotEmpty(|m.types|); BothNotEmpty(LebChunks(|m.types|), SignaturesChunks(m.types));
      case ImportSection => ImportsNotEmpty(m.imports); LebChunksNotEmpty(|m.imports|); BothNotEmpty(LebChunks(|m.imports|), ImportsChunks(m.imports));
      case TableSection => TablesNotEmpty(m.tables); LebChunksNotEmpty(|m.tables|); BothNotEmpty(LebChunks(|m.tables|), TablesChunks(m.tables));
      case MemorySection => MemsNotEmpty(m.mems); LebChunksNotEmpty(|m.mems|); BothNotEmpty(LebChunks(|m.mems|), MemsChunks(m.mems));
    }
  }

  // ---- the main results ----

  lemma {:induction false} SectionsBound(ss: seq<Section>, m: Mod, s: Section)
    requires s in ss
    ensures |Flat(ContentChunks(s, m))| <= |SectionsBytes(ss, m)|
    decreases ss
  {
    hide ContentChunks, Flat, LebChunks;
    if ss[0] != s { SectionsBound(ss[1..], m, s); }
  }

  /**
    Writing a module succeeds exactly when no import has an empty name and the
    bytes fit the 32-bit count and the file; the file then holds those bytes.
   */
  lemma ModuleWritten(room: nat, m: Mod)
    ensures var g := Written(File(room), Output([], 0, NoError), m);
            && (g.error == NoError <==> NamesNotEmpty(m.imports) && |ModuleBytes(m)| <= U32_MAX && |ModuleBytes(m)| <= room)
            && (g.error == NoError ==> g.out == ModuleBytes(m))
  {
    hide SectionsBytes, PutSections, PutAll, Flat, ContentChunks, NoEmptyChunk;
    var w := Output([], 0, NoError);
    PreambleIs();
    FileExact(room, w, PREAMBLE);
    var w1 := PutAll(File(room), w, PREAMBLE);
    if w1.error == NoError {
      SectionsWritten(room, w1, SECTIONS, m);
      WritableIs(m);
      assert [] + Flat(PREAMBLE) == Flat(PREAMBLE);
    } else {
      SectionsSticky(File(room), w1, SECTIONS, m);
    }
  }

  /** For a module whose bytes can be counted, the names decide. */
  lemma WritableIs(m: Mod)
    ensures |SectionsBytes(SECTIONS, m)| <= U32_MAX ==> (Writable(SECTIONS, m) <==> NamesNotEmpty(m.imports))
  {
    hide SectionsBytes, Flat, ContentChunks, NoEmptyChunk, NamesNotEmpty;
    forall s | s in SECTIONS ensures |Flat(ContentChunks(s, m))| <= |SectionsBytes(SECTIONS, m)| { SectionsBound(SECTIONS, m, s); }
    forall s ensures NoEmptyChunk(ContentChunks(s, m)) <==> (s.ImportSection? ==> NamesNotEmpty(m.imports)) { ContentsNotEmpty(s, m); }
    assert SECTIONS[1] == ImportSection;
  }

  /** A module that can be loaded and not be written to any file: its import has empty names. */
  lemma EmptyNameNotWritten(room: nat) returns (m: Mod)
    ensures DecModule(ModuleBytes(m)) == Some(m)
    ensures Written(File(room), Output([], 0, NoError), m).error != NoError
  {
    hide ModuleBytes, DecModule, Writer.Written;
    m := Mod([], [Import([], [], ImportGlobal(GlobalType(0x7f, false)))], [], []);
    Utf8.EmptyIsUtf8();
    assert m.imports[0].modName == [];
    assert ImportOk(m.imports[0], 0);
    assert MemImports(m.imports[1..]) == 0;
    EmptyNameFits(m);
    ModuleRestored(m);
    ModuleWritten(room, m);
  }

  lemma {:induction false} ShortChunks(cs: Chunks)
    requires forall i :: 0 <= i < |cs| ==> |cs[i]| <= 1
    ensures |Flat(cs)| <= |cs|
    decreases cs
  {
    if cs != [] { ShortChunks(cs[1..]); }
  }

  lemma EmptyNameFits(m: Mod)
    requires m == Mod([], [Import([], [], ImportGlobal(GlobalType(0x7f, false)))], [], [])
    ensures SectionsFit(m)
  {
    assert LebChunks(0) == [[0]] && LebChunks(1) == [[1]];
    var cs := ContentChunks(ImportSection, m);
    assert ImportsChunks(m.imports[1..]) == [];
    assert cs == [[1], [0], [], [0], [], [3], [0x7f], [0]];
    ShortChunks(cs);
    forall k | 0 <= k < 4 ensures |Flat(ContentChunks(SECTIONS[k], m))| <= U32_MAX {
      assert SECTIONS[k] != ImportSection ==> ContentChunks(SECTIONS[k], m) == [];
    }
  }

  /** What was written and read. */
  method WriteAndRead(m: Mod, room: nat, oom: bool) returns (written: bool, r: Option<Mod>)
    requires ModFits(m)
    ensures written <==> NamesNotEmpty(m.imports) && |ModuleBytes(m)| <= U32_MAX && |ModuleBytes(m)| <= room
    ensures written && !oom ==> (r == Some(m) <==> ModOk(m))
    ensures r == Some(m) ==> ModOk(m)
  {
    hide ModuleBytes, DecModule, NamesNotEmpty, Writer.Written, ModOk;
    var w := new ByteWriter(File(room));
    w.ModuleWrite1(m);
    ModuleWritten(room, m);
    written, r := w.error == NoError, None;
    if written {
      FitsThen(m);
      ModuleRestored(m);
      r := ModuleLoad(w.out, oom, _ => _ => false);
    }
  }

  lemma FitsThen(m: Mod)
    requires |ModuleBytes(m)| <= U32_MAX
    ensures SectionsFit(m)
  {
    hide SectionsBytes, Flat, ContentChunks;
    forall k | 0 <= k < 4 ensures |Flat(ContentChunks(SECTIONS[k], m))| <= U32_MAX { SectionsBound(SECTIONS, m, SECTIONS[k]); }
  }
}
