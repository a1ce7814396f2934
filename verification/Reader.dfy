/**
  Reading modules (lib/module.c, lib/decode.c). A decoder says what it finds at
  the start of a byte string and how long it is; the reader methods move a cursor
  through a buffer and are proved to find what the decoders say.
 */
module Reader {
  import opened Leb
  import opened Writer
  import Utf8
  import C = Code

  /** A decoded value and the number of bytes it takes. */
  type Decoded<T> = Option<(T, nat)>

  /** The same, with the cursor that follows it. */
  function At<T>(d: Decoded<T>, p: nat): Option<(T, nat)> {
    match d case None => None case Some(r) => Some((r.0, p + r.1))
  }

  // ---- decoders ----

  function DecU32(s: seq<byte>): (d: Decoded<u32>)
    ensures d.Some? ==> 0 < d.value.1 <= |s|
  {
    var e := C.LebEnd(s, 0);
    if e.Some? && 0 < e.value <= |s| && UN(32, s[..e.value]).Some?
    then
      Range(32, s[..e.value]);
      assert Pow2(32) == 0x1_0000_0000 by { Pow2Of32(); }
      Some((UN(32, s[..e.value]).value, e.value))
    else None
  }

  lemma Pow2Of32()
    ensures Pow2(32) == 0x1_0000_0000
  {
    assert Pow2(8) == 256;
    Pow2Add(8, 8);
    assert Pow2(16) == 0x1_0000;
    Pow2Add(16, 16);
  }

  /** read_valtype */
  function DecValtype(s: seq<byte>): (d: Decoded<ValType>)
    ensures d.Some? ==> d.value.1 <= |s|
  {
    if s != [] && IsValtype(s[0]) then Some((s[0], 1)) else None
  }

  /** `n` elements, one after the other. */
  function DecSeq<T>(dec: seq<byte> -> Decoded<T>, s: seq<byte>, n: nat): (d: Decoded<seq<T>>)
    ensures d.Some? ==> d.value.1 <= |s| && |d.value.0| == n
    decreases n
  {
    if n == 0 then Some(([], 0))
    else match dec(s)
      case None => None
      case Some(r) =>
        if r.1 > |s| then None
        else match DecSeq(dec, s[r.1..], n - 1)
          case None => None
          case Some(q) => Some(([r.0] + q.0, r.1 + q.1))
  }

  /** read_vec */
  function DecVec<T>(dec: seq<byte> -> Decoded<T>, s: seq<byte>): (d: Decoded<seq<T>>)
    ensures d.Some? ==> d.value.1 <= |s|
  {
    match DecU32(s)
    case None => None
    case Some(c) =>
      match DecSeq(dec, s[c.1..], c.0)
      case None => None
      case Some(q) => Some((q.0, c.1 + q.1))
  }

  function DecResulttype(s: seq<byte>): (d: Decoded<seq<ValType>>)
    ensures d.Some? ==> d.value.1 <= |s|
  {
    DecVec(DecValtype, s)
  }

  function DecSignature(s: seq<byte>): (d: Decoded<Signature>)
    ensures d.Some? ==> d.value.1 <= |s|
  {
    if s == [] || s[0] != 0x60 then None
    else match DecResulttype(s[1..])
      case None => None
      case Some(a) =>
        match DecResulttype(s[1 + a.1..])
        case None => None
        case Some(b) => Some((Signature(a.0, b.0), 1 + a.1 + b.1))
  }

  /** read_name */
  function DecName(s: seq<byte>): (d: Decoded<seq<byte>>)
    ensures d.Some? ==> d.value.1 <= |s|
  {
    match DecU32(s)
    case None => None
    case Some(c) =>
      if c.0 > |s| - c.1 || !Utf8.Valid(s[c.1..c.1 + c.0]) then None else Some((s[c.1..c.1 + c.0], c.1 + c.0))
  }

  /** What read_limits finds besides the limits. */
  datatype LimitsAt = LimitsAt(lim: Limits, shared: bool, shift: byte)

  /** The largest size, in units of 2^shift bytes, of a memory or a table. */
  function TypeMax(mem: bool, shift: byte): nat {
    if !mem then U32_MAX else if shift == PAGE_SHIFT then 65536 else 0x1_0000_0000
  }

  /** The checks of read_limits on what it has read. */
  function InRange(min: u32, max: u32, hasMax: bool, mem: bool, shared: bool, shift: u32): Option<LimitsAt> {
    if shift != 0 && shift != PAGE_SHIFT then None
    else
      var top := TypeMax(mem, shift);
      var lim := Limits(min, if hasMax || top >= U32_MAX then max else top);
      if (hasMax && top < max) || top < min || lim.min > lim.max then None else Some(LimitsAt(lim, shared, shift))
  }

  /** What follows the flags at the start of `s`, with these flags. */
  function LimitsAfter(s: seq<byte>, mem: bool, hasMax: bool, shared: bool, hasShift: bool): (d: Decoded<LimitsAt>)
    requires s != []
    ensures d.Some? ==> d.value.1 <= |s|
  {
    match DecU32(s[1..])
    case None => None
    case Some(min) =>
      match if hasMax then DecU32(s[1 + min.1..]) else Some((U32_MAX, 0))
      case None => None
      case Some(max) =>
        var k := 1 + min.1 + max.1;
        match if hasShift then DecU32(s[k..]) else Some((if mem then PAGE_SHIFT else 0, 0))
        case None => None
        case Some(sh) =>
          match InRange(min.0, max.0, hasMax, mem, shared, sh.0)
          case None => None
          case Some(x) => Some((x, k + sh.1))
  }

  /** read_limits; tables have no flags of their own. */
  function DecLimits(s: seq<byte>, mem: bool): (d: Decoded<LimitsAt>)
    ensures d.Some? ==> d.value.1 <= |s|
  {
    if s == [] then None
    else
      var hasMax := s[0] % 2 == 1;
      var shared := s[0] / 2 % 2 == 1;
      var hasShift := mem && s[0] / 8 % 2 == 1;
      var rest := s[0] - s[0] % 2 - (if mem && shared then SHARED else 0) - if hasShift then CUSTOM_PAGE_SIZE else 0;
      if (!hasMax && shared) || rest != 0 then None else LimitsAfter(s, mem, hasMax, shared, hasShift)
  }

  function DecMemtype(s: seq<byte>): (d: Decoded<MemType>)
    ensures d.Some? ==> d.value.1 <= |s|
  {
    match DecLimits(s, true)
    case None => None
    case Some(l) => Some((MemType(l.0.lim, l.0.shared, l.0.shift), l.1))
  }

  function DecTabletype(s: seq<byte>): (d: Decoded<TableType>)
    ensures d.Some? ==> d.value.1 <= |s|
  {
    if s == [] || !IsReftype(s[0]) then None
    else match DecLimits(s[1..], false)
      case None => None
      case Some(l) => Some((TableType(s[0], l.0.lim), 1 + l.1))
  }

  function DecGlobaltype(s: seq<byte>): (d: Decoded<GlobalType>)
    ensures d.Some? ==> d.value.1 <= |s|
  {
    if |s| < 2 || !IsValtype(s[0]) || s[1] > 1 then None else Some((GlobalType(s[0], s[1] == 1), 2))
  }

  /** read_importdesc; `ntypes` is the number of types read before. */
  function DecDesc(s: seq<byte>, ntypes: nat): (d: Decoded<ImportDesc>)
    ensures d.Some? ==> d.value.1 <= |s|
  {
    if s == [] then None
    else if s[0] == 0 then
      match DecU32(s[1..])
      case None => None
      case Some(i) => if i.0 >= ntypes then None else Some((ImportFunc(i.0), 1 + i.1))
    else if s[0] == 1 then
      match DecTabletype(s[1..]) case None => None case Some(t) => Some((ImportTable(t.0), 1 + t.1))
    else if s[0] == 2 then
      match DecMemtype(s[1..]) case None => None case Some(t) => Some((ImportMem(t.0), 1 + t.1))
    else if s[0] == 3 then
      match DecGlobaltype(s[1..]) case None => None case Some(t) => Some((ImportGlobal(t.0), 1 + t.1))
    else None
  }

  function DecImport(s: seq<byte>, ntypes: nat): (d: Decoded<Import>)
    ensures d.Some? ==> d.value.1 <= |s|
  {
    match DecName(s)
    case None => None
    case Some(a) =>
      match DecName(s[a.1..])
      case None => None
      case Some(b) =>
        match DecDesc(s[a.1 + b.1..], ntypes)
        case None => None
        case Some(d) => Some((Import(a.0, b.0, d.0), a.1 + b.1 + d.1))
  }

  /** section_load: the id of a section and its bytes. */
  function DecSection(s: seq<byte>): (d: Decoded<(byte, seq<byte>)>)
    ensures d.Some? ==> 0 < d.value.1 <= |s|
  {
    if s == [] then None
    else match DecU32(s[1..])
      case None => None
      case Some(n) => if 1 + n.1 + n.0 > |s| then None else Some(((s[0], s[1 + n.1..1 + n.1 + n.0]), 1 + n.1 + n.0))
  }

  /** read_section: the vector of a section, which must be all there is. */
  function DecAll<T>(dec: seq<byte> -> Decoded<T>, s: seq<byte>): Option<seq<T>> {
    match DecVec(dec, s) case None => None case Some(v) => if v.1 == |s| then Some(v.0) else None
  }

  /** The sections that are modelled, by id. Of a custom section only the name is read. */
  function DecContent(id: byte, s: seq<byte>, m: Mod): Option<Mod> {
    if id == 0 then if DecName(s).None? then None else Some(m)
    else if id == 1 then match DecAll(DecSignature, s) case None => None case Some(v) => Some(m.(types := v))
    else if id == 2 then match DecAll(ImportDecoder(|m.types|), s) case None => None case Some(v) => Some(m.(imports := v))
    else if id == 4 then match DecAll(DecTabletype, s) case None => None case Some(v) => Some(m.(tables := v))
    else if id == 5 then match DecAll(DecMemtype, s) case None => None case Some(v) => Some(m.(mems := v))
    else None
  }

  function ImportDecoder(ntypes: nat): seq<byte> -> Decoded<Import> { s => DecImport(s, ntypes) }

  /** The sections in `s`; all but the custom ones in order and at most once. `seen` is the last id. */
  function DecSections(s: seq<byte>, seen: nat, m: Mod): Option<Mod>
    decreases |s|
  {
    if s == [] then Some(m)
    else match DecSection(s)
      case None => None
      case Some(d) =>
        if d.0.0 > 0 && seen >= d.0.0 then None
        else match DecContent(d.0.0, d.0.1, m)
          case None => None
          case Some(m1) => DecSections(s[d.1..], if d.0.0 > 0 then d.0.0 else seen, m1)
  }

  const EMPTY: Mod := Mod([], [], [], [])

  function MemImports(xs: seq<Import>): nat {
    if xs == [] then 0 else (if xs[0].desc.ImportMem? then 1 else 0) + MemImports(xs[1..])
  }

  /** Imported or not, there is at most one memory. */
  predicate OneMemory(m: Mod) { MemImports(m.imports) + |m.mems| <= 1 }

  /** module_load_into, of a module with these sections only. */
  function DecModule(s: seq<byte>): Option<Mod> {
    if |s| < 8 || s[..4] != PREAMBLE[0] || s[4..8] != PREAMBLE[1] then None
    else match DecSections(s[8..], 0, EMPTY)
      case None => None
      case Some(m) => if OneMemory(m) then Some(m) else None
  }

  // ---- the readers ----

  /** Where a LEB ends. */
  lemma {:induction false} LebEndIs(s: seq<byte>, q: nat, e: nat)
    requires q < e <= |s| && s[e - 1] < 128 && forall i :: q <= i < e - 1 ==> s[i] >= 128
    ensures C.LebEnd(s, q) == Some(e)
    decreases e - q
  {
    if q + 1 < e { LebEndIs(s, q + 1, e); }
  }

  lemma {:induction false} LebEndStops(s: seq<byte>, q: nat)
    ensures C.LebEnd(s, q).Some? ==> q < C.LebEnd(s, q).value <= |s|
    decreases |s| - q
  {
    if q < |s| && s[q] >= 128 { LebEndStops(s, q + 1); }
  }

  /** A uN at the start of `s` is what DecU32 finds. */
  lemma DecU32Is(s: seq<byte>, e: nat)
    requires e <= |s| && UN(32, s[..e]).Some?
    ensures DecU32(s) == Some((UN(32, s[..e]).value, e))
  {
    Shape(32, false, s[..e]);
    assert forall i :: 0 <= i < e ==> s[..e][i] == s[i];
    LebEndIs(s, 0, e);
  }

  lemma DecU32Accepted(buf: seq<byte>, p: nat, ep: nat)
    requires p <= ep <= |buf|
    ensures DecU32(buf[p..ep]).Some? ==> Accepts(buf, p, ep, 32, false)
  {
    var d := DecU32(buf[p..ep]);
    if d.Some? {
      var e := p + d.value.1;
      assert buf[p..e] == buf[p..ep][..e - p];
      assert Value(32, false, buf[p..e]).Some?;
    }
  }

  /** read_leb_u32 */
  method ReadU32(buf: seq<byte>, p: nat, ep: nat) returns (r: Option<(u32, nat)>)
    requires p <= ep <= |buf|
    ensures r == At(DecU32(buf[p..ep]), p)
  {
    hide UN;
    var l := ReadLeb(buf, p, ep, true, 32, false);
    ghost var s := buf[p..ep];
    DecU32Accepted(buf, p, ep);
    if l.Err? { return None; }
    assert buf[p..l.next] == s[..l.next - p];
    DecU32Is(s, l.next - p);
    var v := UN(32, buf[p..l.next]).value;
    Fits(v);
    return Some((l.value, l.next));
  }

  lemma Fits(v: nat)
    requires v <= U32_MAX
    ensures Wrap64(v) == v
  {
  }

  lemma SliceOfSlice(buf: seq<byte>, p: nat, ep: nat, k: nat, n: nat)
    requires p <= ep <= |buf| && p + k + n <= ep
    ensures buf[p..ep][k..k + n] == buf[p + k..p + k + n]
  {
    var a, b := buf[p..ep][k..k + n], buf[p + k..p + k + n];
    assert |a| == |b| && forall i :: 0 <= i < n ==> a[i] == b[i];
  }

  method ReadName(buf: seq<byte>, p: nat, ep: nat) returns (r: Option<(seq<byte>, nat)>)
    requires p <= ep <= |buf|
    ensures r == At(DecName(buf[p..ep]), p)
  {
    hide DecU32, Utf8.IsUtf8, Utf8.Valid;
    ghost var s := buf[p..ep];
    var c := ReadU32(buf, p, ep);
    if c.None? { return None; }
    var n: nat, q: nat := c.value.0, c.value.1;
    ghost var k := q - p;
    assert DecU32(s).Some? && DecU32(s).value.0 == n && DecU32(s).value.1 == k;
    if n > ep - q { return None; }
    SliceOfSlice(buf, p, ep, k, n);
    var ok := Utf8.CheckUtf8(buf, q, q + n);
    if !ok { return None; }
    return Some((buf[q..q + n], q + n));
  }

  /** The elements that can be read, up to `n`, before one that cannot. */
  function Good<T>(dec: seq<byte> -> Decoded<T>, s: seq<byte>, n: nat): seq<T>
    decreases n
  {
    if n == 0 then []
    else match dec(s)
      case None => []
      case Some(r) => if r.1 > |s| then [] else [r.0] + Good(dec, s[r.1..], n - 1)
  }

  /** A sequence is decoded exactly when all its elements are. */
  lemma {:induction false} DecSeqIsGood<T>(dec: seq<byte> -> Decoded<T>, s: seq<byte>, n: nat)
    ensures DecSeq(dec, s, n).Some? <==> |Good(dec, s, n)| == n
    ensures DecSeq(dec, s, n).Some? ==> DecSeq(dec, s, n).value.0 == Good(dec, s, n)
    ensures |Good(dec, s, n)| <= n
    decreases n
  {
    if n > 0 && dec(s).Some? && dec(s).value.1 <= |s| { DecSeqIsGood(dec, s[dec(s).value.1..], n - 1); }
  }

  /** A decoder that claims no more than is there. */
  ghost predicate Honest<T>(dec: seq<byte> -> Decoded<T>) { forall s :: dec(s).Some? ==> dec(s).value.1 <= |s| }

  /** The elements of a vector whose count is read. */
  function Elements<T>(dec: seq<byte> -> Decoded<T>, s: seq<byte>): seq<T>
    requires DecU32(s).Some?
  {
    Good(dec, s[DecU32(s).value.1..], DecU32(s).value.0)
  }

  lemma OneElement<T>(dec: seq<byte> -> Decoded<T>, s: seq<byte>, n: nat)
    requires n > 0
    ensures dec(s).None? ==> Good(dec, s, n) == [] && DecSeq(dec, s, n) == None
    ensures dec(s).Some? && dec(s).value.1 <= |s| ==>
              var r := dec(s).value;
              && Good(dec, s, n) == [r.0] + Good(dec, s[r.1..], n - 1)
              && DecSeq(dec, s, n) == Later(DecSeq(dec, s[r.1..], n - 1), [r.0], r.1)
  {
  }

  lemma NoElements<T>(dec: seq<byte> -> Decoded<T>, s: seq<byte>)
    ensures Good(dec, s, 0) == [] && DecSeq(dec, s, 0) == Some(([], 0))
  {
  }

  lemma LaterNone<T>(before: seq<T>, k: nat)
    ensures Later<T>(None, before, k) == None
  {
  }

  lemma LaterSome<T>(x: seq<T>, n: nat, before: seq<T>, k: nat)
    ensures Later(Some((x, n)), before, k) == Some((before + x, k + n))
  {
  }

  lemma Reassociate<T>(a: seq<T>, x: T, b: seq<T>)
    ensures a + ([x] + b) == a + [x] + b
  {
  }

  lemma NothingAfter<T>(a: seq<T>)
    ensures a + [] == a
  {
  }

  lemma RestOf(buf: seq<byte>, p: nat, ep: nat, k: nat)
    requires p + k <= ep <= |buf|
    ensures buf[p..ep][k..] == buf[p + k..ep]
  {
  }

  /** An element whose own allocations fail, by its index. */
  type Failures = nat -> bool

  /** The loop of _read_vec_with_ctx_impl: it stops at the first element that cannot be read. */
  method ReadElements<T>(dec: seq<byte> -> Decoded<T>, buf: seq<byte>, p: nat, ep: nat, count: nat, fails: Failures)
    returns (ok: bool, next: nat, read: seq<T>)
    requires p <= ep <= |buf| && Honest(dec)
    ensures FirstElements(read, Good(dec, buf[p..ep], count), count, fails) && p <= next <= ep
    ensures ok <==> |read| == count
    ensures ok ==> DecSeq(dec, buf[p..ep], count) == Some((read, next - p))
  {
    hide Honest, Good, DecSeq, Later;
    read, next := [], p;
    var i: nat := 0;
    LaterNothing(DecSeq(dec, buf[p..ep], count));
    while i < count
      invariant i == |read| <= count && p <= next <= ep && forall k: nat :: k < i ==> !fails(k)
      invariant read + Good(dec, buf[next..ep], count - i) == Good(dec, buf[p..ep], count)
      invariant DecSeq(dec, buf[p..ep], count) == Later(DecSeq(dec, buf[next..ep], count - i), read, next - p)
    {
      if fails(i) {
        GoodAtMost(dec, buf[p..ep], count);
        return false, next, read;
      }
      var d := dec(buf[next..ep]);
      OneElement(dec, buf[next..ep], count - i);
      if d.None? {
        LaterNone<T>(read, next - p);
        NothingAfter(read);
        return false, next, read;
      }
      HonestAt(dec, buf[next..ep]);
      RestOf(buf, next, ep, d.value.1);
      Reassociate(read, d.value.0, Good(dec, buf[next + d.value.1..ep], count - i - 1));
      LaterOnce(DecSeq(dec, buf[next + d.value.1..ep], count - i - 1), read, next - p, d.value);
      read := read + [d.value.0];
      next := next + d.value.1;
      i := i + 1;
    }
    NoElements(dec, buf[next..ep]);
    LaterSome<T>([], 0, read, next - p);
    NothingAfter(read);
    return true, next, read;
  }

  /** Those of the `good` elements that are before the first one that fails. */
  ghost predicate FirstElements<T>(read: seq<T>, good: seq<T>, count: nat, fails: Failures) {
    && |good| <= count && read <= good
    && (forall k: nat :: k < |read| ==> !fails(k))
    && (|read| == count || |read| == |good| || fails(|read|))
  }

  lemma GoodAtMost<T>(dec: seq<byte> -> Decoded<T>, s: seq<byte>, n: nat)
    ensures |Good(dec, s, n)| <= n
  {
    DecSeqIsGood(dec, s, n);
  }

  /**
    _read_vec_with_ctx_impl with its element reader: `have` is the array so far.
    A failure leaves array and cursor as they were, and every element that was
    read has been cleared, once and in order.
   */
  method ReadVec<T>(dec: seq<byte> -> Decoded<T>, buf: seq<byte>, p: nat, ep: nat, have: seq<T>, oom: bool, fails: Failures)
    returns (ok: bool, next: nat, items: seq<T>, cleared: seq<T>)
    requires p <= ep <= |buf| && |have| <= U32_MAX && Honest(dec)
    ensures ok ==> DecVec(dec, buf[p..ep]).Some? && next == p + DecVec(dec, buf[p..ep]).value.1
    ensures ok ==> items == have + DecVec(dec, buf[p..ep]).value.0 && cleared == []
    ensures !ok ==> next == p && items == have
    ensures !ok && !oom && (forall k: nat :: !fails(k)) ==>
              DecVec(dec, buf[p..ep]).None? || |have| + |DecVec(dec, buf[p..ep]).value.0| > U32_MAX
    ensures !ok && cleared != [] ==> DecU32(buf[p..ep]).Some?
    ensures !ok && DecU32(buf[p..ep]).Some? ==>
              var n := DecU32(buf[p..ep]).value.0;
              if oom || |have| + n > U32_MAX then cleared == []
              else |cleared| < n && FirstElements(cleared, Elements(dec, buf[p..ep]), n, fails)
  {
    hide Honest, Good;
    var c := ReadU32(buf, p, ep);
    if c.None? { return false, p, have, []; }
    var (count, q) := c.value;
    assert buf[p..ep][q - p..] == buf[q..ep];
    DecSeqIsGood(dec, buf[q..ep], count);
    if count == 0 {
      assert have + [] == have;
      return true, q, have, [];
    }
    if |have| + count > U32_MAX || oom { return false, p, have, []; }
    var read;
    ok, q, read := ReadElements(dec, buf, q, ep, count, fails);
    if ok { return true, q, have + read, []; }
    return false, p, have, read;
  }

  /** A decoded sequence with elements before it. */
  function Later<T>(d: Decoded<seq<T>>, before: seq<T>, k: nat): Decoded<seq<T>> {
    match d case None => None case Some(r) => Some((before + r.0, k + r.1))
  }

  lemma LaterNothing<T>(d: Decoded<seq<T>>)
    ensures Later(d, [], 0) == d
  {
    if d.Some? { assert [] + d.value.0 == d.value.0; }
  }

  lemma LaterOnce<T>(d: Decoded<seq<T>>, before: seq<T>, k: nat, r: (T, nat))
    ensures Later(Later(d, [r.0], r.1), before, k) == Later(d, before + [r.0], k + r.1)
  {
    if d.Some? { assert before + ([r.0] + d.value.0) == before + [r.0] + d.value.0; }
  }

  lemma HonestAt<T>(dec: seq<byte> -> Decoded<T>, s: seq<byte>)
    requires Honest(dec)
    ensures dec(s).Some? ==> dec(s).value.1 <= |s|
  {
  }

  // ---- types ----

  /** The checks, and the maximum that is left, one after the other. */
  lemma RangeChecks(min: u32, max: u32, hasMax: bool, mem: bool, shared: bool, shift: u32)
    ensures var top := TypeMax(mem, shift % 256);
            var most: u32 := if !hasMax && top < U32_MAX then top else max;
            InRange(min, max, hasMax, mem, shared, shift) ==
            if (shift != 0 && shift != PAGE_SHIFT) || (hasMax && top < max) || top < min || min > most then None
            else Some(LimitsAt(Limits(min, most), shared, shift))
  {
  }

  /** What follows the flags of limits. */
  method ReadLimitsAfter(buf: seq<byte>, p: nat, ep: nat, mem: bool, hasMax: bool, shared: bool, hasShift: bool)
    returns (r: Option<(LimitsAt, nat)>)
    requires p < ep <= |buf|
    ensures r == At(LimitsAfter(buf[p..ep], mem, hasMax, shared, hasShift), p)
  {
    hide DecU32, TypeMax, InRange;
    ghost var s := buf[p..ep];
    assert buf[p + 1..ep] == s[1..];
    var min := ReadU32(buf, p + 1, ep);
    if min.None? { return None; }
    var q := min.value.1;
    assert buf[q..ep] == s[q - p..];
    var max: u32 := U32_MAX;
    if hasMax {
      var d := ReadU32(buf, q, ep);
      if d.None? { return None; }
      max, q := d.value.0, d.value.1;
    }
    assert buf[q..ep] == s[q - p..];
    var shift: nat := if mem then PAGE_SHIFT else 0;
    if hasShift {
      var d := ReadU32(buf, q, ep);
      if d.None? { return None; }
      shift, q := d.value.0, d.value.1;
    }
    RangeChecks(min.value.0, max, hasMax, mem, shared, shift);
    if shift != 0 && shift != PAGE_SHIFT { return None; }
    var top := TypeMax(mem, shift);
    if hasMax {
      if top < max { return None; }
    } else if top < U32_MAX {
      max := top;
    }
    if top < min.value.0 || min.value.0 > max { return None; }
    return Some((LimitsAt(Limits(min.value.0, max), shared, shift), q));
  }

  method ReadLimits(buf: seq<byte>, p: nat, ep: nat, mem: bool) returns (r: Option<(LimitsAt, nat)>)
    requires p <= ep <= |buf|
    ensures r == At(DecLimits(buf[p..ep], mem), p)
  {
    hide LimitsAfter;
    if p >= ep { return None; }
    var u8: int := buf[p];
    var hasMax, hasShift := u8 % 2 == 1, false;
    var shared := u8 / 2 % 2 == 1;
    if !hasMax && shared { return None; }
    var rest: int := u8 - u8 % 2;
    if mem {
      if shared { rest := rest - SHARED; }
      hasShift := u8 / 8 % 2 == 1;
      if hasShift { rest := rest - CUSTOM_PAGE_SIZE; }
    }
    if rest != 0 { return None; }
    r := ReadLimitsAfter(buf, p, ep, mem, hasMax, shared, hasShift);
  }

  method ReadMemtype(buf: seq<byte>, p: nat, ep: nat) returns (r: Option<(MemType, nat)>)
    requires p <= ep <= |buf|
    ensures r == At(DecMemtype(buf[p..ep]), p)
  {
    hide DecLimits;
    var l := ReadLimits(buf, p, ep, true);
    if l.None? { return None; }
    return Some((MemType(l.value.0.lim, l.value.0.shared, l.value.0.shift), l.value.1));
  }

  method ReadTabletype(buf: seq<byte>, p: nat, ep: nat) returns (r: Option<(TableType, nat)>)
    requires p <= ep <= |buf|
    ensures r == At(DecTabletype(buf[p..ep]), p)
  {
    hide DecLimits;
    if p >= ep || !IsReftype(buf[p]) { return None; }
    assert buf[p + 1..ep] == buf[p..ep][1..];
    var l := ReadLimits(buf, p + 1, ep, false);
    if l.None? { return None; }
    return Some((TableType(buf[p], l.value.0.lim), l.value.1));
  }

  method ReadGlobaltype(buf: seq<byte>, p: nat, ep: nat) returns (r: Option<(GlobalType, nat)>)
    requires p <= ep <= |buf|
    ensures r == At(DecGlobaltype(buf[p..ep]), p)
  {
    if p >= ep || !IsValtype(buf[p]) { return None; }
    if p + 1 >= ep { return None; }
    if buf[p + 1] == 1 { return Some((GlobalType(buf[p], true), p + 2)); }
    if buf[p + 1] == 0 { return Some((GlobalType(buf[p], false), p + 2)); }
    return None;
  }

  method ReadImportdesc(buf: seq<byte>, p: nat, ep: nat, ntypes: nat) returns (r: Option<(ImportDesc, nat)>)
    requires p <= ep <= |buf|
    ensures r == At(DecDesc(buf[p..ep], ntypes), p)
  {
    hide DecTabletype, DecMemtype, DecGlobaltype, DecU32;
    if p >= ep { return None; }
    assert buf[p + 1..ep] == buf[p..ep][1..];
    if buf[p] == 0 {
      var i := ReadU32(buf, p + 1, ep);
      if i.None? || i.value.0 >= ntypes { return None; }
      return Some((ImportFunc(i.value.0), i.value.1));
    } else if buf[p] == 1 {
      var t := ReadTabletype(buf, p + 1, ep);
      if t.None? { return None; }
      return Some((ImportTable(t.value.0), t.value.1));
    } else if buf[p] == 2 {
      var t := ReadMemtype(buf, p + 1, ep);
      if t.None? { return None; }
      return Some((ImportMem(t.value.0), t.value.1));
    } else if buf[p] == 3 {
      var t := ReadGlobaltype(buf, p + 1, ep);
      if t.None? { return None; }
      return Some((ImportGlobal(t.value.0), t.value.1));
    }
    return None;
  }

  method ReadImport(buf: seq<byte>, p: nat, ep: nat, ntypes: nat) returns (r: Option<(Import, nat)>)
    requires p <= ep <= |buf|
    ensures r == At(DecImport(buf[p..ep], ntypes), p)
  {
    hide DecName, DecDesc;
    ghost var s := buf[p..ep];
    var a := ReadName(buf, p, ep);
    if a.None? { return None; }
    var q := a.value.1;
    assert buf[q..ep] == s[q - p..];
    var b := ReadName(buf, q, ep);
    if b.None? { return None; }
    q := b.value.1;
    assert buf[q..ep] == s[q - p..];
    var d := ReadImportdesc(buf, q, ep, ntypes);
    if d.None? { return None; }
    return Some((Import(a.value.0, b.value.0, d.value.0), d.value.1));
  }

  lemma DecodersHonest(ntypes: nat)
    ensures Honest(DecValtype) && Honest(DecSignature) && Honest(DecTabletype) && Honest(DecMemtype)
    ensures Honest(ImportDecoder(ntypes))
  {
    hide DecSignature, DecTabletype, DecMemtype, DecImport;
  }

  /** read_resulttype */
  method ReadResulttype(buf: seq<byte>, p: nat, ep: nat, oom: bool) returns (r: Option<(seq<ValType>, nat)>)
    requires p <= ep <= |buf|
    ensures r.Some? ==> r == At(DecResulttype(buf[p..ep]), p)
    ensures r.None? ==> oom || DecResulttype(buf[p..ep]).None?
  {
    hide DecVec, Honest, Elements;
    DecodersHonest(0);
    VecFits(DecValtype, buf[p..ep]);
    var ok, next, items, cleared := ReadVec(DecValtype, buf, p, ep, [], oom, _ => false);
    if !ok { return None; }
    NothingBefore(items, DecVec(DecValtype, buf[p..ep]));
    return Some((items, next));
  }

  lemma NothingBefore<T>(items: seq<T>, d: Decoded<seq<T>>)
    requires d.Some? && items == [] + d.value.0
    ensures items == d.value.0
  {
  }

  lemma VecFits<T>(dec: seq<byte> -> Decoded<T>, s: seq<byte>)
    ensures DecVec(dec, s).Some? ==> |DecVec(dec, s).value.0| <= U32_MAX
  {
  }

  lemma SignatureParts(s: seq<byte>)
    ensures s == [] || s[0] != 0x60 || DecResulttype(s[1..]).None? ==> DecSignature(s).None?
    ensures s != [] && s[0] == 0x60 && DecResulttype(s[1..]).Some? ==>
              var a := DecResulttype(s[1..]).value;
              var b := DecResulttype(s[1 + a.1..]);
              DecSignature(s) == if b.None? then None else Some((Signature(a.0, b.value.0), 1 + a.1 + b.value.1))
  {
    hide DecResulttype;
  }

  /** read_functype; `cleared` are the parameters, if they were read and the results were not. */
  method ReadFunctype(buf: seq<byte>, p: nat, ep: nat, oomParams: bool, oomResults: bool)
    returns (r: Option<(Signature, nat)>, cleared: Option<seq<ValType>>)
    requires p <= ep <= |buf|
    ensures r.Some? ==> r == At(DecSignature(buf[p..ep]), p) && cleared == None
    ensures r.None? ==> oomParams || oomResults || DecSignature(buf[p..ep]).None?
    ensures r.None? && !oomParams ==> cleared == ParamsOf(buf[p..ep])
    ensures cleared.Some? ==> cleared == ParamsOf(buf[p..ep])
  {
    hide DecResulttype, DecSignature;
    ghost var s := buf[p..ep];
    SignatureParts(s);
    if p >= ep || buf[p] != 0x60 { return None, None; }
    assert buf[p + 1..ep] == s[1..];
    var a := ReadResulttype(buf, p + 1, ep, oomParams);
    if a.None? { return None, None; }
    var q := a.value.1;
    assert buf[q..ep] == s[1 + DecResulttype(s[1..]).value.1..];
    var b := ReadResulttype(buf, q, ep, oomResults);
    if b.None? { return None, Some(a.value.0); }
    return Some((Signature(a.value.0, b.value.0), b.value.1)), None;
  }

  /** The parameters of the function type in `s`, if they can be read. */
  function ParamsOf(s: seq<byte>): Option<seq<ValType>> {
    if s == [] || s[0] != 0x60 then None
    else match DecResulttype(s[1..]) case None => None case Some(a) => Some(a.0)
  }

  // ---- sections ----

  /** section_load */
  method SectionLoad(buf: seq<byte>, p: nat, ep: nat) returns (r: Option<((byte, seq<byte>), nat)>)
    requires p <= ep <= |buf|
    ensures r == At(DecSection(buf[p..ep]), p)
  {
    hide DecU32;
    ghost var s := buf[p..ep];
    if p >= ep { return None; }
    assert buf[p + 1..ep] == s[1..];
    var n := ReadU32(buf, p + 1, ep);
    if n.None? { return None; }
    var size, q := n.value.0, n.value.1;
    if q + size > ep { return None; }
    assert buf[q..q + size] == s[q - p..q - p + size];
    return Some(((buf[p], buf[q..q + size]), q + size));
  }

  /** read_section with read_vec: all of the section's bytes, or nothing. */
  method ReadAll<T>(dec: seq<byte> -> Decoded<T>, data: seq<byte>, oom: bool, fails: Failures) returns (r: Option<seq<T>>)
    requires Honest(dec)
    ensures r.Some? ==> r == DecAll(dec, data)
    ensures r.None? && !oom && (forall k: nat :: !fails(k)) ==> DecAll(dec, data).None?
  {
    hide DecVec, Honest, Elements;
    VecFits(dec, data);
    assert data[0..|data|] == data;
    var ok, next, items, cleared := ReadVec(dec, data, 0, |data|, [], oom, fails);
    if ok { NothingBefore(items, DecVec(dec, data)); }
    if !ok || next != |data| { return None; }
    return Some(items);
  }

  method ReadContent(id: byte, data: seq<byte>, m: Mod, oom: bool, fails: Failures) returns (r: Option<Mod>)
    ensures r.Some? ==> r == DecContent(id, data, m)
    ensures r.None? && !oom && (forall k: nat :: !fails(k)) ==> DecContent(id, data, m).None?
  {
    hide DecAll, Honest;
    DecodersHonest(|m.types|);
    if id == 0 {
      assert data[0..|data|] == data;
      var n := ReadName(data, 0, |data|);
      return if n.None? then None else Some(m);
    } else if id == 1 {
      var v := ReadAll(DecSignature, data, oom, fails);
      if v.None? { return None; }
      return Some(m.(types := v.value));
    } else if id == 2 {
      var v := ReadAll(ImportDecoder(|m.types|), data, oom, fails);
      if v.None? { return None; }
      return Some(m.(imports := v.value));
    } else if id == 4 {
      var v := ReadAll(DecTabletype, data, oom, fails);
      if v.None? { return None; }
      return Some(m.(tables := v.value));
    } else if id == 5 {
      var v := ReadAll(DecMemtype, data, oom, fails);
      if v.None? { return None; }
      return Some(m.(mems := v.value));
    }
    return None;
  }

  /** The loop over the sections in module_load_into, and the check on memories after it. */
  method ModuleLoad(buf: seq<byte>, oom: bool, fails: byte -> Failures) returns (r: Option<Mod>)
    ensures r.Some? ==> r == DecModule(buf)
    ensures r.None? && !oom && (forall id, k: nat :: !fails(id)(k)) ==> DecModule(buf).None?
  {
    hide DecSection, DecContent, OneMemory;
    if |buf| < 8 || buf[..4] != PREAMBLE[0] || buf[4..8] != PREAMBLE[1] { return None; }
    var p, seen, m := 8, 0, EMPTY;
    assert buf[8..|buf|] == buf[8..];
    while p < |buf|
      invariant p <= |buf|
      invariant DecSections(buf[p..|buf|], seen, m) == DecSections(buf[8..], 0, EMPTY)
      decreases |buf| - p
    {
      var s := SectionLoad(buf, p, |buf|);
      if s.None? { return None; }
      var ((id, data), q) := s.value;
      if id > 0 && seen >= id { return None; }
      assert buf[p..|buf|][q - p..] == buf[q..|buf|];
      var m1 := ReadContent(id, data, m, oom, fails(id));
      if m1.None? { return None; }
      p, seen, m := q, if id > 0 then id else seen, m1.value;
    }
    assert buf[p..|buf|] == [];
    return if OneMemory(m) then Some(m) else None;
  }
}
