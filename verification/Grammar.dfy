/**
  The binary format as a grammar (WebAssembly Core 2.0, section 5, with the flags
  of the threads and custom-page-sizes proposals): which byte strings denote what.
  The decoders of `Reader` accept exactly these strings, on every input.
 */
module Grammar {
  import opened Leb
  import opened Writer
  import opened Reader
  import opened Modules
  import Types
  import M = Machine
  import Utf8

  /** A form of bytes that denote values. */
  type Form<!T> = (seq<byte>, T) -> bool

  /** `dec` finds at the start of any string just the values that its form gives them. */
  ghost predicate Exact<T(!new)>(dec: seq<byte> -> Decoded<T>, form: Form<T>) {
    forall s, x, n: nat :: dec(s) == Some((x, n)) <==> n <= |s| && form(s[..n], x)
  }

  // ---- the forms ----

  predicate IntForm(b: seq<byte>, v: int) { UN(32, b) == Some(v) }

  /** A byte of a value type, and of one whose values are references. */
  ghost predicate ValForm(b: seq<byte>, t: ValType) { b == [t] && exists v :: Types.TypeByte(v) == t }

  ghost predicate RefForm(b: seq<byte>, t: RefType) {
    b == [t] && exists v :: Types.TypeByte(v) == t && (v.FuncRef? || v.ExternRef? || v.ExnRef?)
  }

  /** Elements one after the other. */
  ghost predicate Elems<T(!new)>(b: seq<byte>, xs: seq<T>, form: Form<T>)
    decreases |xs|
  {
    if xs == [] then b == [] else exists k: nat :: k <= |b| && form(b[..k], xs[0]) && Elems(b[k..], xs[1..], form)
  }

  /** Their number, and the elements. */
  ghost predicate VecForm<T(!new)>(b: seq<byte>, xs: seq<T>, form: Form<T>) {
    exists k: nat :: k <= |b| && IntForm(b[..k], |xs|) && Elems(b[k..], xs, form)
  }

  ghost predicate SignatureForm(b: seq<byte>, t: Signature) {
    exists k: nat :: 1 <= k <= |b| && b[0] == 0x60 && VecForm(b[1..k], t.params, ValForm) && VecForm(b[k..], t.results, ValForm)
  }

  ghost predicate NameForm(b: seq<byte>, n: seq<byte>) {
    exists k: nat :: k <= |b| && IntForm(b[..k], |n|) && b[k..] == n && Utf8.IsUtf8(n)
  }

  /** The greatest maximum: of a table any, of a memory what makes 4 GiB. */
  function Most(mem: bool, shift: byte): nat { if mem && shift == 16 then 65536 else 0xffff_ffff }

  /**
    Limits: flags, minimum, maximum, page size. Flag 1 is a maximum, and for
    memories 2 is shared (not without a maximum) and 8 a page size, as a shift.
   */
  ghost predicate LimitsForm(b: seq<byte>, mem: bool, x: LimitsAt) {
    exists i: nat, j: nat :: LimitsSplit(b, mem, x, i, j)
  }

  predicate LimitsSplit(b: seq<byte>, mem: bool, x: LimitsAt, i: nat, j: nat) {
    && 1 <= i <= j <= |b| && (if mem then b[0] in {0, 1, 3, 8, 9, 11} else b[0] in {0, 1})
    && IntForm(b[1..i], x.lim.min)
    && (if b[0] in {1, 3, 9, 11} then IntForm(b[i..j], x.lim.max) else i == j && x.lim.max == Most(mem, x.shift))
    && (if b[0] in {8, 9, 11} then IntForm(b[j..], x.shift) else j == |b| && x.shift == if mem then 16 else 0)
    && (x.shared <==> b[0] in {3, 11})
    && x.shift in {0, 16} && x.lim.min <= x.lim.max <= Most(mem, x.shift)
  }

  ghost predicate MemForm(b: seq<byte>, t: MemType) { LimitsForm(b, true, LimitsAt(t.lim, t.shared, t.shift)) }

  ghost predicate TableForm(b: seq<byte>, t: TableType) {
    b != [] && RefForm(b[..1], t.et) && LimitsForm(b[1..], false, LimitsAt(t.lim, false, 0))
  }

  ghost predicate GlobalForm(b: seq<byte>, t: GlobalType) { |b| == 2 && ValForm(b[..1], t.t) && b[1] == if t.mut then 1 else 0 }

  ghost predicate DescForm(b: seq<byte>, d: ImportDesc, ntypes: nat) {
    && b != []
    && match d
       case ImportFunc(i) => b[0] == 0 && IntForm(b[1..], i) && i < ntypes
       case ImportTable(t) => b[0] == 1 && TableForm(b[1..], t)
       case ImportMem(t) => b[0] == 2 && MemForm(b[1..], t)
       case ImportGlobal(t) => b[0] == 3 && GlobalForm(b[1..], t)
  }

  ghost predicate ImportForm(b: seq<byte>, x: Import, ntypes: nat) {
    exists i: nat, j: nat ::
      i <= j <= |b| && NameForm(b[..i], x.modName) && NameForm(b[i..j], x.name) && DescForm(b[j..], x.desc, ntypes)
  }

  // ---- the decoders are exact ----

  lemma IntExact(s: seq<byte>, v: u32, n: nat)
    ensures DecU32(s) == Some((v, n)) <==> n <= |s| && IntForm(s[..n], v)
  {
    hide UN, DecU32;
    U32Of(s);
    DecU32Size(s);
    if n <= |s| && IntForm(s[..n], v) { DecU32Is(s, n); }
  }

  lemma DecU32Size(s: seq<byte>)
    ensures DecU32(s).Some? ==> DecU32(s).value.1 <= |s|
  {
  }

  /** The value types and the reference types of the standard. */
  lemma TypeBytes(t: byte)
    ensures IsValtype(t) <==> exists v :: Types.TypeByte(v) == t
    ensures IsReftype(t) <==> exists v :: Types.TypeByte(v) == t && (v.FuncRef? || v.ExternRef? || v.ExnRef?)
  {
    if IsValtype(t) { assert Types.TypeByte(Types.TypeOf(t)) == t; }
    forall v ensures M.ValtypeCells(Types.TypeByte(v)).Some? { Types.CellsHoldValues(0, v); }
    assert Types.TypeByte(Types.FuncRef) == 0x70 && Types.TypeByte(Types.ExternRef) == 0x6f && Types.TypeByte(Types.ExnRef) == 0x69;
  }

  lemma ValExact(s: seq<byte>, t: ValType, n: nat)
    ensures DecValtype(s) == Some((t, n)) <==> n <= |s| && ValForm(s[..n], t)
  {
    hide IsValtype;
    if s != [] { TypeBytes(s[0]); }
    TypeBytes(t);
  }

  lemma {:induction false} SeqExact<T(!new)>(dec: seq<byte> -> Decoded<T>, form: Form<T>, s: seq<byte>, xs: seq<T>, n: nat)
    requires Exact(dec, form)
    ensures DecSeq(dec, s, |xs|) == Some((xs, n)) <==> n <= |s| && Elems(s[..n], xs, form)
    decreases |xs|
  {
    hide Exact;
    if xs == [] {
      assert n <= |s| ==> (s[..n] == [] <==> n == 0);
    } else {
      OneElement(dec, s, |xs|);
      FoundHere(dec, form, s);
      if dec(s).Some? {
        var (x, k) := dec(s).value;
        var tl := s[k..];
        if n >= k { SeqExact(dec, form, tl, xs[1..], n - k); }
        if n >= k && n <= |s| { SlicesAgree(s, k, n); }
        SeqOne(dec, s, xs, k, x, n);
        if n <= |s| && Elems(s[..n], xs, form) {
          var j: nat :| j <= n && form(s[..n][..j], xs[0]) && Elems(s[..n][j..], xs[1..], form);
          assert s[..n][..j] == s[..j];
          FormFound(dec, form, s, xs[0], j);
        }
      } else if n <= |s| && Elems(s[..n], xs, form) {
        var j: nat :| j <= n && form(s[..n][..j], xs[0]) && Elems(s[..n][j..], xs[1..], form);
        assert s[..n][..j] == s[..j];
        FormFound(dec, form, s, xs[0], j);
        assert false;
      }
    }
  }

  lemma SlicesAgree(s: seq<byte>, k: nat, n: nat)
    requires k <= n <= |s|
    ensures s[k..][..n - k] == s[..n][k..] && s[..n][..k] == s[..k]
  {
  }

  lemma SeqOne<T>(dec: seq<byte> -> Decoded<T>, s: seq<byte>, xs: seq<T>, k: nat, x: T, n: nat)
    requires xs != [] && dec(s) == Some((x, k)) && k <= |s|
    ensures DecSeq(dec, s, |xs|) == Some((xs, n)) <==> x == xs[0] && n >= k && DecSeq(dec, s[k..], |xs| - 1) == Some((xs[1..], n - k))
  {
    hide DecSeq, Good, Later;
    OneElement(dec, s, |xs|);
    var d := DecSeq(dec, s[k..], |xs| - 1);
    LaterNone<T>([x], k);
    if d.Some? {
      LaterSome(d.value.0, d.value.1, [x], k);
      ConsIs(x, d.value.0, xs);
    }
  }

  lemma ConsIs<T>(x: T, tl: seq<T>, xs: seq<T>)
    requires xs != []
    ensures [x] + tl == xs <==> x == xs[0] && tl == xs[1..]
  {
    assert [xs[0]] + xs[1..] == xs;
    if [x] + tl == xs { assert xs[0] == x && xs[1..] == tl; }
  }

  lemma FoundHere<T(!new)>(dec: seq<byte> -> Decoded<T>, form: Form<T>, s: seq<byte>)
    requires Exact(dec, form)
    ensures dec(s).Some? ==> dec(s).value.1 <= |s| && form(s[..dec(s).value.1], dec(s).value.0)
  {
    if dec(s).Some? { assert dec(s) == Some((dec(s).value.0, dec(s).value.1)); }
  }

  lemma FormFound<T(!new)>(dec: seq<byte> -> Decoded<T>, form: Form<T>, s: seq<byte>, x: T, n: nat)
    requires Exact(dec, form) && n <= |s| && form(s[..n], x)
    ensures dec(s) == Some((x, n))
  {
  }

  lemma VecExact<T(!new)>(dec: seq<byte> -> Decoded<T>, form: Form<T>, s: seq<byte>, xs: seq<T>, n: nat)
    requires Exact(dec, form)
    ensures DecVec(dec, s) == Some((xs, n)) <==> n <= |s| && VecForm(s[..n], xs, form)
  {
    hide DecU32, DecSeq, Exact, IntForm;
    DecU32Size(s);
    if DecU32(s).Some? {
      var (c, k) := DecU32(s).value;
      IntExact(s, c, k);
      if n >= k { SeqExact(dec, form, s[k..], xs, n - k); }
      if k <= n <= |s| { SlicesAgree(s, k, n); }
      if DecVec(dec, s) == Some((xs, n)) { assert DecSeq(dec, s[k..], c) == Some((xs, n - k)); }
    }
    if n <= |s| && VecForm(s[..n], xs, form) {
      var j: nat :| j <= n && IntForm(s[..n][..j], |xs|) && Elems(s[..n][j..], xs, form);
      assert s[..n][..j] == s[..j];
      IntFits(s[..j], |xs|);
      IntExact(s, |xs|, j);
    }
  }

  lemma IntFits(b: seq<byte>, v: int)
    requires IntForm(b, v)
    ensures 0 <= v <= U32_MAX
  {
    Range(32, b);
    Pow2Of32();
  }

  lemma AllExact<T(!new)>(dec: seq<byte> -> Decoded<T>, form: Form<T>, s: seq<byte>, xs: seq<T>)
    requires Exact(dec, form)
    ensures DecAll(dec, s) == Some(xs) <==> VecForm(s, xs, form)
  {
    hide DecVec, Exact, VecForm;
    VecExact(dec, form, s, xs, |s|);
    assert s[..|s|] == s;
  }

  lemma ValsExact()
    ensures Exact(DecValtype, ValForm)
  {
    hide DecValtype, ValForm;
    forall s, t: ValType, n: nat ensures DecValtype(s) == Some((t, n)) <==> n <= |s| && ValForm(s[..n], t) { ValExact(s, t, n); }
  }

  lemma ResulttypeExact(s: seq<byte>, ts: seq<ValType>, n: nat)
    ensures DecResulttype(s) == Some((ts, n)) <==> n <= |s| && VecForm(s[..n], ts, ValForm)
  {
    hide Exact, VecForm;
    ValsExact();
    VecExact(DecValtype, ValForm, s, ts, n);
  }

  lemma SignatureExact(s: seq<byte>, t: Signature, n: nat)
    ensures DecSignature(s) == Some((t, n)) <==> n <= |s| && SignatureForm(s[..n], t)
  {
    hide DecResulttype, VecForm;
    if DecSignature(s) == Some((t, n)) {
      var a := DecResulttype(s[1..]).value;
      var b := DecResulttype(s[1 + a.1..]).value;
      SignatureSplit(s, t, n, 1 + a.1);
    }
    if n <= |s| && SignatureForm(s[..n], t) {
      var k: nat :| 1 <= k <= n && s[..n][0] == 0x60 && VecForm(s[..n][1..k], t.params, ValForm) && VecForm(s[..n][k..], t.results, ValForm);
      SignatureSplit(s, t, n, k);
    }
  }

  lemma SignatureSplit(s: seq<byte>, t: Signature, n: nat, k: nat)
    requires 1 <= k <= n <= |s|
    ensures DecResulttype(s[1..]) == Some((t.params, k - 1)) <==> VecForm(s[..n][1..k], t.params, ValForm)
    ensures DecResulttype(s[k..]) == Some((t.results, n - k)) <==> VecForm(s[..n][k..], t.results, ValForm)
  {
    hide DecResulttype, VecForm;
    ResulttypeExact(s[1..], t.params, k - 1);
    ResulttypeExact(s[k..], t.results, n - k);
    assert s[..n][1..k] == s[1..][..k - 1] && s[..n][k..] == s[k..][..n - k];
  }

  lemma NameExact(s: seq<byte>, name: seq<byte>, n: nat)
    ensures DecName(s) == Some((name, n)) <==> n <= |s| && NameForm(s[..n], name)
  {
    hide DecU32, Utf8.Valid, Utf8.IsUtf8, IntForm;
    if DecName(s).Some? {
      var (c, k) := DecU32(s).value;
      DecU32Size(s);
      IntExact(s, c, k);
      Utf8Valid(s[k..k + c]);
      if n == k + c { assert s[..n][..k] == s[..k] && s[..n][k..] == s[k..k + c]; }
    }
    if n <= |s| && NameForm(s[..n], name) {
      var k: nat :| k <= n && IntForm(s[..n][..k], |name|) && s[..n][k..] == name && Utf8.IsUtf8(name);
      assert s[..n][..k] == s[..k] && s[..n][k..] == s[k..n];
      IntFits(s[..k], |name|);
      IntExact(s, |name|, k);
      Utf8Valid(name);
    }
  }

  // ---- limits ----

  lemma MostIs(mem: bool, shift: byte)
    ensures shift in {0, 16} && (mem || shift == 0) ==> Most(mem, shift) == if TypeMax(mem, shift) < U32_MAX then TypeMax(mem, shift) else U32_MAX
    ensures mem && shift in {0, 16} ==> Most(mem, shift) == 0xffff_ffff || Most(mem, shift) * Pow2(shift) == 0x1_0000_0000
  {
    if mem && shift == 16 {
      assert Pow2(8) == 256;
      Pow2Add(8, 8);
    }
  }

  /** An integer that may be missing. */
  lemma MaybeInt(s: seq<byte>, there: bool, v: u32, without: u32, i: nat, j: nat)
    requires i <= |s|
    ensures (if there then DecU32(s[i..]) else Some((without, 0))) == Some((v, j - i)) && i <= j <==>
            i <= j <= |s| && if there then IntForm(s[i..j], v) else i == j && v == without
  {
    hide DecU32, IntForm;
    if i <= j {
      IntExact(s[i..], v, j - i);
      if j <= |s| { assert s[i..][..j - i] == s[i..j]; }
    }
  }

  /** The parts of limits and where they end. */
  lemma LimitsSound(s: seq<byte>, mem: bool, x: LimitsAt, n: nat) returns (i: nat, j: nat)
    requires DecLimits(s, mem) == Some((x, n))
    ensures n <= |s| && LimitsSplit(s[..n], mem, x, i, j)
  {
    hide LimitsAfter, LimitsSplit;
    FlagsOf(s, mem);
    i, j := PartsSound(s, mem, s[0] in {1, 3, 9, 11}, s[0] in {3, 11}, s[0] in {8, 9, 11}, x, n);
    Slices(s, n, i, j);
    SplitIs(s[..n], mem, x, i, j);
  }

  lemma LimitsComplete(s: seq<byte>, mem: bool, x: LimitsAt, n: nat, i: nat, j: nat)
    requires n <= |s| && LimitsSplit(s[..n], mem, x, i, j)
    ensures DecLimits(s, mem) == Some((x, n))
  {
    hide LimitsAfter, LimitsSplit;
    SplitIs(s[..n], mem, x, i, j);
    Slices(s, n, i, j);
    FlagsOf(s, mem);
    PartsComplete(s, mem, s[0] in {1, 3, 9, 11}, s[0] in {3, 11}, s[0] in {8, 9, 11}, x, n, i, j);
  }

  lemma Slices(s: seq<byte>, n: nat, i: nat, j: nat)
    requires 1 <= i <= j <= n <= |s|
    ensures s[..n][0] == s[0] && s[..n][1..i] == s[1..i] && s[..n][i..j] == s[i..j] && s[..n][j..] == s[j..n]
  {
  }

  /** The parts after the flags. */
  predicate Parts(mn: seq<byte>, mx: seq<byte>, sh: seq<byte>, mem: bool, hasMax: bool, shared: bool, hasShift: bool, x: LimitsAt) {
    && IntForm(mn, x.lim.min)
    && (if hasMax then IntForm(mx, x.lim.max) else mx == [] && x.lim.max == Most(mem, x.shift))
    && (if hasShift then IntForm(sh, x.shift) else sh == [] && x.shift == if mem then 16 else 0)
    && x.shared == shared && x.shift in {0, 16} && x.lim.min <= x.lim.max <= Most(mem, x.shift)
  }

  lemma SplitIs(b: seq<byte>, mem: bool, x: LimitsAt, i: nat, j: nat)
    ensures LimitsSplit(b, mem, x, i, j) <==>
              && 1 <= i <= j <= |b| && (if mem then b[0] in {0, 1, 3, 8, 9, 11} else b[0] in {0, 1})
              && Parts(b[1..i], b[i..j], b[j..], mem, b[0] in {1, 3, 9, 11}, b[0] in {3, 11}, b[0] in {8, 9, 11}, x)
  {
    hide IntForm, Most;
    if 1 <= i <= j <= |b| { assert (b[i..j] == [] <==> i == j) && (b[j..] == [] <==> j == |b|); }
  }

  lemma FlagsOf(s: seq<byte>, mem: bool)
    ensures DecLimits(s, mem) ==
            if s == [] || !(if mem then s[0] in {0, 1, 3, 8, 9, 11} else s[0] in {0, 1}) then None
            else LimitsAfter(s, mem, s[0] in {1, 3, 9, 11}, s[0] in {3, 11}, s[0] in {8, 9, 11})
  {
    hide LimitsAfter;
    if s != [] { Flags(s[0], mem); }
  }

  lemma RangeIs(min: u32, max: u32, hasMax: bool, mem: bool, shared: bool, shift: u32, x: LimitsAt)
    requires (hasMax || max == U32_MAX) && (mem || shift == 0)
    ensures InRange(min, max, hasMax, mem, shared, shift) == Some(x) <==>
              && x.shift == shift && x.shared == shared && x.lim.min == min && shift in {0, 16}
              && x.lim.max == (if hasMax then max else Most(mem, x.shift)) && min <= x.lim.max <= Most(mem, x.shift)
  {
    if shift in {0, 16} { MostIs(mem, shift); }
  }

  lemma PartsSound(s: seq<byte>, mem: bool, hasMax: bool, shared: bool, hasShift: bool, x: LimitsAt, n: nat) returns (i: nat, j: nat)
    requires s != [] && LimitsAfter(s, mem, hasMax, shared, hasShift) == Some((x, n)) && (hasShift ==> mem)
    ensures 1 <= i <= j <= n <= |s| && Parts(s[1..i], s[i..j], s[j..n], mem, hasMax, shared, hasShift, x)
  {
    hide DecU32, IntForm, Most, InRange;
    var min := DecU32(s[1..]).value;
    DecU32Size(s[1..]);
    i := 1 + min.1;
    MaybeInt(s, true, min.0, 0, 1, i);
    var max := (if hasMax then DecU32(s[i..]) else Some((U32_MAX, 0))).value;
    if hasMax { DecU32Size(s[i..]); }
    j := i + max.1;
    var sh := (if hasShift then DecU32(s[j..]) else Some((if mem then PAGE_SHIFT else 0, 0))).value;
    RangeIs(min.0, max.0, hasMax, mem, shared, sh.0, x);
    MaybeInt(s, hasMax, max.0, U32_MAX, i, j);
    MaybeInt(s, hasShift, x.shift, if mem then PAGE_SHIFT else 0, j, n);
  }

  lemma PartsComplete(s: seq<byte>, mem: bool, hasMax: bool, shared: bool, hasShift: bool, x: LimitsAt, n: nat, i: nat, j: nat)
    requires 1 <= i <= j <= n <= |s| && Parts(s[1..i], s[i..j], s[j..n], mem, hasMax, shared, hasShift, x) && (hasShift ==> mem)
    ensures LimitsAfter(s, mem, hasMax, shared, hasShift) == Some((x, n))
  {
    hide DecU32, IntForm, Most, InRange;
    var max := if hasMax then x.lim.max else U32_MAX;
    RangeIs(x.lim.min, max, hasMax, mem, shared, x.shift, x);
    MaybeInt(s, true, x.lim.min, 0, 1, i);
    MaybeInt(s, hasMax, max, U32_MAX, i, j);
    MaybeInt(s, hasShift, x.shift, if mem then PAGE_SHIFT else 0, j, n);
  }

  lemma Flags(f: byte, mem: bool)
    ensures var hasMax, shared, hasShift := f % 2 == 1, f / 2 % 2 == 1, mem && f / 8 % 2 == 1;
            var rest := f - f % 2 - (if mem && shared then SHARED else 0) - if hasShift then CUSTOM_PAGE_SIZE else 0;
            && (!((!hasMax && shared) || rest != 0) <==> if mem then f in {0, 1, 3, 8, 9, 11} else f in {0, 1})
            && (!((!hasMax && shared) || rest != 0) ==>
                  shared == (f in {3, 11}) && hasShift == (f in {8, 9, 11}) && hasMax == (f in {1, 3, 9, 11}))
  {
  }

  lemma LimitsExact(s: seq<byte>, mem: bool, x: LimitsAt, n: nat)
    ensures DecLimits(s, mem) == Some((x, n)) <==> n <= |s| && LimitsForm(s[..n], mem, x)
  {
    hide DecLimits, LimitsSplit;
    if DecLimits(s, mem) == Some((x, n)) { var i, j := LimitsSound(s, mem, x, n); }
    if n <= |s| && LimitsForm(s[..n], mem, x) {
      var i: nat, j: nat :| LimitsSplit(s[..n], mem, x, i, j);
      LimitsComplete(s, mem, x, n, i, j);
    }
  }

  lemma MemExact(s: seq<byte>, t: MemType, n: nat)
    ensures DecMemtype(s) == Some((t, n)) <==> n <= |s| && MemForm(s[..n], t)
  {
    hide DecLimits, LimitsForm;
    LimitsExact(s, true, LimitsAt(t.lim, t.shared, t.shift), n);
  }

  /** The limits of a table are neither shared nor have they pages. */
  lemma TableLimits(s: seq<byte>)
    ensures var d := DecLimits(s, false); d.Some? ==> !d.value.0.shared && d.value.0.shift == 0
  {
    hide DecU32;
  }

  lemma TableExact(s: seq<byte>, t: TableType, n: nat)
    ensures DecTabletype(s) == Some((t, n)) <==> n <= |s| && TableForm(s[..n], t)
  {
    hide DecLimits, LimitsForm, IsReftype;
    TypeBytes(t.et);
    if s != [] {
      TypeBytes(s[0]);
      TableLimits(s[1..]);
      if n > 0 {
        LimitsExact(s[1..], false, LimitsAt(t.lim, false, 0), n - 1);
        if n <= |s| { assert s[..n][1..] == s[1..][..n - 1] && s[..n][..1] == [s[0]]; }
      }
    }
  }

  lemma GlobalExact(s: seq<byte>, t: GlobalType, n: nat)
    ensures DecGlobaltype(s) == Some((t, n)) <==> n <= |s| && GlobalForm(s[..n], t)
  {
    hide IsValtype;
    TypeBytes(t.t);
    if |s| >= 2 { TypeBytes(s[0]); }
    if n == 2 <= |s| { assert s[..n][..1] == [s[0]]; }
  }

  // ---- imports ----

  lemma DescExact(s: seq<byte>, d: ImportDesc, ntypes: nat, n: nat)
    ensures DecDesc(s, ntypes) == Some((d, n)) <==> n <= |s| && DescForm(s[..n], d, ntypes)
  {
    hide DecTabletype, DecMemtype, DecGlobaltype, DecU32, TableForm, MemForm, GlobalForm, IntForm;
    if s != [] && n > 0 {
      if n <= |s| { assert s[..n][1..] == s[1..][..n - 1] && s[..n][0] == s[0]; }
      match d
      case ImportFunc(i) => IntExact(s[1..], i, n - 1);
      case ImportTable(t) => TableExact(s[1..], t, n - 1);
      case ImportMem(t) => MemExact(s[1..], t, n - 1);
      case ImportGlobal(t) => GlobalExact(s[1..], t, n - 1);
    }
  }

  lemma ImportExact(s: seq<byte>, x: Import, ntypes: nat, n: nat)
    ensures DecImport(s, ntypes) == Some((x, n)) <==> n <= |s| && ImportForm(s[..n], x, ntypes)
  {
    hide DecName, DecDesc, NameForm, DescForm;
    if DecImport(s, ntypes) == Some((x, n)) {
      var i := DecName(s).value.1;
      ImportSplit(s, x, ntypes, i, i + DecName(s[i..]).value.1, n);
    }
    if n <= |s| && ImportForm(s[..n], x, ntypes) {
      var i: nat, j: nat :| i <= j <= n && NameForm(s[..n][..i], x.modName) && NameForm(s[..n][i..j], x.name) && DescForm(s[..n][j..], x.desc, ntypes);
      ImportSplit(s, x, ntypes, i, j, n);
    }
  }

  lemma ImportSplit(s: seq<byte>, x: Import, ntypes: nat, i: nat, j: nat, n: nat)
    requires i <= j <= n <= |s|
    ensures DecName(s) == Some((x.modName, i)) <==> NameForm(s[..n][..i], x.modName)
    ensures DecName(s[i..]) == Some((x.name, j - i)) <==> NameForm(s[..n][i..j], x.name)
    ensures DecDesc(s[j..], ntypes) == Some((x.desc, n - j)) <==> DescForm(s[..n][j..], x.desc, ntypes)
  {
    hide DecName, DecDesc, NameForm, DescForm;
    NameExact(s, x.modName, i);
    NameExact(s[i..], x.name, j - i);
    DescExact(s[j..], x.desc, ntypes, n - j);
    assert s[..n][..i] == s[..i] && s[..n][i..j] == s[i..][..j - i] && s[..n][j..] == s[j..][..n - j];
  }

  ghost function ImportFormOf(ntypes: nat): Form<Import> { (b, x) => ImportForm(b, x, ntypes) }

  lemma DecodersExact(ntypes: nat)
    ensures Exact(DecSignature, SignatureForm) && Exact(DecTabletype, TableForm) && Exact(DecMemtype, MemForm)
    ensures Exact(ImportDecoder(ntypes), ImportFormOf(ntypes))
  {
    hide DecSignature, SignatureForm, DecTabletype, TableForm, DecMemtype, MemForm, DecImport, ImportForm;
    forall s, t, n: nat ensures DecSignature(s) == Some((t, n)) <==> n <= |s| && SignatureForm(s[..n], t) { SignatureExact(s, t, n); }
    forall s, t, n: nat ensures DecTabletype(s) == Some((t, n)) <==> n <= |s| && TableForm(s[..n], t) { TableExact(s, t, n); }
    forall s, t, n: nat ensures DecMemtype(s) == Some((t, n)) <==> n <= |s| && MemForm(s[..n], t) { MemExact(s, t, n); }
    forall s, x, n: nat ensures DecImport(s, ntypes) == Some((x, n)) <==> n <= |s| && ImportForm(s[..n], x, ntypes) { ImportExact(s, x, ntypes, n); }
  }

  // ---- modules ----

  /** The section with this id, if it is there, is a vector of these elements. */
  ghost predicate Content<T(!new)>(ss: seq<Raw>, id: byte, xs: seq<T>, form: Form<T>) {
    match Find(ss, id)
    case None => xs == []
    case Some(c) => VecForm(c, xs, form)
  }

  lemma ContentIs<T(!new)>(ss: seq<Raw>, id: byte, xs: seq<T>, dec: seq<byte> -> Decoded<T>, form: Form<T>)
    requires Exact(dec, form)
    ensures Holds(ss, id, dec, xs, []) <==> Content(ss, id, xs, form)
  {
    hide Exact, DecAll, VecForm;
    if Find(ss, id).Some? { AllExact(dec, form, Find(ss, id).value, xs); }
  }

  /** There is at most one memory, imported or not. */
  ghost predicate AtMostOneMemory(m: Mod) {
    && |m.mems| <= 1
    && (forall i :: 0 <= i < |m.imports| && m.imports[i].desc.ImportMem? ==> m.mems == [])
    && (forall i, j :: 0 <= i < j < |m.imports| && m.imports[i].desc.ImportMem? ==> !m.imports[j].desc.ImportMem?)
  }

  lemma {:induction false} MemImportsAre(xs: seq<Import>)
    ensures MemImports(xs) == 0 <==> forall i :: 0 <= i < |xs| ==> !xs[i].desc.ImportMem?
    ensures MemImports(xs) <= 1 <==> forall i, j :: 0 <= i < j < |xs| && xs[i].desc.ImportMem? ==> !xs[j].desc.ImportMem?
    decreases xs
  {
    if xs != [] {
      var tl := xs[1..];
      MemImportsAre(tl);
      assert forall i :: 0 <= i < |tl| ==> tl[i] == xs[i + 1];
      assert forall i :: 0 < i < |xs| ==> xs[i] == tl[i - 1];
    }
  }

  lemma OneMemoryIs(m: Mod)
    ensures OneMemory(m) <==> AtMostOneMemory(m)
  {
    MemImportsAre(m.imports);
  }

  /** Every byte string, and every module: the string is read as the module exactly if the grammar says so. */
  lemma AcceptedExactly(s: seq<byte>, m: Mod)
    ensures DecModule(s) == Some(m) <==>
              && |s| >= 8 && s[..8] == [0, 0x61, 0x73, 0x6d, 1, 0, 0, 0] && Split(s[8..]).Some?
              && var ss := Split(s[8..]).value;
                 && Ordered(ss) && Known(ss) && Named(ss)
                 && Content(ss, 1, m.types, SignatureForm) && Content(ss, 2, m.imports, ImportFormOf(|m.types|))
                 && Content(ss, 4, m.tables, TableForm) && Content(ss, 5, m.mems, MemForm)
                 && AtMostOneMemory(m)
  {
    hide DecModule, Split, Ordered, Known, Named, Content, Holds, OneMemory, AtMostOneMemory, Exact, ImportDecoder, ImportFormOf;
    LoadedExactly(s, m);
    OneMemoryIs(m);
    DecodersExact(|m.types|);
    if |s| >= 8 && Split(s[8..]).Some? {
      var ss := Split(s[8..]).value;
      ContentIs(ss, 1, m.types, DecSignature, SignatureForm);
      ContentIs(ss, 2, m.imports, ImportDecoder(|m.types|), ImportFormOf(|m.types|));
      ContentIs(ss, 4, m.tables, DecTabletype, TableForm);
      ContentIs(ss, 5, m.mems, DecMemtype, MemForm);
    }
  }
}
