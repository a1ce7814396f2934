/**
  UTF-8 validation of names (lib/module.c:467-533) accepts exactly the
  concatenations of encoded Unicode scalar values (section 3 of RFC 3629).
 */
module Utf8 {
  import opened Leb

  /** A code point that is not a surrogate. */
  predicate Scalar(c: nat) { c <= 0x10ffff && !(0xd800 <= c < 0xe000) }

  /** The encoding of a code point, by the number of its bits. */
  function EncodeScalar(c: nat): (bs: seq<byte>)
    requires c <= 0x10ffff
    ensures 1 <= |bs| <= 4
  {
    if c < 0x80 then [c]
    else if c < 0x800 then [0xc0 + c / 64, 0x80 + c % 64]
    else if c < 0x10000 then [0xe0 + c / 64 / 64, 0x80 + c / 64 % 64, 0x80 + c % 64]
    else [0xf0 + c / 64 / 64 / 64, 0x80 + c / 64 / 64 % 64, 0x80 + c / 64 % 64, 0x80 + c % 64]
  }

  predicate AllScalars(cs: seq<nat>) { forall i :: 0 <= i < |cs| ==> Scalar(cs[i]) }

  function Encode(cs: seq<nat>): seq<byte>
    requires AllScalars(cs)
  {
    if cs == [] then [] else EncodeScalar(cs[0]) + Encode(cs[1..])
  }

  /** The byte string encodes some sequence of scalar values. */
  ghost predicate IsUtf8(bs: seq<byte>) { exists cs :: AllScalars(cs) && Encode(cs) == bs }

  // ---- one code point, as the decoder sees it ----

  /** What the first byte says: the length, the least and greatest code point, and its own bits. */
  datatype Lead = Bad | Lead(n: nat, min: nat, max: nat, bits: nat)

  function LeadOf(b: byte): Lead {
    if b < 0x80 then Lead(1, 0, 0x7f, b)
    else if b < 0xc0 then Bad
    else if b < 0xe0 then Lead(2, 0x80, 0x7ff, b - 0xc0)
    else if b < 0xf0 then Lead(3, 0x800, 0xffff, b - 0xe0)
    else if b < 0xf8 then Lead(4, 0x10000, 0x10ffff, b - 0xf0)
    else Bad
  }

  predicate Continuation(b: byte) { 0x80 <= b < 0xc0 }

  /** The bits of a lead byte and of the continuation bytes after it. */
  function Bits(lead: nat, bs: seq<byte>): int {
    if bs == [] then lead else Bits(lead, bs[..|bs| - 1]) * 64 + (bs[|bs| - 1] as int - 0x80)
  }

  /** The code point at the start of `bs` and its length. */
  function DecodeOne(bs: seq<byte>): (d: Option<(nat, nat)>)
    ensures d.Some? ==> 0 < d.value.1 <= |bs|
  {
    if bs == [] then None
    else
      var l := LeadOf(bs[0]);
      if l.Bad? || |bs| < l.n || (exists i :: 1 <= i < l.n && !Continuation(bs[i])) then None
      else
        var c := Bits(l.bits, bs[1..l.n]);
        if c < l.min || l.max < c || 0xd800 <= c < 0xe000 then None else Some((c, l.n))
  }

  lemma BitsOf(lead: nat, bs: seq<byte>)
    requires |bs| <= 3
    ensures |bs| == 0 ==> Bits(lead, bs) == lead
    ensures |bs| == 1 ==> Bits(lead, bs) == lead * 64 + (bs[0] as int - 0x80)
    ensures |bs| == 2 ==> Bits(lead, bs) == (lead * 64 + (bs[0] as int - 0x80)) * 64 + (bs[1] as int - 0x80)
    ensures |bs| == 3 ==> Bits(lead, bs) == ((lead * 64 + (bs[0] as int - 0x80)) * 64 + (bs[1] as int - 0x80)) * 64 + (bs[2] as int - 0x80)
  {
    if |bs| >= 1 {
      assert bs[..|bs| - 1] + [bs[|bs| - 1]] == bs;
      if |bs| == 2 { assert bs[..1] == [bs[0]]; }
      if |bs| == 3 { assert bs[..2][..1] == [bs[0]]; assert bs[..2] == [bs[0], bs[1]]; }
    }
  }

  lemma DivMod(a: nat, r: nat)
    requires r < 64
    ensures (a * 64 + r) / 64 == a && (a * 64 + r) % 64 == r
  {
  }

  /** The code point of two, three and four bytes, taken apart again. */
  lemma Apart(lead: nat, bs: seq<byte>)
    requires 1 <= |bs| <= 3 && forall i :: 0 <= i < |bs| ==> Continuation(bs[i])
    ensures var c := Bits(lead, bs);
            && c >= 0 && c % 64 == bs[|bs| - 1] as int - 0x80
            && (|bs| == 1 ==> c / 64 == lead)
            && (|bs| >= 2 ==> c / 64 % 64 == bs[|bs| - 2] as int - 0x80)
            && (|bs| == 2 ==> c / 64 / 64 == lead)
            && (|bs| == 3 ==> c / 64 / 64 % 64 == bs[0] as int - 0x80 && c / 64 / 64 / 64 == lead)
  {
    hide Bits;
    BitsOf(lead, bs);
    var r0 := bs[0] as int - 0x80;
    DivMod(lead, r0);
    if |bs| >= 2 {
      DivMod(lead * 64 + r0, bs[1] as int - 0x80);
      if |bs| == 3 { DivMod((lead * 64 + r0) * 64 + (bs[1] as int - 0x80), bs[2] as int - 0x80); }
    }
  }

  /** Whatever is decoded is a scalar value, and its encoding is what was read. */
  lemma DecodedIsEncoded(bs: seq<byte>)
    requires DecodeOne(bs).Some?
    ensures var (c, n) := DecodeOne(bs).value; Scalar(c) && n <= |bs| && EncodeScalar(c) == bs[..n]
  {
    hide Bits;
    var (c, n) := DecodeOne(bs).value;
    var l := LeadOf(bs[0]);
    if n == 1 {
      assert bs[1..1] == [];
      BitsOf(l.bits, []);
    } else {
      forall i | 0 <= i < n - 1 ensures Continuation(bs[1..n][i]) { assert bs[1..n][i] == bs[i + 1]; }
      Apart(l.bits, bs[1..n]);
      assert bs[..n] == [bs[0]] + bs[1..n];
      assert forall i :: 0 <= i < n - 1 ==> EncodeScalar(c)[i + 1] == bs[1..n][i];
    }
  }

  /** The bits of a code point that the continuation bytes have. */
  lemma Together(c: nat)
    ensures c == c / 64 * 64 + c % 64 && c / 64 == c / 64 / 64 * 64 + c / 64 % 64
    ensures c / 64 / 64 == c / 64 / 64 / 64 * 64 + c / 64 / 64 % 64
  {
  }

  /** And every encoded scalar value is decoded, whatever follows it. */
  lemma EncodedIsDecoded(c: nat, rest: seq<byte>)
    requires Scalar(c)
    ensures DecodeOne(EncodeScalar(c) + rest) == Some((c, |EncodeScalar(c)|))
  {
    hide Bits;
    var e := EncodeScalar(c);
    var bs := e + rest;
    LeadFits(c);
    var l := LeadOf(bs[0]);
    assert bs[1..l.n] == e[1..];
    BitsOf(l.bits, e[1..]);
    Together(c);
    assert Bits(l.bits, e[1..]) == c;
    assert forall i :: 1 <= i < l.n ==> bs[i] == e[i] && Continuation(e[i]);
  }

  lemma LeadFits(c: nat)
    requires Scalar(c)
    ensures var l := LeadOf(EncodeScalar(c)[0]);
            l.Lead? && l.n == |EncodeScalar(c)| && l.min <= c <= l.max
            && l.bits == if c < 0x80 then c else if c < 0x800 then c / 64 else if c < 0x10000 then c / 64 / 64 else c / 64 / 64 / 64
  {
  }

  lemma StartsWithScalar(bs: seq<byte>)
    requires bs != []
    ensures IsUtf8(bs) <==> DecodeOne(bs).Some? && DecodeOne(bs).value.1 <= |bs| && IsUtf8(bs[DecodeOne(bs).value.1..])
  {
    if IsUtf8(bs) {
      var cs :| AllScalars(cs) && Encode(cs) == bs;
      EncodedIsDecoded(cs[0], Encode(cs[1..]));
      assert bs[|EncodeScalar(cs[0])|..] == Encode(cs[1..]);
      assert AllScalars(cs[1..]);
    }
    if DecodeOne(bs).Some? && DecodeOne(bs).value.1 <= |bs| && IsUtf8(bs[DecodeOne(bs).value.1..]) {
      var (c, n) := DecodeOne(bs).value;
      DecodedIsEncoded(bs);
      var cs :| AllScalars(cs) && Encode(cs) == bs[n..];
      assert ([c] + cs)[1..] == cs;
      assert Encode([c] + cs) == bs[..n] + bs[n..];
      assert AllScalars([c] + cs);
    }
  }

  lemma EmptyIsUtf8()
    ensures IsUtf8([])
  {
    assert Encode([]) == [];
  }

  /** The same, computed from the front. */
  predicate Valid(bs: seq<byte>)
    ensures Valid(bs) <==> IsUtf8(bs)
    decreases |bs|
  {
    if bs == [] then
      EmptyIsUtf8();
      true
    else
      StartsWithScalar(bs);
      var d := DecodeOne(bs);
      d.Some? && 0 < d.value.1 <= |bs| && Valid(bs[d.value.1..])
  }

  /** The continuation bytes of one code point. */
  method ReadCode(buf: seq<byte>, p: nat, ep: nat) returns (ok: bool, next: nat)
    requires p < ep <= |buf|
    ensures ok <==> DecodeOne(buf[p..ep]).Some?
    ensures ok ==> next <= ep && next == p + DecodeOne(buf[p..ep]).value.1
  {
    ghost var bs := buf[p..ep];
    var l := LeadOf(buf[p]);
    next := p + 1;
    if l.Bad? { return false, next; }
    var c: int, i: nat := l.bits, 1;
    assert bs[1..1] == [];
    while i < l.n
      invariant 1 <= i <= l.n && next == p + i <= ep
      invariant forall k :: 1 <= k < i ==> Continuation(bs[k])
      invariant c == Bits(l.bits, bs[1..i])
    {
      if next >= ep { return false, next; }
      var b := buf[next];
      assert b == bs[i];
      if !Continuation(b) { return false, next; }
      assert bs[1..i + 1][..i - 1] == bs[1..i];
      c := c * 64 + (b - 0x80);
      next := next + 1;
      i := i + 1;
    }
    ok := l.min <= c <= l.max && !(0xd800 <= c < 0xe000);
  }

  /** check_utf8 */
  method CheckUtf8(buf: seq<byte>, p: nat, ep: nat) returns (ok: bool)
    requires p <= ep <= |buf|
    ensures ok <==> IsUtf8(buf[p..ep])
  {
    hide IsUtf8, DecodeOne;
    var q := p;
    while q < ep
      invariant p <= q <= ep
      invariant IsUtf8(buf[q..ep]) <==> IsUtf8(buf[p..ep])
      decreases ep - q
    {
      StartsWithScalar(buf[q..ep]);
      var next;
      ok, next := ReadCode(buf, q, ep);
      if !ok { return; }
      DecodedIsEncoded(buf[q..ep]);
      assert buf[q..ep][next - q..] == buf[next..ep];
      q := next;
    }
    EmptyIsUtf8();
    assert buf[q..ep] == [];
    return true;
  }

  // ---- the syntax of RFC 3629, section 4 ----

  predicate Tail(b: byte) { 0x80 <= b <= 0xbf }

  /** UTF8-1, UTF8-2, UTF8-3 and UTF8-4. */
  predicate Octets(b: seq<byte>) {
    || (|b| == 1 && b[0] <= 0x7f)
    || (|b| == 2 && 0xc2 <= b[0] <= 0xdf && Tail(b[1]))
    || (|b| == 3 && Tail(b[2])
        && if b[0] == 0xe0 then 0xa0 <= b[1] <= 0xbf else if b[0] == 0xed then 0x80 <= b[1] <= 0x9f
           else 0xe1 <= b[0] <= 0xef && Tail(b[1]))
    || (|b| == 4 && Tail(b[2]) && Tail(b[3])
        && if b[0] == 0xf0 then 0x90 <= b[1] <= 0xbf else if b[0] == 0xf4 then 0x80 <= b[1] <= 0x8f
           else 0xf1 <= b[0] <= 0xf3 && Tail(b[1]))
  }

  /** The bytes of one code point are accepted exactly if the syntax allows them. */
  lemma SyntaxIs(bs: seq<byte>, n: nat)
    ensures DecodeOne(bs).Some? && DecodeOne(bs).value.1 == n <==> 1 <= n <= |bs| && Octets(bs[..n])
  {
    hide Bits;
    if bs != [] {
      var l := LeadOf(bs[0]);
      if l.Lead? && l.n <= |bs| {
        var t := bs[1..l.n];
        BitsOf(l.bits, t);
        assert forall i :: 1 <= i < l.n ==> bs[i] == t[i - 1];
        TailsOnly(bs, l.n);
        if 1 <= n <= |bs| { assert forall i :: 0 <= i < n ==> bs[..n][i] == bs[i]; }
      }
    }
  }

  lemma TailsOnly(bs: seq<byte>, n: nat)
    requires n <= |bs| && n <= 4
    ensures (exists i :: 1 <= i < n && !Continuation(bs[i])) <==>
              (n >= 2 && !Tail(bs[1])) || (n >= 3 && !Tail(bs[2])) || (n >= 4 && !Tail(bs[3]))
  {
    if n >= 2 && !Tail(bs[1]) { assert !Continuation(bs[1]); }
    if n >= 3 && !Tail(bs[2]) { assert !Continuation(bs[2]); }
    if n >= 4 && !Tail(bs[3]) { assert !Continuation(bs[3]); }
  }
}
