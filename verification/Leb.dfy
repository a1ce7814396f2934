/**
  LEB128 integers (lib/leb128.c).

  `UN` and `SN` are the recursive grammars uN and sN of WebAssembly Core 2.0,
  section 5.2.2. `ReadLeb` is the decoder's loop, proved to accept exactly the
  strings of the grammar, in the checked and in the unchecked mode.
 */
module Leb {

  type byte = x: int | 0 <= x < 256

  datatype Option<+T> = None | Some(value: T)

  const U64 := 0x1_0000_0000_0000_0000

  function Pow2(n: nat): (r: nat)
    ensures r >= 1
  {
    if n == 0 then 1 else 2 * Pow2(n - 1)
  }

  lemma {:induction false} Pow2Add(a: nat, b: nat)
    ensures Pow2(a + b) == Pow2(a) * Pow2(b)
  {
    if a > 0 {
      Pow2Add(a - 1, b);
      assert Pow2(a + b) == 2 * Pow2(a - 1 + b);
      assert 2 * (Pow2(a - 1) * Pow2(b)) == (2 * Pow2(a - 1)) * Pow2(b);
    }
  }

  lemma Pow2Seven(n: nat)
    ensures Pow2(n + 7) == 128 * Pow2(n)
  {
    Pow2Add(7, n);
    assert Pow2(7) == 128 by { assert Pow2(4) == 16; }
  }

  lemma {:induction false} Pow2Mono(a: nat, b: nat)
    requires a <= b
    ensures Pow2(a) <= Pow2(b)
  {
    if a < b { Pow2Mono(a, b - 1); }
  }

  lemma Pow2Sixty4()
    ensures Pow2(64) == U64
  {
    assert Pow2(8) == 256;
    Pow2Add(8, 8);
    assert Pow2(16) == 0x1_0000;
    Pow2Add(16, 16);
    assert Pow2(32) == 0x1_0000_0000;
    Pow2Add(32, 32);
  }

  lemma MulLe(a: int, b: int, c: nat)
    requires a <= b
    ensures a * c <= b * c
  {
  }

  // ---- the grammar ----

  /** The value of `bs` as a complete uN, or None when it is not one. */
  function UN(n: int, bs: seq<byte>): Option<nat>
  {
    if bs == [] || n <= 0 then None
    else if bs[0] < 128 then
      if |bs| == 1 && bs[0] < Pow2(n) then Some(bs[0]) else None
    else if n <= 7 then None
    else match UN(n - 7, bs[1..])
      case None => None
      case Some(m) => Some(128 * m + (bs[0] - 128))
  }

  /** The value of `bs` as a complete sN, or None when it is not one. */
  function SN(n: int, bs: seq<byte>): Option<int>
  {
    if bs == [] || n <= 0 then None
    else if bs[0] < 64 then
      if |bs| == 1 && bs[0] < Pow2(n - 1) then Some(bs[0]) else None
    else if bs[0] < 128 then
      if |bs| == 1 && bs[0] >= 128 - Pow2(n - 1) then Some(bs[0] as int - 128) else None
    else if n <= 7 then None
    else match SN(n - 7, bs[1..])
      case None => None
      case Some(m) => Some(128 * m + (bs[0] as int - 128))
  }

  function Value(n: int, signed: bool, bs: seq<byte>): Option<int>
  {
    if signed then SN(n, bs) else UN(n, bs)
  }

  /** The representation of a decoded value in a uint64_t. */
  function Wrap64(v: int): nat { v % U64 }

  /** All bytes of an encoding but the last have the continuation bit. */
  lemma {:induction false} Shape(n: int, signed: bool, bs: seq<byte>)
    requires Value(n, signed, bs).Some?
    ensures |bs| > 0
    ensures bs[|bs| - 1] < 128
    ensures forall i :: 0 <= i < |bs| - 1 ==> bs[i] >= 128
    ensures 7 * (|bs| - 1) < n
    decreases |bs|
  {
    if bs[0] >= 128 {
      Shape(n - 7, signed, bs[1..]);
      forall i | 0 <= i < |bs| - 1 ensures bs[i] >= 128 {
        if i > 0 { assert bs[i] == bs[1..][i - 1]; }
      }
    }
  }

  /** Two encodings at the start of one buffer are the same encoding. */
  lemma PrefixUnique(n: int, signed: bool, s: seq<byte>, a: nat, b: nat)
    requires a <= |s| && b <= |s|
    requires Value(n, signed, s[..a]).Some? && Value(n, signed, s[..b]).Some?
    ensures a == b
  {
    if a > 0 && b > 0 {
      assert s[..a][a - 1] == s[a - 1] && s[..b][b - 1] == s[b - 1];
      assert a < b ==> s[..b][a - 1] == s[a - 1];
      assert b < a ==> s[..a][b - 1] == s[b - 1];
    }
    Shape(n, signed, s[..a]);
    Shape(n, signed, s[..b]);
  }

  /** Value ranges of the grammar. */
  lemma {:induction false} Range(n: nat, bs: seq<byte>)
    ensures UN(n, bs).Some? ==> UN(n, bs).value < Pow2(n)
    ensures n > 0 && SN(n, bs).Some? ==> -(Pow2(n - 1) as int) <= SN(n, bs).value < Pow2(n - 1)
    decreases |bs|
  {
    if bs != [] && bs[0] >= 128 && n > 7 {
      Range(n - 7, bs[1..]);
      Pow2Seven(n - 7);
      Pow2Seven(n - 8);
    } else if bs != [] && n == 1 {
      assert Pow2(0) == 1;
    }
  }

  // ---- unfolding the grammar from the front ----

  /** The number held by the low seven bits of the first `k` bytes. */
  function Acc(bs: seq<byte>, k: nat): int
    requires k <= |bs|
  {
    if k == 0 then 0 else Acc(bs, k - 1) + (bs[k - 1] % 128) * Pow2(7 * (k - 1))
  }

  lemma AccZero(bs: seq<byte>)
    ensures Acc(bs, 0) == 0
  {
  }

  lemma {:induction false} AccBound(bs: seq<byte>, k: nat)
    requires k <= |bs|
    ensures 0 <= Acc(bs, k) < Pow2(7 * k)
  {
    if k > 0 {
      AccBound(bs, k - 1);
      var p := Pow2(7 * (k - 1));
      Pow2Seven(7 * (k - 1));
      assert 7 * (k - 1) + 7 == 7 * k;
      MulLe(bs[k - 1] % 128, 127, p);
      MulLe(0, bs[k - 1] % 128, p);
    }
  }

  lemma {:induction false} AccShift(bs: seq<byte>, k: nat)
    requires 0 < k <= |bs|
    ensures Acc(bs, k) == bs[0] % 128 + 128 * Acc(bs[1..], k - 1)
  {
    if k == 1 {
      assert Acc(bs, 1) == Acc(bs, 0) + (bs[0] % 128) * Pow2(0);
    } else {
      AccShift(bs, k - 1);
      var q := Pow2(7 * (k - 2));
      Pow2Seven(7 * (k - 2));
      assert 7 * (k - 2) + 7 == 7 * (k - 1);
      assert bs[1..][k - 2] == bs[k - 1];
      assert (bs[k - 1] % 128) * (128 * q) == 128 * ((bs[k - 1] % 128) * q);
    }
  }

  lemma Combine(acc: int, b0: byte, w: int, p: int)
    requires b0 >= 128
    ensures 128 * (acc + w * p) + (b0 - 128) == (b0 % 128 + 128 * acc) + w * (128 * p)
  {
    Assoc(w, p);
    assert 128 * (acc + w * p) == 128 * acc + 128 * (w * p);
  }

  lemma Assoc(a: int, b: int)
    ensures a * (128 * b) == 128 * (a * b)
  {
  }

  /** A byte with the continuation bit, and the rest. */
  lemma ValueStep(n: int, signed: bool, bs: seq<byte>)
    requires bs != [] && bs[0] >= 128 && n > 7
    ensures var w := Value(n - 7, signed, bs[1..]);
            Value(n, signed, bs) == if w.None? then None else Some(128 * w.value + (bs[0] as int - 128))
  {
  }

  lemma {:induction false} Unfold(n: int, signed: bool, bs: seq<byte>, k: nat)
    requires k < |bs| && 7 * k < n
    requires forall i :: 0 <= i < k ==> bs[i] >= 128
    ensures var w := Value(n - 7 * k, signed, bs[k..]);
            Value(n, signed, bs) == if w.None? then None else Some(Acc(bs, k) + w.value * Pow2(7 * k))
    decreases k
  {
    if k == 0 {
      assert bs[0..] == bs;
    } else {
      hide UN, SN, Acc, Pow2;
      var bs' := bs[1..];
      assert forall i :: 0 <= i < k - 1 ==> bs'[i] == bs[i + 1];
      Unfold(n - 7, signed, bs', k - 1);
      ValueStep(n, signed, bs);
      assert bs'[k - 1..] == bs[k..];
      assert n - 7 - 7 * (k - 1) == n - 7 * k;
      var w := Value(n - 7 * k, signed, bs[k..]);
      if w.Some? {
        AccShift(bs, k);
        Pow2Seven(7 * (k - 1));
        assert 7 * (k - 1) + 7 == 7 * k;
        Combine(Acc(bs', k - 1), bs[0], w.value, Pow2(7 * (k - 1)));
      }
    }
  }

  // ---- the decoder ----

  /** v << k */
  function Shl(v: nat, k: nat): nat { v * Pow2(k) }

  datatype Leb = Err | Ok(next: nat, value: nat)

  /** Is there an encoding of an integer at `p`, ending no later than `ep`? */
  ghost predicate Accepts(buf: seq<byte>, p: nat, ep: nat, n: int, signed: bool)
  {
    exists e :: p <= e <= ep <= |buf| && Value(n, signed, buf[p..e]).Some?
  }

  lemma NotAccepted(buf: seq<byte>, p: nat, ep: nat, n: int, signed: bool, k: nat)
    requires 7 <= n && p + k <= ep <= |buf| && 7 * k < n
    requires forall i :: p <= i < p + k ==> buf[i] >= 128
    requires p + k == ep
          || (7 * (k + 1) >= n && buf[p + k] >= 128)
          || (buf[p + k] < 128 && Value(n - 7 * k, signed, [buf[p + k]]).None?)
    ensures !Accepts(buf, p, ep, n, signed)
  {
    forall e | p <= e <= ep ensures Value(n, signed, buf[p..e]).None? {
      var bs := buf[p..e];
      if Value(n, signed, bs).Some? {
        assert forall i :: 0 <= i < |bs| ==> bs[i] == buf[p + i];
        assert |bs| == k + 1 ==> bs[k..] == [bs[k]];
        if |bs| > k { Unfold(n, signed, bs, k); }
        Shape(n, signed, bs);
      }
    }
  }

  lemma Accepted(buf: seq<byte>, p: nat, n: int, signed: bool, k: nat)
    requires 7 <= n && p + k < |buf| && 7 * k < n
    requires forall i :: p <= i < p + k ==> buf[i] >= 128
    requires Value(n - 7 * k, signed, [buf[p + k]]).Some?
    ensures Value(n, signed, buf[p..p + k + 1]) ==
            Some(Acc(buf[p..p + k + 1], k) + Value(n - 7 * k, signed, [buf[p + k]]).value * Pow2(7 * k))
  {
    var bs := buf[p..p + k + 1];
    Unfold(n, signed, bs, k);
    assert bs[k..] == [buf[p + k]];
  }

  lemma MulSub(v: int, p: int)
    ensures (v - 128) * p == v * p - 128 * p
  {
  }

  /** The final sign extension of the loop, as arithmetic modulo 2^64. */
  lemma SignExtend(acc: nat, v: nat, shift: nat, minus: bool)
    requires shift <= 63 && v < 128 && minus == (v >= 64) && acc < Pow2(shift)
    ensures Wrap64(acc + (if minus then v - 128 else v) * Pow2(shift))
         == (var r := (acc + v * Pow2(shift)) % U64;
             if minus && shift + 7 < 64 then (r + U64 - Pow2(shift + 7)) % U64 else r)
  {
    hide Pow2;
    var P := Pow2(shift);
    var x := acc + v * P;
    if minus {
      MulSub(v, P);
      Pow2Seven(shift);
      if shift + 7 < 64 {
        Pow2Mono(shift + 7, 64);
        Pow2Sixty4();
        SubMod(x, Pow2(shift + 7));
      } else {
        Pow2Add(64, shift + 7 - 64);
        Pow2Sixty4();
        assert 128 * P == U64 * Pow2(shift + 7 - 64);
        ModMultiple(x, Pow2(shift + 7 - 64));
      }
    }
  }

  lemma SubMod(x: nat, d: nat)
    requires d <= U64
    ensures (x % U64 + U64 - d) % U64 == (x - d) % U64
  {
    ModMultiple(x - d, x / U64);
    ModMultiple(x % U64 + U64 - d, 1);
    assert x == U64 * (x / U64) + x % U64;
  }

  lemma {:induction false} ModMultiple(x: int, j: nat)
    ensures (x - U64 * j) % U64 == x % U64
  {
    if j > 0 {
      ModMultiple(x, j - 1);
      ModSub(x - U64 * (j - 1));
    }
  }

  lemma ModSub(x: int)
    ensures (x - U64) % U64 == x % U64
  {
  }

  /** The loop's last iteration: the byte at `p + k` ends the encoding. */
  lemma Finish(buf: seq<byte>, p: nat, ep: nat, bits: nat, signed: bool, k: nat, minus: bool)
    requires 7 <= bits <= 64 && p + k < ep <= |buf| && 7 * k < bits
    requires forall i :: p <= i < p + k ==> buf[i] >= 128
    requires buf[p + k] < 128 && minus == (signed && buf[p + k] >= 64)
    requires bits - 7 * k >= 7 || FitsLast(buf[p + k], bits - 7 * k, signed)
    ensures var v := Value(bits, signed, buf[p..p + k + 1]);
            && v.Some?
            && Wrap64(v.value)
               == (var r := (Acc(buf[p..ep], k) + Shl(buf[p + k], 7 * k)) % U64;
                   if minus && 7 * k + 7 < 64 then (r + U64 - Pow2(7 * k + 7)) % U64 else r)
  {
    LastByte(buf[p + k], bits - 7 * k, signed);
    Accepted(buf, p, bits, signed, k);
    AccPrefix(buf[p..ep], buf[p..p + k + 1], k);
    AccBound(buf[p..ep], k);
    if minus { SignExtend(Acc(buf[p..ep], k), buf[p + k], 7 * k, true); }
  }

  /** The loop goes on: one more byte is accumulated without wrap-around. */
  lemma Continue(buf: seq<byte>, p: nat, ep: nat, k: nat)
    requires p + k < ep <= |buf| && 7 * k + 7 <= 63
    ensures (Acc(buf[p..ep], k) + Shl(buf[p + k] % 128, 7 * k)) % U64 == Acc(buf[p..ep], k + 1)
    ensures 0 <= Acc(buf[p..ep], k + 1)
  {
    assert buf[p..ep][k] == buf[p + k];
    AccBound(buf[p..ep], k);
    AccBound(buf[p..ep], k + 1);
    NoWrap(Acc(buf[p..ep], k), buf[p + k] % 128, 7 * k);
  }

  lemma IsAccepted(buf: seq<byte>, p: nat, ep: nat, n: int, signed: bool, e: nat)
    requires p <= e <= ep <= |buf| && Value(n, signed, buf[p..e]).Some?
    ensures Accepts(buf, p, ep, n, signed)
  {
  }

  /** The fast path for one byte. */
  lemma OneByte(u8: byte, bits: nat, signed: bool, result: nat)
    requires u8 < 128 && 7 <= bits && result == if signed && u8 >= 64 then u8 + (U64 - 128) else u8
    ensures Value(bits, signed, [u8]).Some? && Wrap64(Value(bits, signed, [u8]).value) == result
  {
    LastByte(u8, bits, signed);
  }

  /**
    read_leb. `ep` is the end of the buffer in the checked mode; with
    `checked` false the C code passes a null end pointer, and no range
    check is made. `|` of disjoint bits is written as a sum modulo 2^64.
   */
  method ReadLeb(buf: seq<byte>, p: nat, ep: nat, checked: bool, bits: nat, signed: bool)
    returns (r: Leb)
    requires p <= ep <= |buf| && 7 <= bits <= 64
    requires !checked ==> Accepts(buf, p, ep, bits, signed)
    ensures r.Ok? <==> Accepts(buf, p, ep, bits, signed)
    ensures r.Ok? ==> p < r.next <= ep
    ensures r.Ok? ==> Value(bits, signed, buf[p..r.next]).Some?
    ensures r.Ok? ==> r.value == Wrap64(Value(bits, signed, buf[p..r.next]).value)
  {
    hide UN, SN, Acc, Pow2, Shl, FitsLast, Accepts, Value, Wrap64;
    if !checked { NotBeyond(buf, p, ep, bits, signed, 0); }
    if p >= ep {
      NotAccepted(buf, p, ep, bits, signed, 0);
      return Err;
    }
    var q := p + 1;
    var u8 := buf[p];
    if u8 < 128 {
      var result: nat := u8;
      if signed && u8 >= 64 { result := result + (U64 - 128); }
      LastByte(u8, bits, signed);
      assert buf[p..q] == [u8];
      OneByte(u8, bits, signed, result);
      IsAccepted(buf, p, ep, bits, signed, q);
      return Ok(q, result);
    }
    var shift, result, minus, end := 0, 0, false, ep;
    AccZero(buf[p..ep]);
    if checked {
      var nep := p + (bits + 6) / 7;
      if end > nep { end := nep; }
    }
    ghost var k := 0;
    while true
      invariant 0 <= k && shift == 7 * k < bits && q == p + k + 1 <= end && u8 == buf[p + k]
      invariant end == ep || (checked && end == p + (bits + 6) / 7 < ep)
      invariant forall i :: p <= i < p + k ==> buf[i] >= 128
      invariant result == Acc(buf[p..ep], k)
      invariant minus ==> signed
      decreases bits - shift
    {
      var v := u8 % 128;
      if !checked { NotBeyond(buf, p, ep, bits, signed, k); }
      if checked {
        if signed { minus := v >= 64; }
        var bitsLeft := bits - shift;
        if bitsLeft < 7 {
          if !FitsLast(v, bitsLeft, signed) {
            if u8 < 128 { LastByte(u8, bitsLeft, signed); }
            NotAccepted(buf, p, ep, bits, signed, k);
            return Err;
          }
        }
      } else if u8 < 128 {
        LastByte(u8, bits - shift, signed);
      }
      result := (result + Shl(v, shift)) % U64;
      shift := shift + 7;
      if u8 < 128 {
        if !checked && signed { minus := u8 >= 64; }
        Finish(buf, p, ep, bits, signed, k, minus);
        IsAccepted(buf, p, ep, bits, signed, q);
        if minus && shift < 64 { result := (result + U64 - Pow2(shift)) % U64; }
        return Ok(q, result);
      }
      if q >= end {
        if q < ep || 7 * (k + 1) >= bits {
          NotAccepted(buf, p, ep, bits, signed, k);
        } else {
          NotAccepted(buf, p, ep, bits, signed, k + 1);
        }
        return Err;
      }
      Continue(buf, p, ep, k);
      u8 := buf[q];
      q := q + 1;
      k := k + 1;
    }
  }

  /** The range check on a byte of which only `left` bits belong to the value. */
  predicate FitsLast(v: nat, left: nat, signed: bool)
    requires v < 128 && 0 < left < 7
  {
    if !signed then v / Pow2(left) == 0
    else if v >= 64 then (127 - v) / Pow2(left - 1) == 0
    else v / Pow2(left - 1) == 0
  }

  lemma LastByte(u8: byte, left: int, signed: bool)
    requires u8 < 128 && left > 0
    ensures Value(left, signed, [u8]).Some? <==> (left >= 7 || FitsLast(u8, left, signed))
    ensures Value(left, signed, [u8]).Some? ==>
              Value(left, signed, [u8]).value == if signed && u8 >= 64 then u8 - 128 else u8
  {
    assert Pow2(6) == 64 && Pow2(7) == 128 by { assert Pow2(3) == 8; }
    if left >= 7 { Pow2Mono(6, left - 1); Pow2Mono(7, left); }
    else if !signed { DivZero(u8, Pow2(left)); }
    else if u8 >= 64 { DivZero(127 - u8, Pow2(left - 1)); }
    else { DivZero(u8, Pow2(left - 1)); }
  }

  lemma DivZero(a: nat, b: nat)
    requires b > 0
    ensures a / b == 0 <==> a < b
  {
    if a >= b { assert a / b >= 1 by { assert a == (a / b) * b + a % b; } }
  }

  lemma NoWrap(acc: nat, v: nat, shift: nat)
    requires acc < Pow2(shift) && v < 128 && shift + 7 <= 63
    ensures (acc + v * Pow2(shift)) % U64 == acc + v * Pow2(shift)
  {
    MulLe(v, 127, Pow2(shift));
    MulLe(0, v, Pow2(shift));
    Pow2Seven(shift);
    Pow2Mono(shift + 7, 64);
    Pow2Sixty4();
    SmallMod(acc + v * Pow2(shift));
  }

  lemma SmallMod(x: nat)
    requires x < U64
    ensures x % U64 == x
  {
  }

  lemma {:induction false} AccPrefix(a: seq<byte>, b: seq<byte>, k: nat)
    requires k <= |a| && k <= |b| && forall i :: 0 <= i < k ==> a[i] == b[i]
    ensures Acc(a, k) == Acc(b, k)
  {
    if k > 0 { AccPrefix(a, b, k - 1); }
  }

  /** In an accepted input the loop stops inside the encoding. */
  lemma NotBeyond(buf: seq<byte>, p: nat, ep: nat, n: int, signed: bool, k: nat)
    requires Accepts(buf, p, ep, n, signed) && 7 * k < n && p + k <= ep
    requires forall i :: p <= i < p + k ==> buf[i] >= 128
    ensures p + k < ep
    ensures buf[p + k] >= 128 ==> p + k + 1 < ep && 7 * (k + 1) < n
    ensures buf[p + k] < 128 ==> Value(n - 7 * k, signed, [buf[p + k]]).Some?
  {
    var e :| p <= e <= ep <= |buf| && Value(n, signed, buf[p..e]).Some?;
    var bs := buf[p..e];
    Shape(n, signed, bs);
    assert forall i :: 0 <= i < |bs| ==> bs[i] == buf[p + i];
    assert |bs| > k;
    Unfold(n, signed, bs, k);
    assert bs[k] == buf[p + k];
    if buf[p + k] < 128 { assert bs[k..] == [buf[p + k]]; }
  }
}
