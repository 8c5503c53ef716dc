/** Bytes, little-endian integers, and cutting a message into equal buffers. */
module Bytes {

  type Byte = x: int | 0 <= x < 256

  datatype Option<+T> = None | Some(value: T)

  /** The payload denoted by a list of buffers. */
  function Concat(parts: seq<seq<Byte>>): seq<Byte> {
    if parts == [] then [] else parts[0] + Concat(parts[1..])
  }

  lemma {:induction false} ConcatAppend(a: seq<seq<Byte>>, b: seq<seq<Byte>>)
    ensures Concat(a + b) == Concat(a) + Concat(b)
  {
    if a == [] {
      assert a + b == b;
    } else {
      assert (a + b)[1..] == a[1..] + b;
      ConcatAppend(a[1..], b);
    }
  }

  lemma ConcatOne(a: seq<Byte>)
    ensures Concat([a]) == a
  {
    assert Concat([a]) == a + Concat([]);
  }

  /** `count` buffers of `length` bytes each: what buffer_malloc prepares. */
  predicate Shaped(parts: seq<seq<Byte>>, count: nat, length: nat) {
    |parts| == count && forall k | 0 <= k < count :: |parts[k]| == length
  }

  lemma {:induction false} ShapedSize(parts: seq<seq<Byte>>, count: nat, length: nat)
    requires Shaped(parts, count, length)
    ensures |Concat(parts)| == count * length
    decreases count
  {
    if count > 0 {
      ShapedSize(parts[1..], count - 1, length);
      assert (count - 1) * length + length == count * length;
    }
  }

  /** Cut `data` into `count` consecutive buffers of `length` bytes each. */
  function Scatter(data: seq<Byte>, count: nat, length: nat): (parts: seq<seq<Byte>>)
    requires |data| == count * length
    ensures Shaped(parts, count, length)
    ensures Concat(parts) == data
    decreases count
  {
    if count == 0 then []
    else
      assert |data| - length == (count - 1) * length;
      assert data == data[..length] + data[length..];
      [data[..length]] + Scatter(data[length..], count - 1, length)
  }

  lemma {:induction false} MulMonotone(a: nat, b: nat, c: nat)
    requires a <= b
    ensures a * c <= b * c
    decreases c
  {
    if c > 0 { MulMonotone(a, b, c - 1); }
  }

  /** The k-th buffer starts at byte k * length. */
  lemma {:induction false} ScatterAt(data: seq<Byte>, count: nat, length: nat, k: nat)
    requires |data| == count * length && k < count
    ensures 0 <= k * length <= (k + 1) * length <= |data|
    ensures Scatter(data, count, length)[k] == data[k * length..(k + 1) * length]
    decreases k
  {
    MulMonotone(k + 1, count, length);
    assert (k + 1) * length == k * length + length;
    if k > 0 {
      assert |data| - length == (count - 1) * length;
      ScatterAt(data[length..], count - 1, length, k - 1);
      assert (k - 1) * length + length == k * length;
    } else {
      assert k * length == 0;
    }
  }

  /** `n` written as `width` bytes, least significant first; higher bytes are cut off. */
  function LE(n: nat, width: nat): (b: seq<Byte>)
    ensures |b| == width
  {
    if width == 0 then [] else [n % 256] + LE(n / 256, width - 1)
  }

  function FromLE(b: seq<Byte>): nat {
    if b == [] then 0 else b[0] + 256 * FromLE(b[1..])
  }

  /** A 64-bit length and the data. */
  function Prefixed(data: seq<Byte>): (b: seq<Byte>)
    ensures b != []
  {
    LE(|data|, 8) + data
  }

  /** 256 to the power `width`: the first number that does not fit. */
  function Range(width: nat): (r: nat)
    ensures r > 0
  {
    if width == 0 then 1 else 256 * Range(width - 1)
  }

  /** Writing keeps the value modulo the range of the field. */
  lemma {:induction false} FromLEofLE(n: nat, width: nat)
    ensures n < Range(width) ==> FromLE(LE(n, width)) == n
    decreases width
  {
    if width > 0 {
      assert LE(n, width)[1..] == LE(n / 256, width - 1);
      FromLEofLE(n / 256, width - 1);
    }
  }

  lemma DivByRange(n: nat, k: nat)
    ensures n / 256 / Range(k) == n / Range(k + 1)
  {
    var r := Range(k);
    var q, a := n / 256, n % 256;
    var p, b := q / r, q % r;
    assert q == p * r + b && n == q * 256 + a;
    assert n == p * (256 * r) + (b * 256 + a) by { assert (p * r) * 256 == p * (256 * r); }
    assert 0 <= b * 256 + a < 256 * r;
    Quotient(n, 256 * r, p, b * 256 + a);
  }

  lemma Quotient(n: nat, d: nat, q: nat, rest: nat)
    requires d > 0 && n == q * d + rest && rest < d
    ensures n / d == q
  {
    var q', rest' := n / d, n % d;
    assert q' * d + rest' == q * d + rest;
    assert (q' + 1) * d == q' * d + d && (q + 1) * d == q * d + d;
    if q' < q {
      MulMonotone(q' + 1, q, d);
    } else if q' > q {
      MulMonotone(q + 1, q', d);
    }
  }

  /** Byte k of a field is digit k of the number to the base 256: least significant first. */
  lemma {:induction false} LEDigit(n: nat, width: nat, k: nat)
    requires k < width
    ensures LE(n, width)[k] == n / Range(k) % 256
    decreases width
  {
    if k > 0 {
      LEDigit(n / 256, width - 1, k - 1);
      DivByRange(n, k - 1);
    }
  }

  /** The value of a field: byte k counts 256 to the power k times. */
  lemma {:induction false} FromLEDigits(b: seq<Byte>, k: nat)
    requires k < |b|
    ensures FromLE(b) / Range(k) % 256 == b[k]
    decreases |b|
  {
    LEofFromLE(b);
    LEDigit(FromLE(b), |b|, k);
  }

  /** The first eight powers of 256, written out. */
  lemma Powers()
    ensures Range(0) == 1 && Range(1) == 0x100 && Range(2) == 0x1_0000 && Range(3) == 0x100_0000
    ensures Range(4) == 0x1_0000_0000 && Range(5) == 0x100_0000_0000
    ensures Range(6) == 0x1_0000_0000_0000 && Range(7) == 0x100_0000_0000_0000
  {
    FieldRanges();
  }

  /** b is the number n, least significant byte first: the order of x86 and of most ARM hosts. */
  predicate Spells(b: seq<Byte>, n: nat) {
    && (|b| == 4 || |b| == 8)
    && b[0] == n % 256 && b[1] == n / 0x100 % 256 && b[2] == n / 0x1_0000 % 256 && b[3] == n / 0x100_0000 % 256
    && (|b| == 8 ==>
          && b[4] == n / 0x1_0000_0000 % 256 && b[5] == n / 0x100_0000_0000 % 256
          && b[6] == n / 0x1_0000_0000_0000 % 256 && b[7] == n / 0x100_0000_0000_0000 % 256)
  }

  lemma FieldSpells(n: nat, width: nat)
    requires width == 4 || width == 8
    ensures Spells(LE(n, width), n)
  {
    Powers();
    forall k: nat | k < width ensures LE(n, width)[k] == n / Range(k) % 256 {
      LEDigit(n, width, k);
    }
    hide LE, Range;
  }

  /** A length-prefixed buffer on the wire: eight bytes of length, then the data as they are. */
  lemma PrefixedLayout(data: seq<Byte>)
    ensures |Prefixed(data)| == 8 + |data| && Spells(Prefixed(data)[..8], |data|) && Prefixed(data)[8..] == data
  {
    FieldSpells(|data|, 8);
    assert Prefixed(data)[..8] == LE(|data|, 8);
  }

  lemma LowByte(x: Byte, n: nat)
    ensures (x + 256 * n) % 256 == x && (x + 256 * n) / 256 == n
  {
  }

  lemma {:induction false} LEofFromLE(b: seq<Byte>)
    ensures FromLE(b) < Range(|b|) && LE(FromLE(b), |b|) == b
  {
    if b != [] {
      LEofFromLE(b[1..]);
      LowByte(b[0], FromLE(b[1..]));
      assert b == [b[0]] + b[1..];
    }
  }

  /** A field of four bytes holds 2^32 values, one of eight bytes 2^64. */
  lemma FieldRanges()
    ensures Range(4) == 0x1_0000_0000 && Range(8) == 0x1_0000_0000_0000_0000
  {
    assert Range(1) == 256 && Range(2) == 0x1_0000 && Range(3) == 0x100_0000 && Range(4) == 0x1_0000_0000;
    assert Range(5) == 0x100_0000_0000 && Range(6) == 0x1_0000_0000_0000;
    assert Range(7) == 0x100_0000_0000_0000;
  }
}
