/** Bytes, big-endian integers, and the text of a channel name. */
module Bytes {
  type byte = x: int | 0 <= x < 0x100
  type u16 = x: int | 0 <= x < 0x1_0000
  type u32 = x: int | 0 <= x < 0x1_0000_0000
  type i64 = x: int | -0x8000_0000_0000_0000 <= x < 0x8000_0000_0000_0000
  type bytes = seq<byte>

  function Pow256(n: nat): (p: nat)
    ensures p > 0
  {
    if n == 0 then 1 else 256 * Pow256(n - 1)
  }

  /** The low `n` bytes of `v`, the most significant first.
      A value above `n` bytes loses its high part, as an `as u32` cast does. */
  function BigEndian(v: nat, n: nat): (s: bytes)
    ensures |s| == n
  {
    if n == 0 then [] else BigEndian(v / 256, n - 1) + [v % 256]
  }

  function FromBigEndian(s: bytes): (v: nat)
    ensures v < Pow256(|s|)
  {
    if s == [] then 0 else 256 * FromBigEndian(s[..|s| - 1]) + s[|s| - 1]
  }

  lemma {:induction false} BigEndianRoundTrip(v: nat, n: nat)
    requires v < Pow256(n)
    ensures FromBigEndian(BigEndian(v, n)) == v
  {
    if n > 0 {
      BigEndianRoundTrip(v / 256, n - 1);
      assert BigEndian(v, n)[..n - 1] == BigEndian(v / 256, n - 1);
    }
  }

  lemma {:induction false} BigEndianInverse(s: bytes)
    ensures BigEndian(FromBigEndian(s), |s|) == s
  {
    if s != [] {
      BigEndianInverse(s[..|s| - 1]);
    }
  }

  lemma PowerSplits(n: nat)
    requires n > 0
    ensures Pow256(n) == 256 * Pow256(n - 1)
  {
  }

  lemma Grows(k: nat, p: nat)
    requires k > 0
    ensures k * p >= p
  {
    assert k * p == p + (k - 1) * p;
  }

  lemma DivideOnce(v: nat, p: nat, q: nat, r: int)
    requires p > 0 && v == q * p + r && 0 <= r < p
    ensures v / p == q
  {
    var q', r' := v / p, v % p;
    assert v == q' * p + r';
    if q' < q {
      assert (q - q') * p >= p by { Grows(q - q', p); }
    } else if q < q' {
      assert (q' - q) * p >= p by { Grows(q' - q, p); }
    }
  }

  lemma DivideTwice(v: nat, p: nat)
    requires p > 0
    ensures v / 256 / p == v / (256 * p)
  {
    var q, r := v / (256 * p), v % (256 * p);
    assert v == q * (256 * p) + r == 256 * (q * p) + r;
    var a, b := v / 256, v % 256;
    DivideOnce(a, p, q, a - q * p) by {
      assert 256 * (a - q * p) == r - b;
    }
  }

  /** Each byte is a digit of the number, the first one the most significant. */
  lemma {:induction false} BigEndianDigits(v: nat, n: nat, i: nat)
    requires i < n
    ensures BigEndian(v, n)[i] == v / Pow256(n - 1 - i) % 256
  {
    if i < n - 1 {
      BigEndianDigits(v / 256, n - 1, i);
      DivideTwice(v, Pow256(n - 2 - i));
      PowerSplits(n - 1 - i);
    }
  }

  lemma Widths()
    ensures Pow256(2) == 0x1_0000
    ensures Pow256(4) == 0x1_0000_0000
    ensures Pow256(8) == 0x1_0000_0000_0000_0000
  {
    assert Pow256(1) == 256;
    assert Pow256(3) == 0x100_0000;
    assert Pow256(5) == 0x100_0000_0000;
    assert Pow256(6) == 0x1_0000_0000_0000;
    assert Pow256(7) == 0x100_0000_0000_0000;
  }

  /** A signed 64-bit integer, in two's complement. */
  function FromI64(v: i64): (s: bytes)
    ensures |s| == 8
  {
    BigEndian(if v < 0 then v + 0x1_0000_0000_0000_0000 else v, 8)
  }

  function ToI64(s: bytes): i64
    requires |s| == 8
  {
    Widths();
    var v := FromBigEndian(s);
    if v < 0x8000_0000_0000_0000 then v else v - 0x1_0000_0000_0000_0000
  }

  lemma I64RoundTrip(v: i64)
    ensures ToI64(FromI64(v)) == v
  {
    Widths();
    BigEndianRoundTrip(if v < 0 then v + 0x1_0000_0000_0000_0000 else v, 8);
  }

  lemma I64Inverse(s: bytes)
    requires |s| == 8
    ensures FromI64(ToI64(s)) == s
  {
    Widths();
    BigEndianInverse(s);
  }

  /** The unsigned integer of `n` bytes at `at`. */
  function UintAt(data: bytes, at: nat, n: nat): nat
    requires at + n <= |data|
  {
    FromBigEndian(data[at..at + n])
  }

  lemma UintAtWidth(data: bytes, at: nat, n: nat)
    requires at + n <= |data| && n <= 4
    ensures n == 4 ==> UintAt(data, at, n) < 0x1_0000_0000
    ensures n == 2 ==> UintAt(data, at, n) < 0x1_0000
  {
    Widths();
    assert |data[at..at + n]| == n;
  }

  lemma FourBytes(a: byte, b: byte, c: byte, d: byte)
    ensures FromBigEndian([a, b, c, d]) == ((a * 256 + b) * 256 + c) * 256 + d
    ensures BigEndian(((a * 256 + b) * 256 + c) * 256 + d, 4) == [a, b, c, d]
  {
    assert [a, b, c, d][..3] == [a, b, c] && [a, b, c][..2] == [a, b] && [a, b][..1] == [a] && [a][..0] == [];
    assert FromBigEndian([a]) == a && FromBigEndian([a, b]) == a * 256 + b;
    assert FromBigEndian([a, b, c]) == (a * 256 + b) * 256 + c;
    BigEndianInverse([a, b, c, d]);
  }

  predicate IsTail(b: byte) {
    0x80 <= b <= 0xBF
  }

  /** The length of the scalar value at the start of `s`, or zero where none is
      well formed there (RFC 3629, section 4). */
  function ScalarLen(s: bytes): (n: nat)
    ensures n <= 4 && n <= |s|
  {
    if s == [] then 0
    else if s[0] < 0x80 then 1
    else if 0xC2 <= s[0] <= 0xDF then
      if |s| >= 2 && IsTail(s[1]) then 2 else 0
    else if 0xE0 <= s[0] <= 0xEF then
      if |s| >= 3 && IsTail(s[1]) && IsTail(s[2])
         && (s[0] == 0xE0 ==> s[1] >= 0xA0) && (s[0] == 0xED ==> s[1] <= 0x9F) then 3 else 0
    else if 0xF0 <= s[0] <= 0xF4 then
      if |s| >= 4 && IsTail(s[1]) && IsTail(s[2]) && IsTail(s[3])
         && (s[0] == 0xF0 ==> s[1] >= 0x90) && (s[0] == 0xF4 ==> s[1] <= 0x8F) then 4 else 0
    else 0
  }

  predicate IsUtf8(s: bytes)
    decreases |s|
  {
    s == [] || (ScalarLen(s) > 0 && IsUtf8(s[ScalarLen(s)..]))
  }

  /** Text: the bytes of a Rust `str`, which are UTF-8 by RFC 3629. */
  type str = s: bytes | IsUtf8(s)

  /** The bytes of each piece, one behind the other. */
  function Flat(parts: seq<bytes>): bytes {
    if parts == [] then [] else parts[0] + Flat(parts[1..])
  }

  lemma {:induction false} FlatAppend(a: seq<bytes>, b: seq<bytes>)
    ensures Flat(a + b) == Flat(a) + Flat(b)
  {
    if a == [] {
      assert a + b == b;
    } else {
      FlatAppend(a[1..], b);
      assert (a + b)[1..] == a[1..] + b;
    }
  }

  lemma FlatSnoc(a: seq<bytes>, b: bytes)
    ensures Flat(a + [b]) == Flat(a) + b
  {
    FlatAppend(a, [b]);
    assert Flat([b]) == b;
  }
}
