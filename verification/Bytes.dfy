/** Bytes and the little-endian integer encodings of Go's encoding/binary. */
module Bytes {

  type byte = x: int | 0 <= x < 256

  const TWO32: int := 0x1_0000_0000
  const TWO63: int := 0x8000_0000_0000_0000
  const TWO64: int := 0x1_0000_0000_0000_0000

  /** Go's 64-bit int and int64. */
  type int64 = x: int | -0x8000_0000_0000_0000 <= x < 0x8000_0000_0000_0000

  function Pow256(n: nat): (p: int)
    ensures p >= 1
  {
    if n == 0 then 1 else 256 * Pow256(n - 1)
  }

  /** The low n bytes of x, least significant byte first. */
  function LE(x: nat, n: nat): (b: seq<byte>)
    ensures |b| == n
    decreases n, x
  {
    if n == 0 then [] else [x % 256] + LE(x / 256, n - 1)
  }

  /** The unsigned value of a little-endian byte string. */
  function Value(b: seq<byte>): (x: nat) {
    if b == [] then 0 else b[0] + 256 * Value(b[1..])
  }

  lemma {:induction false} ValueBound(b: seq<byte>)
    ensures Value(b) < Pow256(|b|)
  {
    if b != [] {
      ValueBound(b[1..]);
    }
  }

  /** PutUint64 and PutUint32 keep the value modulo the width of the field. */
  lemma {:induction false} ValueOfLE(x: nat, n: nat)
    ensures Value(LE(x, n)) == x % Pow256(n)
    decreases n
  {
    if n > 0 {
      ValueOfLE(x / 256, n - 1);
      assert LE(x, n)[1..] == LE(x / 256, n - 1);
      ModSplit(x, Pow256(n - 1));
    }
  }

  lemma ModSplit(x: nat, p: int)
    requires p >= 1
    ensures x % (256 * p) == x % 256 + 256 * ((x / 256) % p)
  {
    var q, r := (x / 256) / p, (x / 256) % p;
    assert x / 256 == q * p + r;
    assert x == 256 * (q * p + r) + x % 256;
    assert 256 * (q * p + r) == q * (256 * p) + 256 * r;
    var rest := 256 * r + x % 256;
    assert 0 <= rest < 256 * p;
    DivModUnique(x, 256 * p, q, rest);
  }

  lemma DivModUnique(x: int, m: int, q: int, r: int)
    requires m > 0 && 0 <= r < m && x == q * m + r
    ensures x % m == r
  {
    var q', r' := x / m, x % m;
    assert x == q' * m + r';
    assert (q - q') * m == r' - r;
    if q != q' {
      if q > q' {
        MulAtLeast(q - q', m);
        assert false;
      } else {
        MulAtLeast(q' - q, m);
        assert false;
      }
    }
  }

  lemma MulAtLeast(k: int, m: int)
    requires k >= 1 && m > 0
    ensures k * m >= m
  {}

  /** Every byte string is the encoding of its own value. */
  lemma {:induction false} LEOfValue(b: seq<byte>)
    ensures LE(Value(b), |b|) == b
    decreases |b|
  {
    if b != [] {
      LEOfValue(b[1..]);
      assert b == [b[0]] + b[1..];
    }
  }

  lemma Widths()
    ensures Pow256(4) == TWO32 && Pow256(8) == TWO64
  {
    assert Pow256(2) == 65536;
    assert Pow256(4) == TWO32;
    assert Pow256(6) == 65536 * TWO32;
  }

  function U32(x: nat): (b: seq<byte>) ensures |b| == 4 { LE(x, 4) }

  function U64(x: nat): (b: seq<byte>) ensures |b| == 8 { LE(x, 8) }

  /** uint64(int64(x)): two's complement in eight bytes. */
  function I64(x: int): (b: seq<byte>)
    ensures |b| == 8
  {
    LE(x % TWO64, 8)
  }

  /** int64(Uint64(b)). */
  function ValueI64(b: seq<byte>): (x: int64)
    requires |b| == 8
  {
    Widths();
    ValueBound(b);
    var u := Value(b);
    if u < TWO63 then u else u - TWO64
  }

  /** A value that fits its field is read back unchanged. */
  lemma ValueOfFitting(x: nat, n: nat)
    requires x < Pow256(n)
    ensures Value(LE(x, n)) == x
  {
    ValueOfLE(x, n);
    DivModUnique(x, Pow256(n), 0, x);
  }

  lemma I64RoundTrip(x: int64)
    ensures ValueI64(I64(x)) == x
  {
    Widths();
    var u: nat := if x < 0 then x + TWO64 else x;
    DivModUnique(x, TWO64, if x < 0 then -1 else 0, u);
    ValueOfFitting(u, 8);
  }

  lemma I64Surjective(b: seq<byte>)
    requires |b| == 8
    ensures I64(ValueI64(b)) == b
  {
    Widths();
    ValueBound(b);
    LEOfValue(b);
    var u := Value(b);
    var x := ValueI64(b);
    DivModUnique(x, TWO64, if u < TWO63 then 0 else -1, u);
  }

  lemma U32Value(x: nat)
    ensures Value(U32(x)) == x % TWO32
  {
    Widths();
    ValueOfLE(x, 4);
  }

  lemma U64Value(x: nat)
    ensures Value(U64(x)) == x % TWO64
  {
    Widths();
    ValueOfLE(x, 8);
  }
}
