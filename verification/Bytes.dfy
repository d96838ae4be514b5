/** Fixed-width unsigned integers, their little-endian encoding, and the stock result types. */
module Bytes {

  type u8 = x: int | 0 <= x < 0x100
  type u16 = x: int | 0 <= x < 0x1_0000
  type u32 = x: int | 0 <= x < 0x1_0000_0000
  type u64 = x: int | 0 <= x < 0x1_0000_0000_0000_0000

  datatype Option<+T> = None | Some(value: T)

  datatype Result<+T, +E> = Success(value: T) | Failure(error: E)

  /** The byte that carries the unbounded number `n` on the wire. */
  function Id(n: nat): u8 {
    n % 256
  }

  /** `u8::wrapping_add`. */
  function WrappingAdd(x: u8, y: u8): u8 {
    if x + y < 256 then x + y else x + y - 256
  }

  /** How far `id` lies ahead of `cur` on the ring of 256 identifiers. */
  function Offset(id: u8, cur: u8): u8 {
    if cur <= id then id - cur else id - cur + 256
  }

  /** Both are arithmetic modulo 256. */
  lemma RingArithmetic(x: u8, y: u8)
    ensures WrappingAdd(x, y) == Id(x + y)
    ensures Offset(x, y) == (x - y) % 256
  {}

  lemma MulMonotone(a: nat, b: nat, m: nat)
    requires a <= b
    ensures a * m <= b * m
  {
    assert (b - a) * m >= 0;
  }

  /** Comparing products by a common factor. */
  lemma MulCancel(a: nat, b: nat, m: nat)
    requires a * m < (b + 1) * m
    ensures a <= b
  {
    if b < a {
      MulMonotone(b + 1, a, m);
    }
  }

  /** The quotient is the only number of whole parts that leaves less than a part. */
  lemma DivideUnique(length: nat, size: nat, parts: nat, tail: nat)
    requires tail < size && length == parts * size + tail
    ensures length / size == parts
  {
    var q := length / size;
    assert q * size <= length < (q + 1) * size;
    assert length < (parts + 1) * size;
    MulCancel(q, parts, size);
    MulCancel(parts, q, size);
  }

  function Pow256(width: nat): nat {
    if width == 0 then 1 else 256 * Pow256(width - 1)
  }

  function ToLe(n: nat, width: nat): (s: seq<u8>)
    requires n < Pow256(width)
    ensures |s| == width
  {
    if width == 0 then [] else [n % 256] + ToLe(n / 256, width - 1)
  }

  function FromLe(s: seq<u8>): (n: nat)
    ensures n < Pow256(|s|)
  {
    if s == [] then 0 else s[0] + 256 * FromLe(s[1..])
  }

  lemma {:induction false} LeRoundTrip(n: nat, width: nat)
    requires n < Pow256(width)
    ensures FromLe(ToLe(n, width)) == n
  {
    if width == 0 {
    } else {
      LeRoundTrip(n / 256, width - 1);
      assert ToLe(n, width)[1..] == ToLe(n / 256, width - 1);
    }
  }

  lemma {:induction false} LeRoundTripBack(s: seq<u8>)
    ensures ToLe(FromLe(s), |s|) == s
  {
    if s == [] {
    } else {
      LeRoundTripBack(s[1..]);
      var n, rest := FromLe(s), FromLe(s[1..]);
      assert n == s[0] + 256 * rest;
      assert n % 256 == s[0] && n / 256 == rest;
      assert s == [s[0]] + s[1..];
    }
  }

  lemma DivideTwice(n: nat, a: nat, b: nat)
    requires a > 0 && b > 0
    ensures a * b > 0 && n / a / b == n / (a * b)
  {
    var q := n / a;
    var r, r2, q2 := n % a, q % b, q / b;
    MulMonotone(1, a, b);
    MulMonotone(r2, b - 1, a);
    assert n == a * q + r && q == b * q2 + r2;
    assert a * (b * q2 + r2) == q2 * (a * b) + r2 * a;
    assert r2 * a + r < a * b;
    DivideUnique(n, a * b, q2, r2 * a + r);
  }

  /** Byte `i` of a little-endian number has weight 256 to the power `i`. */
  predicate LittleEndian(s: seq<u8>, n: nat) {
    forall i :: 0 <= i < |s| ==> Pow256(i) > 0 && s[i] == n / Pow256(i) % 256
  }

  lemma Pow256Positive(i: nat)
    ensures Pow256(i) > 0
  {}

  lemma {:induction false} ToLeIsLittleEndian(n: nat, width: nat)
    requires n < Pow256(width)
    ensures LittleEndian(ToLe(n, width), n)
  {
    if width == 0 {
    } else {
      ToLeIsLittleEndian(n / 256, width - 1);
      forall i | 0 <= i < width
        ensures Pow256(i) > 0 && ToLe(n, width)[i] == n / Pow256(i) % 256
      {
        Pow256Positive(i);
        if i == 0 {
          assert n / 1 == n;
        } else {
          Pow256Positive(i - 1);
          DivideTwice(n, 256, Pow256(i - 1));
        }
      }
    }
  }

  /** The first bytes, in numbers. */
  lemma LittleEndianBytes(s: seq<u8>, n: nat)
    requires LittleEndian(s, n)
    ensures |s| >= 4 ==>
              s[0] == n % 256 && s[1] == n / 0x100 % 256 && s[2] == n / 0x1_0000 % 256 && s[3] == n / 0x100_0000 % 256
  {
    assert Pow256(0) == 1 && Pow256(1) == 256 * Pow256(0) && Pow256(2) == 256 * Pow256(1);
    assert Pow256(3) == 256 * Pow256(2);
  }

  lemma Pow256Values()
    ensures Pow256(4) == 0x1_0000_0000
    ensures Pow256(8) == 0x1_0000_0000_0000_0000
    ensures Pow256(16) == Pow256(8) * Pow256(8)
  {
    assert Pow256(4) == 256 * (256 * (256 * (256 * Pow256(0))));
    assert Pow256(8) == 256 * (256 * (256 * (256 * Pow256(4))));
    assert Pow256(12) == 256 * (256 * (256 * (256 * Pow256(8))));
    assert Pow256(16) == 256 * (256 * (256 * (256 * Pow256(12))));
  }
}
