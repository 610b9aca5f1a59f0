/**
  Bytes, byte order and lexicographic comparison: the parts of the wire and
  store formats where the exact byte layout carries the argument.
 */
module Bytes {

  type byte = b: int | 0 <= b < 256

  const I64_MAX: int := 0x7fff_ffff_ffff_ffff
  const U64_MAX: int := 0xffff_ffff_ffff_ffff

  type i64 = i: int | -0x8000_0000_0000_0000 <= i <= 0x7fff_ffff_ffff_ffff

  /** `x as u64` for a signed 64-bit `x`: two's complement reinterpretation. */
  function AsU64(x: i64): (r: nat)
    ensures r <= U64_MAX
  {
    if x >= 0 then x else x + U64_MAX + 1
  }

  lemma {:induction false} AsU64Injective(x: i64, y: i64)
    ensures AsU64(x) == AsU64(y) <==> x == y
  {
  }

  /** Reinterpretation keeps the value modulo 2^64. */
  lemma {:induction false} AsU64Wraps(x: i64)
    ensures AsU64(x) == x % 0x1_0000_0000_0000_0000
  {
  }

  // ---- Lexicographic order ------------------------------------------------

  /** Rust's ordering on byte slices. */
  predicate LexLess(a: seq<byte>, b: seq<byte>)
    decreases |a|
  {
    |b| > 0 && (|a| == 0 || a[0] < b[0] || (a[0] == b[0] && LexLess(a[1..], b[1..])))
  }

  lemma {:induction false} LexIrreflexive(a: seq<byte>)
    ensures !LexLess(a, a)
    decreases |a|
  {
    if |a| > 0 {
      LexIrreflexive(a[1..]);
    }
  }

  /** Two different byte strings are ordered one way and not the other. */
  lemma {:induction false} LexTotal(a: seq<byte>, b: seq<byte>)
    requires a != b
    ensures LexLess(a, b) <==> !LexLess(b, a)
    decreases |a|
  {
    if |a| > 0 && |b| > 0 && a[0] == b[0] {
      assert a[1..] != b[1..] by {
        assert a == [a[0]] + a[1..];
        assert b == [b[0]] + b[1..];
      }
      LexTotal(a[1..], b[1..]);
    }
  }

  lemma {:induction false} LexTransitive(a: seq<byte>, b: seq<byte>, c: seq<byte>)
    requires LexLess(a, b) && LexLess(b, c)
    ensures LexLess(a, c)
    decreases |a|
  {
    if |a| > 0 && a[0] == b[0] && b[0] == c[0] {
      LexTransitive(a[1..], b[1..], c[1..]);
    }
  }

  /** The first difference decides, and a proper prefix comes first. */
  lemma {:induction false} LexFirstDifference(a: seq<byte>, b: seq<byte>, k: nat)
    requires k <= |a| && k < |b| && a[..k] == b[..k]
    requires k < |a| ==> a[k] < b[k]
    ensures LexLess(a, b) && !LexLess(b, a)
    decreases k
  {
    if k > 0 {
      assert a[0] == a[..k][0] && b[0] == b[..k][0];
      assert a[1..][..k - 1] == a[..k][1..] && b[1..][..k - 1] == b[..k][1..];
      LexFirstDifference(a[1..], b[1..], k - 1);
    }
  }

  // ---- Fixed-width integers -----------------------------------------------

  function Pow256(width: nat): (r: nat)
    ensures r > 0
  {
    if width == 0 then 1 else 256 * Pow256(width - 1)
  }

  function LittleEndian(n: nat, width: nat): (s: seq<byte>)
    ensures |s| == width
  {
    if width == 0 then [] else [n % 256] + LittleEndian(n / 256, width - 1)
  }

  lemma {:induction false} LittleEndianInjective(m: nat, n: nat, width: nat)
    requires m < Pow256(width) && n < Pow256(width)
    requires LittleEndian(m, width) == LittleEndian(n, width)
    ensures m == n
    decreases width
  {
    if width > 0 {
      var a, b := LittleEndian(m, width), LittleEndian(n, width);
      assert a[0] == m % 256 && b[0] == n % 256;
      assert a[1..] == LittleEndian(m / 256, width - 1);
      assert b[1..] == LittleEndian(n / 256, width - 1);
      LittleEndianInjective(m / 256, n / 256, width - 1);
    }
  }

  function FromLittleEndian(s: seq<byte>): nat {
    if |s| == 0 then 0 else s[0] + 256 * FromLittleEndian(s[1..])
  }

  lemma {:induction false} LittleEndianRoundTrip(n: nat, width: nat)
    requires n < Pow256(width)
    ensures FromLittleEndian(LittleEndian(n, width)) == n
    decreases width
  {
    if width > 0 {
      var s := LittleEndian(n, width);
      assert s[1..] == LittleEndian(n / 256, width - 1);
      LittleEndianRoundTrip(n / 256, width - 1);
    }
  }

  /** Eight bytes, the first weighing least. */
  function Weigh(s: seq<byte>): int
    requires |s| == 8
  {
    s[0] as int + 0x100 * (s[1] as int) + 0x1_0000 * (s[2] as int) + 0x100_0000 * (s[3] as int) +
    0x1_0000_0000 * (s[4] as int) + 0x100_0000_0000 * (s[5] as int) + 0x1_0000_0000_0000 * (s[6] as int) + 0x100_0000_0000_0000 * (s[7] as int)
  }

  lemma {:induction false} FromLittleEndianEight(s: seq<byte>)
    requires |s| == 8
    ensures FromLittleEndian(s) == Weigh(s)
  {
    FromLittleEndianFour(s);
    FromLittleEndianFour(s[4..]);
    assert s[4..][4..] == [];
  }

  lemma {:induction false} FromLittleEndianFour(s: seq<byte>)
    requires |s| >= 4
    ensures FromLittleEndian(s) ==
            s[0] as int + 0x100 * (s[1] as int) + 0x1_0000 * (s[2] as int) + 0x100_0000 * (s[3] as int) + 0x1_0000_0000 * FromLittleEndian(s[4..])
  {
    assert s[1..][1..] == s[2..] && s[2..][1..] == s[3..] && s[3..][1..] == s[4..];
    assert FromLittleEndian(s[3..]) == s[3] + 256 * FromLittleEndian(s[4..]);
    assert FromLittleEndian(s[2..]) == s[2] + 256 * FromLittleEndian(s[3..]);
    assert FromLittleEndian(s[1..]) == s[1] + 256 * FromLittleEndian(s[2..]);
  }

  function BigEndian(n: nat, width: nat): (s: seq<byte>)
    ensures |s| == width
  {
    if width == 0 then [] else BigEndian(n / 256, width - 1) + [n % 256]
  }

  function FromBigEndian(s: seq<byte>): nat {
    if |s| == 0 then 0 else FromBigEndian(s[..|s| - 1]) * 256 + s[|s| - 1]
  }

  lemma {:induction false} BigEndianRoundTrip(n: nat, width: nat)
    requires n < Pow256(width)
    ensures FromBigEndian(BigEndian(n, width)) == n
    decreases width
  {
    if width > 0 {
      var s := BigEndian(n, width);
      assert s[..width - 1] == BigEndian(n / 256, width - 1);
      BigEndianRoundTrip(n / 256, width - 1);
    }
  }

  lemma {:induction false} LexAppendLast(x: seq<byte>, y: seq<byte>, p: byte, q: byte)
    requires |x| == |y|
    ensures LexLess(x + [p], y + [q]) <==> LexLess(x, y) || (x == y && p < q)
    decreases |x|
  {
    if |x| == 0 {
      assert x + [p] == [p] && y + [q] == [q];
    } else {
      assert (x + [p])[1..] == x[1..] + [p];
      assert (y + [q])[1..] == y[1..] + [q];
      assert x == [x[0]] + x[1..];
      assert y == [y[0]] + y[1..];
      LexAppendLast(x[1..], y[1..], p, q);
    }
  }

  /** Big-endian keys of one width sort lexicographically exactly as numbers. */
  lemma {:induction false} BigEndianOrder(m: nat, n: nat, width: nat)
    requires m < Pow256(width) && n < Pow256(width)
    ensures LexLess(BigEndian(m, width), BigEndian(n, width)) <==> m < n
    decreases width
  {
    if width == 0 {
    } else {
      BigEndianOrder(m / 256, n / 256, width - 1);
      BigEndianRoundTrip(m / 256, width - 1);
      BigEndianRoundTrip(n / 256, width - 1);
      LexAppendLast(BigEndian(m / 256, width - 1), BigEndian(n / 256, width - 1), m % 256, n % 256);
    }
  }

  lemma {:induction false} Pow256Eight()
    ensures Pow256(8) == U64_MAX + 1
  {
    assert Pow256(4) == 256 * 256 * 256 * 256;
    assert Pow256(6) == 256 * 256 * Pow256(4);
  }

  /** `u64::to_be_bytes`. */
  function BE64(n: nat): (s: seq<byte>)
    requires n <= U64_MAX
    ensures |s| == 8
  {
    BigEndian(n, 8)
  }

  /** The bytes of a key, the last weighing least, are those of the number reversed. */
  lemma {:induction false} BigEndianReverses(n: nat, width: nat, k: nat)
    requires k < width
    ensures BigEndian(n, width)[k] == LittleEndian(n, width)[width - 1 - k]
    decreases width
  {
    if k < width - 1 {
      BigEndianReverses(n / 256, width - 1, k);
    }
  }

  lemma {:induction false} BE64Order(m: nat, n: nat)
    requires m <= U64_MAX && n <= U64_MAX
    ensures LexLess(BE64(m), BE64(n)) <==> m < n
    ensures FromBigEndian(BE64(m)) == m
  {
    Pow256Eight();
    BigEndianOrder(m, n, 8);
    BigEndianRoundTrip(m, 8);
  }

  /** `i64::to_le_bytes`. */
  function LE64(x: i64): (s: seq<byte>)
    ensures |s| == 8
  {
    LittleEndian(AsU64(x), 8)
  }

  /** Weighed that way, the bytes of a u64 give the number back. */
  lemma {:induction false} LittleEndianWeighs(n: nat)
    requires n <= U64_MAX
    ensures Weigh(LittleEndian(n, 8)) == n
  {
    Pow256Eight();
    LittleEndianRoundTrip(n, 8);
    FromLittleEndianEight(LittleEndian(n, 8));
  }

  /** The bytes of an i64 weigh its value modulo 2^64. */
  lemma {:induction false} LE64Weighs(x: i64)
    ensures Weigh(LE64(x)) == x % 0x1_0000_0000_0000_0000
  {
    AsU64Wraps(x);
    LittleEndianWeighs(AsU64(x));
  }

  lemma {:induction false} LE64Injective(x: i64, y: i64)
    ensures LE64(x) == LE64(y) <==> x == y
  {
    if LE64(x) == LE64(y) {
      Pow256Eight();
      LittleEndianInjective(AsU64(x), AsU64(y), 8);
      AsU64Injective(x, y);
    }
  }

  // ---- Bitwise exclusive or -----------------------------------------------

  function Pow2(bits: nat): (r: nat)
    ensures r > 0
  {
    if bits == 0 then 1 else 2 * Pow2(bits - 1)
  }

  /** Exclusive or of the low `bits` bits, bit by bit. */
  function XorBits(a: nat, b: nat, bits: nat): (r: nat)
    ensures r < Pow2(bits)
  {
    if bits == 0 then 0 else (if a % 2 == b % 2 then 0 else 1) + 2 * XorBits(a / 2, b / 2, bits - 1)
  }

  lemma {:induction false} BitAndRest(bit: nat, rest: nat)
    requires bit < 2
    ensures (bit + 2 * rest) % 2 == bit && (bit + 2 * rest) / 2 == rest
  {
  }

  lemma {:induction false} XorBitsCancel(a: nat, b: nat, bits: nat)
    requires a < Pow2(bits)
    ensures XorBits(XorBits(a, b, bits), b, bits) == a
    decreases bits
  {
    if bits > 0 {
      XorBitsCancel(a / 2, b / 2, bits - 1);
      var bit, rest := if a % 2 == b % 2 then 0 else 1, XorBits(a / 2, b / 2, bits - 1);
      BitAndRest(bit, rest);
      assert XorBits(a, b, bits) == bit + 2 * rest;
    }
  }

  lemma {:induction false} Pow2Eight()
    ensures Pow2(8) == 256
  {
    assert Pow2(4) == 16;
  }

  function Xor(a: byte, b: byte): (r: byte) {
    Pow2Eight();
    XorBits(a, b, 8)
  }

  lemma {:induction false} XorCancels(a: byte, b: byte)
    ensures Xor(Xor(a, b), b) == a
  {
    Pow2Eight();
    XorBitsCancel(a, b, 8);
  }

  function Bit(n: nat, k: nat): nat {
    if k == 0 then n % 2 else Bit(n / 2, k - 1)
  }

  lemma {:induction false} XorBitsAt(a: nat, b: nat, bits: nat, k: nat)
    requires k < bits
    ensures Bit(XorBits(a, b, bits), k) == 1 <==> Bit(a, k) != Bit(b, k)
    decreases bits
  {
    var bit, rest := if a % 2 == b % 2 then 0 else 1, XorBits(a / 2, b / 2, bits - 1);
    BitAndRest(bit, rest);
    assert XorBits(a, b, bits) == bit + 2 * rest;
    if k > 0 {
      XorBitsAt(a / 2, b / 2, bits - 1, k - 1);
    }
  }

  /** Each bit of the exclusive or is set exactly where the two differ; with nothing, a byte is itself. */
  lemma {:induction false} XorIsBitwise(a: byte, b: byte, k: nat)
    requires k < 8
    ensures Bit(Xor(a, b), k) == 1 <==> Bit(a, k) != Bit(b, k)
    ensures Xor(0, b) == b
  {
    XorBitsAt(a, b, 8, k);
    Pow2Eight();
    XorWithNothing(b, 8);
  }

  lemma {:induction false} XorWithNothing(b: nat, bits: nat)
    requires b < Pow2(bits)
    ensures XorBits(0, b, bits) == b
    decreases bits
  {
    if bits > 0 {
      XorWithNothing(b / 2, bits - 1);
    }
  }
}
