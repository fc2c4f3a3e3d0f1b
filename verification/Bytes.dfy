/** Machine integers, byte strings and their encodings. */
module Bytes {

  const U16_MAX: int := 0xFFFF
  const U32_MAX: int := 0xFFFF_FFFF
  const U64_MAX: int := 0xFFFF_FFFF_FFFF_FFFF
  const U128_MAX: int := 0xFFFF_FFFF_FFFF_FFFF_FFFF_FFFF_FFFF_FFFF
  const I64_MAX: int := 0x7FFF_FFFF_FFFF_FFFF
  const I64_MIN: int := -0x8000_0000_0000_0000

  type byte = x: int | 0 <= x < 256
  type u16 = x: int | 0 <= x <= U16_MAX
  type u32 = x: int | 0 <= x <= U32_MAX
  type u64 = x: int | 0 <= x <= U64_MAX
  type i64 = x: int | I64_MIN <= x <= I64_MAX

  type bytes = seq<byte>

  /** 32-byte strings: hashes, public keys, channel identifiers. */
  type Digest = d: bytes | |d| == 32 witness seq(32, _ => 0)

  datatype Option<+T> = None | Some(value: T)

  // ----- Fixed-width integers -----

  function Pow(base: nat, n: nat): nat
  {
    if n == 0 then 1 else base * Pow(base, n - 1)
  }

  /** Little-endian encoding in `width` bytes; higher bytes are cut off. */
  function ToLE(n: nat, width: nat): (b: bytes)
    ensures |b| == width
  {
    if width == 0 then [] else [n % 256] + ToLE(n / 256, width - 1)
  }

  function FromLE(b: bytes): nat
  {
    if b == [] then 0 else b[0] + 256 * FromLE(b[1..])
  }

  lemma {:induction false} FromToLE(n: nat, width: nat)
    requires n < Pow(256, width)
    ensures FromLE(ToLE(n, width)) == n
  {
    if width > 0 {
      FromToLE(n / 256, width - 1);
      assert ToLE(n, width)[1..] == ToLE(n / 256, width - 1);
    }
  }

  lemma {:induction false} ToFromLE(b: bytes)
    ensures FromLE(b) < Pow(256, |b|)
    ensures ToLE(FromLE(b), |b|) == b
  {
    if b != [] {
      ToFromLE(b[1..]);
      assert FromLE(b) % 256 == b[0] && FromLE(b) / 256 == FromLE(b[1..]);
    }
  }

  function LE16(n: nat): (b: bytes)
    ensures |b| == 2
  {
    [n % 256, n / 256 % 256]
  }

  function U16At(b: bytes, i: nat): (n: u16)
    requires i + 2 <= |b|
  {
    b[i] as int + 256 * b[i + 1] as int
  }

  lemma U64Width()
    ensures Pow(256, 8) == U64_MAX + 1
  {
    assert Pow(256, 1) == 256 * Pow(256, 0);
    assert Pow(256, 2) == 256 * Pow(256, 1);
    assert Pow(256, 3) == 256 * Pow(256, 2);
    assert Pow(256, 4) == 256 * Pow(256, 3);
    assert Pow(256, 5) == 256 * Pow(256, 4);
    assert Pow(256, 6) == 256 * Pow(256, 5);
    assert Pow(256, 7) == 256 * Pow(256, 6);
  }

  lemma LE64Injective(m: u64, n: u64)
    requires ToLE(m, 8) == ToLE(n, 8)
    ensures m == n
  {
    U64Width();
    FromToLE(m, 8);
    FromToLE(n, 8);
  }

  /** Eight bytes read as `n` exactly when they are the encoding of `n`. */
  lemma LE64Iff(b: bytes, n: u64)
    requires |b| == 8
    ensures FromLE(b) == n <==> b == ToLE(n, 8)
  {
    U64Width();
    ToFromLE(b);
    FromToLE(n, 8);
  }

  /** The same for four bytes. */
  lemma LE32Iff(b: bytes, n: u32)
    requires |b| == 4
    ensures FromLE(b) == n <==> b == ToLE(n, 4)
  {
    assert Pow(256, 4) == U32_MAX + 1 by {
      assert Pow(256, 1) == 256 * Pow(256, 0);
      assert Pow(256, 2) == 256 * Pow(256, 1);
      assert Pow(256, 3) == 256 * Pow(256, 2);
    }
    ToFromLE(b);
    FromToLE(n, 4);
  }

  // ----- Byte-wise lexicographic order -----

  predicate Less(a: bytes, b: bytes)
  {
    && b != []
    && (a == [] || a[0] < b[0] || (a[0] == b[0] && Less(a[1..], b[1..])))
  }

  lemma {:induction false} LessIrreflexive(a: bytes)
    ensures !Less(a, a)
  {
    if a != [] { LessIrreflexive(a[1..]); }
  }

  lemma {:induction false} LessTransitive(a: bytes, b: bytes, c: bytes)
    requires Less(a, b) && Less(b, c)
    ensures Less(a, c)
  {
    if a != [] && a[0] == b[0] && b[0] == c[0] {
      LessTransitive(a[1..], b[1..], c[1..]);
    }
  }

  lemma {:induction false} LessTotal(a: bytes, b: bytes)
    ensures Less(a, b) || a == b || Less(b, a)
  {
    if a != [] && b != [] && a[0] == b[0] {
      LessTotal(a[1..], b[1..]);
      assert a == [a[0]] + a[1..] && b == [b[0]] + b[1..];
    }
  }

  lemma LessAsymmetric(a: bytes, b: bytes)
    requires Less(a, b)
    ensures !Less(b, a) && a != b
  {
    if Less(b, a) { LessTransitive(a, b, a); }
    LessIrreflexive(a);
  }

  /** Strings that differ inside an equally long prefix are ordered by that prefix. */
  lemma {:induction false} LessByPrefix(p: bytes, q: bytes, s: bytes, t: bytes)
    requires |p| == |q|
    ensures Less(p + s, q + t) <==> Less(p, q) || (p == q && Less(s, t))
  {
    if p == [] {
      assert p + s == s && q + t == t;
    } else {
      LessByPrefix(p[1..], q[1..], s, t);
      assert (p + s)[1..] == p[1..] + s && (q + t)[1..] == q[1..] + t;
      assert p == [p[0]] + p[1..] && q == [q[0]] + q[1..];
    }
  }

  // ----- Positional numerals, most significant digit first -----

  lemma LastByteOrder(p: bytes, q: bytes, x: byte, y: byte)
    requires |p| == |q|
    ensures Less(p + [x], q + [y]) <==> Less(p, q) || (p == q && x < y)
    ensures p + [x] == q + [y] <==> p == q && x == y
  {
    LessByPrefix(p, q, [x], [y]);
    assert (p + [x])[..|p|] == p && (q + [y])[..|q|] == q;
    assert (p + [x])[|p|] == x && (q + [y])[|q|] == y;
  }

  /** Big-endian encoding in `width` bytes. */
  function BigEndian(n: nat, width: nat): (b: bytes)
    ensures |b| == width
  {
    if width == 0 then [] else BigEndian(n / 256, width - 1) + [n % 256]
  }

  /** The byte order of equally wide big-endian numbers is the numeric order. */
  lemma {:induction false} BigEndianOrder(m: nat, n: nat, width: nat)
    requires m < Pow(256, width) && n < Pow(256, width)
    ensures Less(BigEndian(m, width), BigEndian(n, width)) <==> m < n
    ensures BigEndian(m, width) == BigEndian(n, width) <==> m == n
  {
    if width > 0 {
      BigEndianOrder(m / 256, n / 256, width - 1);
      LastByteOrder(BigEndian(m / 256, width - 1), BigEndian(n / 256, width - 1), m % 256, n % 256);
    }
  }

  /** Big-endian u64, as used in ordered database keys. */
  function BE64(n: u64): (b: bytes)
    ensures |b| == 8
  {
    BigEndian(n, 8)
  }

  /** The byte order of big-endian keys is the numeric order. */
  lemma BE64Order(m: u64, n: u64)
    ensures Less(BE64(m), BE64(n)) <==> m < n
    ensures BE64(m) == BE64(n) <==> m == n
  {
    U64Width();
    BigEndianOrder(m, n, 8);
  }

  // ----- Decimal text -----

  const ZERO: int := 48
  const COLON: byte := 58
  const MINUS: byte := 45

  /** ASCII decimal text of a natural number, without leading zeros. */
  function Decimal(n: nat): (b: bytes)
    ensures |b| >= 1
  {
    if n < 10 then [ZERO + n] else Decimal(n / 10) + [ZERO + n % 10]
  }

  /** ASCII decimal text of a signed number. */
  function SignedDecimal(n: int): bytes
  {
    if n < 0 then [MINUS] + Decimal(-n) else Decimal(n)
  }

  /** Decimal texts of one length are ordered like their numbers. */
  lemma {:induction false} DecimalOrder(m: nat, n: nat)
    requires |Decimal(m)| == |Decimal(n)|
    ensures Less(Decimal(m), Decimal(n)) <==> m < n
    ensures Decimal(m) == Decimal(n) <==> m == n
  {
    if m >= 10 && n >= 10 {
      DecimalOrder(m / 10, n / 10);
      LastByteOrder(Decimal(m / 10), Decimal(n / 10), ZERO + m % 10, ZERO + n % 10);
    } else {
      LastByteOrder([], [], ZERO + m % 10, ZERO + n % 10);
      assert [] + [ZERO + m % 10] == [ZERO + m % 10] && [] + [ZERO + n % 10] == [ZERO + n % 10];
    }
  }

  lemma DecimalInjective(m: nat, n: nat)
    requires Decimal(m) == Decimal(n)
    ensures m == n
  {
    DecimalOrder(m, n);
  }
}
