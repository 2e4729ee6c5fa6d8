/** Byte strings and the integer encodings that every wire format of the program is built from. */
module Bytes {
  type byte = b: int | 0 <= b < 256
  type bytes = seq<byte>

  const TWO_32: nat := 0x1_0000_0000
  const TWO_64: nat := 0x1_0000_0000_0000_0000

  type int8 = x: int | -128 <= x < 128
  type int64 = x: int | -0x8000_0000_0000_0000 <= x < 0x8000_0000_0000_0000
  type uint32 = x: nat | x < TWO_32
  type uint64 = x: nat | x < TWO_64

  datatype Option<+T> = None | Some(value: T)

  // ---------- unsigned varints ----------

  /** Base-128, least significant group first; the top bit of a byte says that another follows. */
  function PutUvarint(x: nat): (s: bytes)
    ensures s != []
  {
    if x < 128 then [x] else [x % 128 + 128] + PutUvarint(x / 128)
  }

  /** Reads a varint off the front of s: its value and length, or None when s ends too early or the
      value does not fit 64 bits. The argument i counts the bytes already read. */
  function Uvarint(s: bytes, i: nat := 0): (r: Option<(nat, nat)>)
    ensures r.Some? ==> 1 <= r.value.1 <= |s|
  {
    if s == [] || i > 9 then None
    else if s[0] < 128 then
      if i == 9 && s[0] > 1 then None else Some((s[0], 1))
    else
      match Uvarint(s[1..], i + 1)
      case None => None
      case Some((v, n)) => Some((s[0] - 128 + 128 * v, n + 1))
  }

  /** What a 64-bit value can still hold after i groups of seven bits. */
  function Room(i: nat): (r: nat)
    requires i <= 9
    decreases 9 - i
  {
    if i == 9 then 2 else 128 * Room(i + 1)
  }

  lemma RoomIs64Bits()
    ensures Room(0) == TWO_64
  {
    assert Room(8) == 256 && Room(7) == 0x8000;
    assert Room(6) == 0x40_0000 && Room(5) == 0x2000_0000;
    assert Room(4) == 0x10_0000_0000 && Room(3) == 0x800_0000_0000;
    assert Room(2) == 0x4_0000_0000_0000 && Room(1) == 0x200_0000_0000_0000;
  }

  lemma {:induction false} UvarintAfterPut(x: nat, rest: bytes, i: nat)
    requires i <= 9 && x < Room(i)
    ensures Uvarint(PutUvarint(x) + rest, i) == Some((x, |PutUvarint(x)|))
  {
    var s := PutUvarint(x) + rest;
    if x >= 128 {
      assert s[1..] == PutUvarint(x / 128) + rest;
      UvarintAfterPut(x / 128, rest, i + 1);
    }
  }

  /** What is read fits 64 bits. */
  lemma {:induction false} UvarintBound(s: bytes, i: nat)
    requires i <= 9 && Uvarint(s, i).Some?
    ensures Uvarint(s, i).value.0 < Room(i)
    decreases 9 - i
  {
    if s[0] < 128 {
      assert i < 9 ==> Room(i) >= 128 by { RoomPositive(i); }
    } else {
      UvarintBound(s[1..], i + 1);
    }
  }

  lemma {:induction false} RoomPositive(i: nat)
    requires i <= 9
    ensures Room(i) >= 2 && (i < 9 ==> Room(i) >= 128)
    decreases 9 - i
  {
    if i < 9 {
      RoomPositive(i + 1);
    }
  }

  /** A varint written for a 64-bit value is read back whatever follows it. */
  lemma UvarintRoundTrip(x: uint64, rest: bytes)
    ensures Uvarint(PutUvarint(x) + rest) == Some((x as nat, |PutUvarint(x)|))
  {
    RoomIs64Bits();
    UvarintAfterPut(x, rest, 0);
  }

  // ---------- signed (zigzag) varints ----------

  /** Two's complement: the unsigned reading of a signed 64-bit value. */
  function U64(x: int64): uint64 {
    if x < 0 then x + TWO_64 else x
  }

  function Zigzag(x: int64): uint64 {
    var ux := 2 * U64(x) % TWO_64;
    if x < 0 then TWO_64 - 1 - ux else ux
  }

  function UnZigzag(u: uint64): int64 {
    if u % 2 == 0 then u / 2 else -(u / 2) - 1
  }

  lemma ZigzagRoundTrip(x: int64)
    ensures UnZigzag(Zigzag(x)) == x
    ensures Zigzag(x) == if 0 <= x then 2 * x else -2 * x - 1
  {
    if x < 0 {
      assert 2 * U64(x) == 2 * x + TWO_64 + TWO_64;
      assert 2 * U64(x) % TWO_64 == 2 * x + TWO_64;
    }
  }

  function PutVarint(x: int64): (s: bytes)
    ensures s != []
  {
    PutUvarint(Zigzag(x))
  }

  /** A value read from the front of a byte string, with what is left. */
  datatype Parsed<+T> = Fail | Got(value: T, rest: bytes) {
    predicate IsFailure() { Fail? }
    function PropagateFailure<U>(): Parsed<U> requires Fail? { Fail }
    function Extract(): (T, bytes) requires Got? { (value, rest) }
  }

  function GetUvarint(s: bytes): (r: Parsed<nat>) {
    match Uvarint(s)
    case None => Fail
    case Some((v, n)) => Got(v, s[n..])
  }

  function GetVarint(s: bytes): (r: Parsed<int>) {
    match GetUvarint(s)
    case Fail => Fail
    case Got(u, rest) => if u < TWO_64 then Got(UnZigzag(u), rest) else Fail
  }

  lemma GetUvarintRoundTrip(x: uint64, rest: bytes)
    ensures GetUvarint(PutUvarint(x) + rest) == Got(x as nat, rest)
  {
    UvarintRoundTrip(x, rest);
  }

  lemma GetVarintRoundTrip(x: int64, rest: bytes)
    ensures GetVarint(PutVarint(x) + rest) == Got(x as int, rest)
  {
    ZigzagRoundTrip(x);
    GetUvarintRoundTrip(Zigzag(x), rest);
  }

  // ---------- length-prefixed strings ----------

  function PutBytes(b: bytes): (s: bytes)
    ensures s != []
  {
    PutUvarint(|b|) + b
  }

  function GetBytes(s: bytes): (r: Parsed<bytes>) {
    match GetUvarint(s)
    case Fail => Fail
    case Got(n, rest) => if n <= |rest| then Got(rest[..n], rest[n..]) else Fail
  }

  lemma GetBytesRoundTrip(b: bytes, rest: bytes)
    requires |b| < TWO_64
    ensures GetBytes(PutBytes(b) + rest) == Got(b, rest)
  {
    assert PutBytes(b) + rest == PutUvarint(|b|) + (b + rest);
    GetUvarintRoundTrip(|b|, b + rest);
    assert (b + rest)[..|b|] == b && (b + rest)[|b|..] == rest;
  }

  // ---------- fixed-width big-endian integers ----------

  function BigEndian(x: nat, width: nat): (s: bytes)
    ensures |s| == width
  {
    if width == 0 then [] else BigEndian(x / 256, width - 1) + [x % 256]
  }

  function FromBigEndian(s: bytes): nat {
    if s == [] then 0 else 256 * FromBigEndian(s[..|s| - 1]) + s[|s| - 1]
  }

  function Pow256(n: nat): nat {
    if n == 0 then 1 else 256 * Pow256(n - 1)
  }

  lemma {:induction false} BigEndianRoundTrip(x: nat, width: nat)
    requires x < Pow256(width)
    ensures FromBigEndian(BigEndian(x, width)) == x
  {
    if width > 0 {
      var s := BigEndian(x, width);
      assert s[..|s| - 1] == BigEndian(x / 256, width - 1);
      BigEndianRoundTrip(x / 256, width - 1);
    }
  }

  lemma Pow256Values()
    ensures Pow256(4) == TWO_32 && Pow256(8) == TWO_64
  {
    assert Pow256(2) == 0x1_0000;
    assert Pow256(6) == 0x1_0000_0000_0000;
  }

  // ---------- the order of byte strings ----------

  /** Lexicographic order, with a proper prefix first. */
  predicate Less(a: bytes, b: bytes) {
    if b == [] then false
    else if a == [] then true
    else a[0] < b[0] || (a[0] == b[0] && Less(a[1..], b[1..]))
  }

  lemma {:induction false} LessTotal(a: bytes, b: bytes)
    ensures Less(a, b) || a == b || Less(b, a)
  {
    if a != [] && b != [] && a[0] == b[0] {
      LessTotal(a[1..], b[1..]);
      assert a == [a[0]] + a[1..] && b == [b[0]] + b[1..];
    }
  }

  lemma {:induction false} LessIrreflexive(a: bytes)
    ensures !Less(a, a)
  {
    if a != [] {
      LessIrreflexive(a[1..]);
    }
  }

  lemma {:induction false} LessTransitive(a: bytes, b: bytes, c: bytes)
    requires Less(a, b) && Less(b, c)
    ensures Less(a, c)
  {
    if a != [] && a[0] == b[0] && b[0] == c[0] {
      LessTransitive(a[1..], b[1..], c[1..]);
    }
  }

  lemma LessAsymmetric(a: bytes, b: bytes)
    requires Less(a, b)
    ensures !Less(b, a) && a != b
  {
    if Less(b, a) {
      LessTransitive(a, b, a);
    }
    LessIrreflexive(a);
  }
}
