/** The protobuf subset of snapshot items and diff records: length-delimited and varint fields, found by a
    scan from the front. */
module Proto {
  import opened Bytes

  function BytesField(field: nat, b: bytes): bytes
    requires 1 <= field < 16
  {
    [8 * field + 2] + PutBytes(b)
  }

  function VarintField(field: nat, v: uint64): bytes
    requires 1 <= field < 16
  {
    [8 * field] + PutUvarint(v)
  }

  /** A message that holds one sub-message, under the field number tag. */
  function OneOf(tag: nat, inner: bytes): bytes
    requires 1 <= tag < 16
  {
    [8 * tag + 2] + PutBytes(inner)
  }

  /** What follows a field whose tag byte has been read; fails on a malformed field or another wire type. */
  function SkipField(tag: byte, s: bytes): (r: Parsed<()>)
    ensures r.Got? ==> |r.rest| <= |s|
  {
    if tag % 8 == 0 then
      match GetUvarint(s)
      case Fail => Fail
      case Got(_, rest) => Got((), rest)
    else if tag % 8 == 2 then
      match GetBytes(s)
      case Fail => Fail
      case Got(_, rest) => Got((), rest)
    else Fail
  }

  /** The first length-delimited field of that number; empty when absent or unreadable. */
  function FindBytes(s: bytes, field: nat): bytes
    decreases |s|
  {
    if s == [] then []
    else if s[0] == 8 * field + 2 then
      match GetBytes(s[1..])
      case Fail => []
      case Got(b, _) => b
    else
      match SkipField(s[0], s[1..])
      case Fail => []
      case Got(_, rest) => FindBytes(rest, field)
  }

  /** The first varint field of that number; 0 when absent or unreadable. */
  function FindVarint(s: bytes, field: nat): nat
    decreases |s|
  {
    if s == [] then 0
    else if s[0] == 8 * field then
      match GetUvarint(s[1..])
      case Fail => 0
      case Got(v, _) => v
    else
      match SkipField(s[0], s[1..])
      case Fail => 0
      case Got(_, rest) => FindVarint(rest, field)
  }

  lemma SkipBytesField(field: nat, b: bytes, rest: bytes)
    requires 1 <= field < 16 && |b| < TWO_64
    ensures var s := BytesField(field, b) + rest; s[0] == 8 * field + 2 && GetBytes(s[1..]) == Got(b, rest)
    ensures var s := BytesField(field, b) + rest; SkipField(s[0], s[1..]) == Got((), rest)
  {
    hide GetBytes, PutBytes;
    var s := BytesField(field, b) + rest;
    GetBytesRoundTrip(b, rest);
    assert s[1..] == PutBytes(b) + rest;
  }

  lemma SkipVarintField(field: nat, v: uint64, rest: bytes)
    requires 1 <= field < 16
    ensures var s := VarintField(field, v) + rest; s[0] == 8 * field && GetUvarint(s[1..]) == Got(v as nat, rest)
    ensures var s := VarintField(field, v) + rest; SkipField(s[0], s[1..]) == Got((), rest)
  {
    hide GetUvarint, PutUvarint;
    var s := VarintField(field, v) + rest;
    GetUvarintRoundTrip(v, rest);
    assert s[1..] == PutUvarint(v) + rest;
  }

  lemma FindFirst(field: nat, b: bytes, rest: bytes)
    requires 1 <= field < 16 && |b| < TWO_64
    ensures FindBytes(BytesField(field, b) + rest, field) == b
  {
    SkipBytesField(field, b, rest);
  }

  lemma FindLater(field: nat, b: bytes, rest: bytes, other: nat)
    requires 1 <= field < 16 && other != field && |b| < TWO_64
    ensures FindBytes(BytesField(field, b) + rest, other) == FindBytes(rest, other)
    ensures FindVarint(BytesField(field, b) + rest, other) == FindVarint(rest, other)
  {
    SkipBytesField(field, b, rest);
  }

  lemma FindVarintFirst(field: nat, v: uint64, rest: bytes)
    requires 1 <= field < 16
    ensures FindVarint(VarintField(field, v) + rest, field) == v
  {
    SkipVarintField(field, v, rest);
  }

  // ---------- IAVL items ----------

  /** A snapshot's IAVL item: key, value, version and height; zero fields are left out by proto3 encoders. */
  function ItemRecord(key: bytes, value: bytes, version: uint64, height: uint64): bytes {
    BytesField(1, key) + (BytesField(2, value) + (VarintField(3, version) + VarintField(4, height)))
  }

  /** A leaf has height 0 or no readable height at all. */
  predicate IsLeafRecord(s: bytes)
    decreases |s|
  {
    if s == [] then true
    else if s[0] == 0x20 then
      match GetUvarint(s[1..])
      case Fail => true
      case Got(v, _) => v == 0
    else
      match SkipField(s[0], s[1..])
      case Fail => true
      case Got(_, rest) => IsLeafRecord(rest)
  }

  /** The differ's parser: the last key and the last value field before the record ends or breaks. */
  function ScanKeyValue(s: bytes, kv: (bytes, bytes) := ([], [])): (bytes, bytes)
    decreases |s|
  {
    if s == [] then kv
    else if s[0] == 0x0A || s[0] == 0x12 then
      match GetBytes(s[1..])
      case Fail => kv
      case Got(b, rest) => ScanKeyValue(rest, if s[0] == 0x0A then (b, kv.1) else (kv.0, b))
    else
      match SkipField(s[0], s[1..])
      case Fail => kv
      case Got(_, rest) => ScanKeyValue(rest, kv)
  }

  /** The applier's reading of an item. */
  function Key(rec: bytes): bytes { FindBytes(rec, 1) }
  function Value(rec: bytes): bytes { FindBytes(rec, 2) }

  /** Differ and applier read the same key and value. */
  predicate Sound(rec: bytes) {
    ScanKeyValue(rec) == (Key(rec), Value(rec))
  }

  lemma ScanBytes(field: nat, b: bytes, rest: bytes, kv: (bytes, bytes))
    requires field in {1, 2} && |b| < TWO_64
    ensures ScanKeyValue(BytesField(field, b) + rest, kv)
      == ScanKeyValue(rest, if field == 1 then (b, kv.1) else (kv.0, b))
    ensures IsLeafRecord(BytesField(field, b) + rest) == IsLeafRecord(rest)
  {
    SkipBytesField(field, b, rest);
    hide GetBytes, PutBytes, SkipField;
  }

  lemma ScanVarint(field: nat, v: uint64, rest: bytes, kv: (bytes, bytes))
    requires field in {3, 4}
    ensures ScanKeyValue(VarintField(field, v) + rest, kv) == ScanKeyValue(rest, kv)
    ensures IsLeafRecord(VarintField(field, v) + rest) == if field == 4 then v == 0 else IsLeafRecord(rest)
  {
    SkipVarintField(field, v, rest);
    hide GetUvarint, PutUvarint, SkipField;
  }

  /** They do on every item that an encoder writes. */
  lemma ItemsAreSound(key: bytes, value: bytes, version: uint64, height: uint64)
    requires |key| < TWO_64 && |value| < TWO_64
    ensures var r := ItemRecord(key, value, version, height);
            Sound(r) && Key(r) == key && Value(r) == value && (IsLeafRecord(r) <==> height == 0)
  {
    hide BytesField, VarintField, FindBytes, ScanKeyValue, IsLeafRecord;
    var r4 := VarintField(4, height);
    var r3 := VarintField(3, version) + r4;
    var r2 := BytesField(2, value) + r3;
    FindFirst(1, key, r2);
    FindLater(1, key, r2, 2);
    FindFirst(2, value, r3);
    ScanBytes(1, key, r2, ([], []));
    ScanBytes(2, value, r3, (key, []));
    ScanVarint(3, version, r4, (key, value));
    ScanVarint(4, height, [], (key, value));
    assert r4 + [] == r4;
    ScanEnds((key, value));
  }

  lemma ScanEnds(kv: (bytes, bytes))
    ensures ScanKeyValue([], kv) == kv && IsLeafRecord([])
  {}
}
