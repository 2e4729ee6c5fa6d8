/** Database keys, hash pre-images and stored bytes of IAVL nodes, and the reader of a node database. */
module IavlEncoding {
  import opened Bytes

  type Hash32 = h: bytes | |h| == 32 witness seq(32, _ => 0)

  /** SHA-256, of which only the length of the digest is known. */
  type Sha = bytes -> Hash32

  // ---------- keys ----------

  /** "s/k:<name>/" */
  function StorePrefix(name: bytes): bytes {
    [115, 47, 107, 58] + name + [47]
  }

  const TAG_NODE: byte := 115 // 's'
  const TAG_FAST: byte := 102 // 'f'
  const TAG_META: byte := 109 // 'm'

  function NodeId(version: int64, nonce: uint32): (s: bytes)
    ensures |s| == 12
  {
    BigEndian(U64(version), 8) + BigEndian(nonce, 4)
  }

  function NodeKey(prefix: bytes, version: int64, nonce: uint32): bytes {
    prefix + [TAG_NODE] + NodeId(version, nonce)
  }

  function FastKey(prefix: bytes, userKey: bytes): bytes {
    prefix + [TAG_FAST] + userKey
  }

  function MetaKey(prefix: bytes, name: bytes): bytes {
    prefix + [TAG_META] + name
  }

  lemma NodeIdInjective(v: int64, n: uint32, v': int64, n': uint32)
    requires NodeId(v, n) == NodeId(v', n')
    ensures v == v' && n == n'
  {
    Pow256Values();
    var a, b := NodeId(v, n), NodeId(v', n');
    assert a[..8] == BigEndian(U64(v), 8) && b[..8] == BigEndian(U64(v'), 8);
    assert a[8..] == BigEndian(n, 4) && b[8..] == BigEndian(n', 4);
    BigEndianRoundTrip(U64(v), 8);
    BigEndianRoundTrip(U64(v'), 8);
    BigEndianRoundTrip(n, 4);
    BigEndianRoundTrip(n', 4);
  }

  /** Two node keys of one store are equal only when version and nonce are. */
  lemma NodeKeyInjective(p: bytes, v: int64, n: uint32, v': int64, n': uint32)
    requires NodeKey(p, v, n) == NodeKey(p, v', n')
    ensures v == v' && n == n'
  {
    var a, b := NodeKey(p, v, n), NodeKey(p, v', n');
    assert a[|p| + 1..] == NodeId(v, n) && b[|p| + 1..] == NodeId(v', n');
    NodeIdInjective(v, n, v', n');
  }

  /** Node, fast-storage and metadata entries of one store never share a key. */
  lemma KeySpacesDisjoint(p: bytes, v: int64, n: uint32, k: bytes, m: bytes)
    ensures NodeKey(p, v, n) != FastKey(p, k)
    ensures NodeKey(p, v, n) != MetaKey(p, m)
    ensures FastKey(p, k) != MetaKey(p, m)
    ensures NodeKey(p, v, n)[|p|] == 115 && FastKey(p, k)[|p|] == 102 && MetaKey(p, m)[|p|] == 109
  {
    assert NodeKey(p, v, n)[|p|] == TAG_NODE;
    assert FastKey(p, k)[|p|] == TAG_FAST;
    assert MetaKey(p, m)[|p|] == TAG_META;
  }

  /** A node's key holds its version and then its nonce, both big-endian, so that keys sort by version. */
  lemma NodeKeyReads(p: bytes, v: int64, n: uint32)
    ensures var k := NodeKey(p, v, n);
            && |k| == |p| + 13 && k[..|p|] == p && k[|p|] == 115
            && FromBigEndian(k[|p| + 1..|p| + 9]) == U64(v) && FromBigEndian(k[|p| + 9..]) == n
  {
    Pow256Values();
    BigEndianRoundTrip(U64(v), 8);
    BigEndianRoundTrip(n, 4);
    var k := NodeKey(p, v, n);
    assert k[|p| + 1..|p| + 9] == BigEndian(U64(v), 8) && k[|p| + 9..] == BigEndian(n, 4);
  }

  lemma FastKeyInjective(p: bytes, k: bytes, k': bytes)
    requires FastKey(p, k) == FastKey(p, k')
    ensures k == k'
  {
    assert FastKey(p, k)[|p| + 1..] == k && FastKey(p, k')[|p| + 1..] == k';
  }

  // ---------- hashes ----------

  function LeafHash(sha: Sha, version: int64, key: bytes, value: bytes): Hash32 {
    sha(PutVarint(0) + PutVarint(1) + PutVarint(version) + PutBytes(key) + [32] + sha(value))
  }

  function InnerHash(sha: Sha, version: int64, height: int8, size: int64, left: Hash32, right: Hash32): Hash32 {
    sha(PutVarint(height) + PutVarint(size) + PutVarint(version) + [32] + left + [32] + right)
  }

  // ---------- stored nodes ----------

  function EncodeLeaf(key: bytes, value: bytes): bytes {
    PutVarint(0) + (PutVarint(1) + (PutBytes(key) + PutBytes(value)))
  }

  function EncodeInner(height: int8, size: int64, key: bytes, hash: Hash32,
                       leftVersion: int64, leftNonce: uint32,
                       rightVersion: int64, rightNonce: uint32): bytes {
    PutVarint(height) + (PutVarint(size) + (PutBytes(key) + ([32] + hash + (PutVarint(0) +
    (PutVarint(leftVersion) + (PutVarint(leftNonce) + (PutVarint(rightVersion) + PutVarint(rightNonce))))))))
  }

  /** A fast-storage entry: the version that wrote the value, then the value. */
  function EncodeFast(version: int64, value: bytes): bytes {
    PutVarint(version) + PutBytes(value)
  }

  lemma Assoc(a: bytes, b: bytes, c: bytes)
    ensures a + b + c == a + (b + c)
  {}

  method EncodeLeafNodeInto(buf: bytes, key: bytes, value: bytes) returns (out: bytes)
    ensures out == buf + EncodeLeaf(key, value)
  {
    var h, s, k, v := PutVarint(0), PutVarint(1), PutBytes(key), PutBytes(value);
    out := buf + h;
    out := out + s;
    out := out + k;
    out := out + v;
    Assoc(buf + h + s, k, v);
    Assoc(buf + h, s, k + v);
    Assoc(buf, h, s + (k + v));
  }

  method EncodeInnerNodeInto(buf: bytes, height: int8, size: int64, key: bytes, hash: Hash32,
                             leftVersion: int64, leftNonce: uint32,
                             rightVersion: int64, rightNonce: uint32) returns (out: bytes)
    ensures out == buf + EncodeInner(height, size, key, hash, leftVersion, leftNonce, rightVersion, rightNonce)
  {
    var h, s, k, d, m := PutVarint(height), PutVarint(size), PutBytes(key), [32] + hash, PutVarint(0);
    var lv, ln, rv, rn := PutVarint(leftVersion), PutVarint(leftNonce), PutVarint(rightVersion), PutVarint(rightNonce);
    out := buf + h + s + k + d;
    out := out + m;
    out := out + lv + ln;
    out := out + rv + rn;
    hide PutVarint, PutBytes;
    var p1, p2, p3, p4 := buf + h, buf + h + s, buf + h + s + k, buf + h + s + k + d;
    var p5, p6 := p4 + m, p4 + m + lv;
    var p7 := p6 + ln;
    Assoc(p7, rv, rn);
    var r7 := rv + rn;
    Assoc(p6, ln, r7);
    var r6 := ln + r7;
    Assoc(p5, lv, r6);
    var r5 := lv + r6;
    Assoc(p4, m, r5);
    var r4 := m + r5;
    Assoc(p3, d, r4);
    var r3 := d + r4;
    Assoc(p2, k, r3);
    var r2 := k + r3;
    Assoc(p1, s, r2);
    Assoc(buf, h, s + r2);
  }

  // ---------- the daemon's reader ----------

  datatype NodeRecord =
    | LeafRecord(leafKey: bytes, value: bytes)
    | InnerRecord(height: int, size: int, key: bytes, hash: bytes,
                  leftVersion: int, leftNonce: int, rightVersion: int, rightNonce: int)

  /** Decodes the stored bytes of a node: the two shapes differ in their height. */
  function DecodeNode(s: bytes): Parsed<NodeRecord> {
    var (height, s) :- GetVarint(s);
    var (size, s) :- GetVarint(s);
    var (key, s) :- GetBytes(s);
    if height == 0 then
      var (value, s) :- GetBytes(s);
      Got(LeafRecord(key, value), s)
    else
      var (hash, s) :- GetBytes(s);
      var (mode, s) :- GetVarint(s);
      if mode != 0 then Fail else
      var (lv, s) :- GetVarint(s);
      var (ln, s) :- GetVarint(s);
      var (rv, s) :- GetVarint(s);
      var (rn, s) :- GetVarint(s);
      Got(InnerRecord(height, size, key, hash, lv, ln, rv, rn), s)
  }

  lemma DecodeLeaf(key: bytes, value: bytes)
    requires |key| < TWO_64 && |value| < TWO_64
    ensures DecodeNode(EncodeLeaf(key, value)) == Got(LeafRecord(key, value), [])
  {
    GetVarintRoundTrip(0, PutVarint(1) + (PutBytes(key) + PutBytes(value)));
    GetVarintRoundTrip(1, PutBytes(key) + PutBytes(value));
    GetBytesRoundTrip(key, PutBytes(value));
    assert PutBytes(value) + [] == PutBytes(value);
    GetBytesRoundTrip(value, []);
  }

  lemma DecodeInner(height: int8, size: int64, key: bytes, hash: Hash32, lv: int64, ln: uint32, rv: int64, rn: uint32)
    requires |key| < TWO_64 && height != 0
    ensures DecodeNode(EncodeInner(height, size, key, hash, lv, ln, rv, rn))
         == Got(InnerRecord(height, size, key, hash, lv, ln, rv, rn), [])
  {
    hide GetVarint, GetBytes, PutVarint;
    var s8 := PutVarint(rn);
    var s7 := PutVarint(rv) + s8;
    var s6 := PutVarint(ln) + s7;
    var s5 := PutVarint(lv) + s6;
    var s4 := PutVarint(0) + s5;
    var s3 := [32] + hash + s4;
    var s2 := PutBytes(key) + s3;
    var s1 := PutVarint(size) + s2;
    GetVarintRoundTrip(height, s1);
    GetVarintRoundTrip(size, s2);
    GetBytesRoundTrip(key, s3);
    assert PutBytes(hash) == [32] + hash;
    GetBytesRoundTrip(hash, s4);
    GetVarintRoundTrip(0, s5);
    GetVarintRoundTrip(lv, s6);
    GetVarintRoundTrip(ln, s7);
    GetVarintRoundTrip(rv, s8);
    assert s8 + [] == s8;
    GetVarintRoundTrip(rn, []);
  }

  // ---------- reading what is hashed and what is cached ----------

  /** What the hash of a node covers: three integers, and two strings that depend on the kind of node. */
  datatype HashedNode = HashedNode(height: int, size: int, version: int, first: bytes, second: bytes)

  function ReadHashed(s: bytes): Parsed<HashedNode> {
    var (height, s) :- GetVarint(s);
    var (size, s) :- GetVarint(s);
    var (version, s) :- GetVarint(s);
    var (first, s) :- GetBytes(s);
    var (second, s) :- GetBytes(s);
    Got(HashedNode(height, size, version, first, second), s)
  }

  /** The hash is that of a string that reads as n, with nothing left over. */
  ghost predicate Covers(sha: Sha, hash: Hash32, n: HashedNode) {
    exists p :: hash == sha(p) && ReadHashed(p) == Got(n, [])
  }

  lemma HashedReads(height: int8, size: int64, version: int64, first: bytes, second: bytes)
    requires |first| < TWO_64 && |second| < TWO_64
    ensures var strings := PutBytes(first) + PutBytes(second);
            var p := PutVarint(height) + (PutVarint(size) + (PutVarint(version) + strings));
            ReadHashed(p) == Got(HashedNode(height, size, version, first, second), [])
  {
    hide GetVarint, GetBytes, PutVarint, PutBytes;
    var s4 := PutBytes(second);
    var s3 := PutBytes(first) + s4;
    var s2 := PutVarint(version) + s3;
    GetVarintRoundTrip(height, PutVarint(size) + s2);
    GetVarintRoundTrip(size, s2);
    GetVarintRoundTrip(version, s3);
    GetBytesRoundTrip(first, s4);
    assert s4 + [] == s4;
    GetBytesRoundTrip(second, []);
  }

  lemma HashField(hash: Hash32)
    ensures PutBytes(hash) == [32] + hash
  {}

  lemma Regroup(a: bytes, b: bytes, c: bytes, d: bytes, e: bytes, f: bytes)
    ensures a + b + c + d + e + f == a + (b + (c + (d + (e + f))))
  {
    Assoc(a + b + c + d, e, f);
    Assoc(a + b + c, d, e + f);
    Assoc(a + b, c, d + (e + f));
    Assoc(a, b, c + (d + (e + f)));
  }

  /** A leaf's hash covers height 0, size 1, the version, the key and the value's hash, in that order. */
  lemma LeafHashCovers(sha: Sha, version: int64, key: bytes, value: bytes)
    requires |key| < TWO_64
    ensures Covers(sha, LeafHash(sha, version, key, value), HashedNode(0, 1, version, key, sha(value)))
  {
    HashedReads(0, 1, version, key, sha(value));
    HashField(sha(value));
    hide PutVarint, PutBytes, ReadHashed;
    Regroup(PutVarint(0), PutVarint(1), PutVarint(version), PutBytes(key), [32], sha(value));
  }

  /** An inner node's hash covers its height, size and version, the left child's hash and then the right one's. */
  lemma InnerHashCovers(sha: Sha, version: int64, height: int8, size: int64, left: Hash32, right: Hash32)
    ensures Covers(sha, InnerHash(sha, version, height, size, left, right),
                   HashedNode(height, size, version, left, right))
  {
    HashedReads(height, size, version, left, right);
    HashField(left);
    HashField(right);
    hide PutVarint, PutBytes, ReadHashed;
    var header := PutVarint(height) + PutVarint(size) + PutVarint(version);
    Assoc(header, [32], left);
    Regroup(PutVarint(height), PutVarint(size), PutVarint(version), [32] + left, [32], right);
  }

  /** The daemon's reading of a fast-storage entry. */
  function ReadFast(s: bytes): Parsed<(int, bytes)> {
    var (version, s) :- GetVarint(s);
    var (value, s) :- GetBytes(s);
    Got((version, value), s)
  }

  lemma FastReads(version: int64, value: bytes)
    requires |value| < TWO_64
    ensures ReadFast(EncodeFast(version, value)) == Got((version as int, value), [])
  {
    hide GetVarint, GetBytes, PutVarint, PutBytes;
    GetVarintRoundTrip(version, PutBytes(value));
    assert PutBytes(value) + [] == PutBytes(value);
    GetBytesRoundTrip(value, []);
  }

  /** Stored nodes never start with the byte that marks a root redirect: a height is written as an even
      byte below 128, or as two bytes of which the first is at least 128. */
  lemma NodeBytesAreNoRedirect(height: int8, rest: bytes)
    requires 0 <= height
    ensures (PutVarint(height) + rest)[0] != TAG_NODE
  {
    ZigzagRoundTrip(height);
  }
}
