/** The meaning of an export stream: the forest of IAVL trees that it lists in post-order,
    their hashes, and the database entries that an import of the stream must leave. */
module IavlTree {
  import opened Bytes
  import opened IavlEncoding

  /** One IAVL item of a snapshot; height 0 marks a leaf, and the value of an inner item is ignored. */
  datatype ExportNode = ExportNode(height: int8, version: int64, key: bytes, value: bytes)

  /** The items read so far, the latest outermost. */
  datatype Stream = Start | Then(before: Stream, item: ExportNode)

  function Length(s: Stream): nat {
    if s.Start? then 0 else Length(s.before) + 1
  }

  /** The stream without its last n items. */
  function Drop(s: Stream, n: nat): Stream {
    if n == 0 || s.Start? then s else Drop(s.before, n - 1)
  }

  function Append(s: Stream, t: Stream): Stream {
    if t.Start? then s else Then(Append(s, t.before), t.item)
  }

  predicate IsPrefix(p: Stream, s: Stream) {
    p == s || (s.Then? && IsPrefix(p, s.before))
  }

  function FromSeq(items: seq<ExportNode>): Stream {
    if items == [] then Start else Then(FromSeq(items[..|items| - 1]), items[|items| - 1])
  }

  // ---------- trees ----------

  datatype Tree =
    | Leaf(version: int64, key: bytes, value: bytes)
    | Inner(h: int8, version: int64, key: bytes, left: Tree, right: Tree)

  function Height(t: Tree): int8 {
    if t.Leaf? then 0 else t.h
  }

  function Leaves(t: Tree): (n: nat)
    ensures 1 <= n
  {
    if t.Leaf? then 1 else Leaves(t.left) + Leaves(t.right)
  }

  function Nodes(t: Tree): (n: nat)
    ensures 1 <= n
  {
    if t.Leaf? then 1 else Nodes(t.left) + Nodes(t.right) + 1
  }

  /** Every inner node is strictly higher than both its children. */
  predicate Descending(t: Tree) {
    t.Inner? ==>
      && Height(t.left) < t.h && Height(t.right) < t.h
      && Descending(t.left) && Descending(t.right)
  }

  /** The post-order listing of a tree, after the items of s. */
  function Postorder(s: Stream, t: Tree): Stream
    decreases t
  {
    match t
    case Leaf(v, k, x) => Then(s, ExportNode(0, v, k, x))
    case Inner(h, v, k, l, r) => Then(Postorder(Postorder(s, l), r), ExportNode(h, v, k, []))
  }

  /** Completed subtrees that no inner item has consumed yet, the latest on top. */
  datatype Forest = Empty | Snoc(rest: Forest, top: Tree)

  function Listing(f: Forest): Stream {
    if f.Empty? then Start else Postorder(Listing(f.rest), f.top)
  }

  function Depth(f: Forest): nat {
    if f.Empty? then 0 else Depth(f.rest) + 1
  }

  predicate AllDescending(f: Forest) {
    f.Snoc? ==> Descending(f.top) && AllDescending(f.rest)
  }

  /** The stream without the value fields that inner items carry. */
  function Blank(s: Stream): Stream {
    if s.Start? then Start
    else Then(Blank(s.before), if s.item.height == 0 then s.item else s.item.(value := []))
  }

  // ---------- the stack discipline ----------

  predicate ClosesPair(f: Forest, height: int8) {
    f.Snoc? && f.rest.Snoc? && Height(f.top) < height && Height(f.rest.top) < height
  }

  /** The completed subtrees after one more item, or None for an inner item that closes no pair. */
  function Push(f: Forest, x: ExportNode): (r: Option<Forest>)
    ensures r.Some? ==> r.value.Snoc?
  {
    if x.height == 0 then Some(Snoc(f, Leaf(x.version, x.key, x.value)))
    else if ClosesPair(f, x.height) then
      Some(Snoc(f.rest.rest, Inner(x.height, x.version, x.key, f.rest.top, f.top)))
    else None
  }

  function Parse(s: Stream): (r: Option<Forest>)
    ensures r.Some? ==> (s.Then? <==> r.value.Snoc?)
  {
    match s
    case Start => Some(Empty)
    case Then(before, x) =>
      match Parse(before)
      case None => None
      case Some(f) => Push(f, x)
  }

  /** The tree whose root is the last item. */
  function TopTree(s: Stream): Tree
    requires s.Then? && Parse(s).Some?
  {
    Parse(s).value.top
  }

  /** Below the top tree lies the forest of the items before that tree's first one. */
  lemma {:induction false} ParseBelowTop(s: Stream)
    requires Parse(s).Some? && s.Then?
    ensures Parse(Drop(s, Nodes(TopTree(s)))) == Some(Parse(s).value.rest)
    decreases Length(s)
  {
    if s.item.height == 0 {
      assert Drop(s, 1) == Drop(s.before, 0);
    } else {
      var g := Parse(s.before).value;
      ParseBelowTop(s.before);
      var m := Drop(s.before, Nodes(g.top));
      DropShorter(s.before, Nodes(g.top));
      ParseBelowTop(m);
      DropDrop(s.before, Nodes(g.top), Nodes(g.rest.top));
    }
  }

  lemma {:induction false} DropShorter(s: Stream, n: nat)
    ensures Length(Drop(s, n)) <= Length(s)
    ensures IsPrefix(Drop(s, n), s)
  {
    if n > 0 && s.Then? {
      DropShorter(s.before, n - 1);
    }
  }

  lemma {:induction false} DropDrop(s: Stream, m: nat, n: nat)
    ensures Drop(Drop(s, m), n) == Drop(s, m + n)
  {
    if s.Start? {
    } else if m > 0 {
      DropDrop(s.before, m - 1, n);
    }
  }

  /** The stream up to and including the root of the last item's left child. */
  function LeftPart(s: Stream): Stream
    requires s.Then? && Parse(s).Some? && s.item.height != 0
  {
    Drop(s.before, Nodes(TopTree(s).right))
  }

  /** The children of an inner item are the top trees of the stream before it and of its left part. */
  lemma Children(s: Stream)
    requires s.Then? && Parse(s).Some? && s.item.height != 0
    ensures TopTree(s).Inner?
    ensures var r := s.before;
            r.Then? && Parse(r).Some? && TopTree(s).right == TopTree(r)
    ensures var l := LeftPart(s);
            l.Then? && Parse(l).Some? && TopTree(s).left == TopTree(l)
  {
    ParseBelowTop(s.before);
  }

  // ---------- nonces ----------

  /** The nonce counters behind their one-entry cache; a cached version of 0 means that the cache is empty. */
  datatype Cache = Cache(nonces: map<int, uint32>, version: int64, counter: uint32)

  /** The next nonce of a version, and the cache after handing it out. */
  function Issue(c: Cache, version: int64): (r: (Cache, uint32)) {
    var flushed := if version != c.version && c.version != 0 then c.nonces[c.version := c.counter] else c.nonces;
    var kept := if version in flushed && flushed[version] != 0 then flushed[version] else 1;
    var counter := ((if version == c.version then c.counter else kept) + 1) % TWO_32;
    (Cache(flushed, version, counter), counter)
  }

  function CacheAfter(s: Stream): Cache {
    if s.Start? then Cache(map[], 0, 0) else Issue(CacheAfter(s.before), s.item.version).0
  }

  /** The nonce that the last item is handed. */
  function Nonce(s: Stream): uint32
    requires s.Then?
  {
    Issue(CacheAfter(s.before), s.item.version).1
  }

  /** No earlier item of that version was given that nonce. */
  predicate Unused(s: Stream, version: int64, nonce: uint32) {
    s.Then? ==> (s.item.version == version ==> Nonce(s) != nonce) && Unused(s.before, version, nonce)
  }

  /** Every item has its own version and nonce, and none has the root's nonce 1. */
  predicate Distinct(s: Stream) {
    s.Then? ==> Nonce(s) >= 2 && Unused(s.before, s.item.version, Nonce(s)) && Distinct(s.before)
  }

  lemma {:induction false} UnusedBefore(p: Stream, s: Stream, version: int64, nonce: uint32)
    requires p.Then? && IsPrefix(p, s) && Unused(s, version, nonce)
    ensures p.item.version == version ==> Nonce(p) != nonce
  {
    hide Nonce;
    if p != s {
      UnusedBefore(p, s.before, version, nonce);
    }
  }

  /** No two nodes share a version and a nonce, and no node has the root's nonce 1. */
  lemma {:induction false} NoncesUnique(p: Stream, s: Stream)
    requires s.Then? && p.Then? && IsPrefix(p, s.before) && Distinct(s)
    ensures 2 <= Nonce(p) && 2 <= Nonce(s)
    ensures p.item.version == s.item.version ==> Nonce(p) != Nonce(s)
  {
    hide Nonce;
    DistinctPrefix(p, s);
    UnusedBefore(p, s.before, s.item.version, Nonce(s));
  }

  lemma {:induction false} DistinctPrefix(p: Stream, s: Stream)
    requires IsPrefix(p, s) && Distinct(s)
    ensures Distinct(p)
  {
    hide Nonce;
    if p != s {
      DistinctPrefix(p, s.before);
    }
  }

  // ---------- hashes and stored bytes ----------

  /** Signed 64-bit wrap-around. */
  function Wrap64(x: int): int64 {
    (x + TWO_64 / 2) % TWO_64 - TWO_64 / 2
  }

  /** It changes nothing that fits 64 bits, and is exact modulo 2^64. */
  lemma WrapIs(x: int)
    ensures -0x8000_0000_0000_0000 <= x < 0x8000_0000_0000_0000 ==> Wrap64(x) == x
    ensures exists q :: Wrap64(x) == x + TWO_64 * q
  {
    var h := TWO_64 / 2;
    assert Wrap64(x) == x + TWO_64 * -((x + h) / TWO_64);
  }

  function RootHash(sha: Sha, t: Tree): Hash32 {
    match t
    case Leaf(v, k, x) => LeafHash(sha, v, k, x)
    case Inner(h, v, _, l, r) => InnerHash(sha, v, h, Wrap64(Leaves(t)), RootHash(sha, l), RootHash(sha, r))
  }

  /** A hash of the tree: at every inner node it covers height, number of leaves, version and the hashes of the left and
      the right subtree, and at a leaf version, key and the value's hash. */
  ghost predicate MerkleRoot(sha: Sha, t: Tree, hash: Hash32) {
    match t
    case Leaf(v, k, x) => Covers(sha, hash, HashedNode(0, 1, v, k, sha(x)))
    case Inner(h, v, _, l, r) =>
      exists a: Hash32, b: Hash32 ::
        MerkleRoot(sha, l, a) && MerkleRoot(sha, r, b) && Covers(sha, hash, HashedNode(h, Wrap64(Leaves(t)), v, a, b))
  }

  predicate ShortKeys(t: Tree) {
    if t.Leaf? then |t.key| < TWO_64 else ShortKeys(t.left) && ShortKeys(t.right)
  }

  lemma {:induction false} RootHashIsMerkle(sha: Sha, t: Tree)
    requires ShortKeys(t)
    ensures MerkleRoot(sha, t, RootHash(sha, t))
  {
    hide Covers, LeafHash, InnerHash, Wrap64;
    match t {
      case Leaf(v, k, x) =>
        LeafHashCovers(sha, v, k, x);
      case Inner(h, v, _, l, r) =>
        RootHashIsMerkle(sha, l);
        RootHashIsMerkle(sha, r);
        InnerHashCovers(sha, v, h, Wrap64(Leaves(t)), RootHash(sha, l), RootHash(sha, r));
    }
  }

  /** The stored bytes of a tree's root, given the nonces of its children. */
  function RootBytes(sha: Sha, t: Tree, leftNonce: uint32, rightNonce: uint32): bytes {
    match t
    case Leaf(_, key, value) => EncodeLeaf(key, value)
    case Inner(h, _, key, l, r) =>
      EncodeInner(h, Wrap64(Leaves(t)), key, RootHash(sha, t), l.version, leftNonce, r.version, rightNonce)
  }

  function LeftNonce(s: Stream): uint32
    requires s.Then? && Parse(s).Some?
  {
    if s.item.height == 0 then 0 else Children(s); Nonce(LeftPart(s))
  }

  function RightNonce(s: Stream): uint32
    requires s.Then? && Parse(s).Some?
  {
    if s.item.height == 0 then 0 else Children(s); Nonce(s.before)
  }

  /** The stored bytes of the last item. */
  function NodeBytes(sha: Sha, s: Stream): bytes
    requires s.Then? && Parse(s).Some?
  {
    RootBytes(sha, TopTree(s), LeftNonce(s), RightNonce(s))
  }

  /** The database key of the last item. */
  function KeyOf(prefix: bytes, s: Stream): bytes
    requires s.Then?
  {
    NodeKey(prefix, s.item.version, Nonce(s))
  }

  // ---------- the entries of an import ----------

  type Entries = map<bytes, bytes>

  function FastEntry(prefix: bytes, x: ExportNode, db: Entries): Entries {
    if x.height == 0 then db[FastKey(prefix, x.key) := EncodeFast(x.version, x.value)] else db
  }

  /** A database after the entries of the last item are written to it. */
  function Added(sha: Sha, prefix: bytes, s: Stream, db: Entries): Entries
    requires s.Then? && Parse(s).Some?
  {
    FastEntry(prefix, s.item, db[KeyOf(prefix, s) := NodeBytes(sha, s)])
  }

  /** A database after a whole stream, item by item. */
  function Imported(sha: Sha, prefix: bytes, s: Stream, db: Entries): Entries
    requires Parse(s).Some?
  {
    if s.Start? then db else Added(sha, prefix, s, Imported(sha, prefix, s.before, db))
  }

  /** One call of set or setFast: a key and its value. */
  type Write = (bytes, bytes)

  /** The calls that the last item makes, in order. */
  function ItemWrites(sha: Sha, prefix: bytes, s: Stream): seq<Write>
    requires s.Then? && Parse(s).Some?
  {
    [(KeyOf(prefix, s), NodeBytes(sha, s))] +
    if s.item.height == 0 then [(FastKey(prefix, s.item.key), EncodeFast(s.item.version, s.item.value))] else []
  }

  function ImportWrites(sha: Sha, prefix: bytes, s: Stream): seq<Write>
    requires Parse(s).Some?
  {
    if s.Start? then [] else ImportWrites(sha, prefix, s.before) + ItemWrites(sha, prefix, s)
  }

  function Digits(n: nat): bytes {
    if n < 10 then [48 + n] else Digits(n / 10) + [48 + n % 10]
  }

  /** Decimal, as the fast-storage marker and the commit-info key print a version. */
  function Decimal(x: int): bytes {
    if x < 0 then [45] + Digits(-x) else Digits(x)
  }

  /** The number that decimal digits write. */
  function FromDigits(s: bytes): nat {
    if s == [] then 0 else 10 * FromDigits(s[..|s| - 1]) + if s[|s| - 1] < 48 then 0 else s[|s| - 1] - 48
  }

  function FromDecimal(s: bytes): int {
    if s != [] && s[0] == 45 then 0 - FromDigits(s[1..]) else FromDigits(s)
  }

  predicate IsDigit(b: byte) { 48 <= b < 58 }

  /** Digits are the decimal digits of the number, without leading zeros. */
  lemma {:induction false} DigitsRead(n: nat)
    ensures FromDigits(Digits(n)) == n && Digits(n) != [] && (Digits(n)[0] == 48 ==> n == 0)
    ensures forall b :: b in Digits(n) ==> IsDigit(b)
  {
    if n < 10 {
      assert [48 + n][..0] == [];
    } else {
      DigitsRead(n / 10);
      assert Digits(n)[..|Digits(n)| - 1] == Digits(n / 10);
    }
  }

  lemma DecimalReads(x: int)
    ensures FromDecimal(Decimal(x)) == x && Decimal(x) != []
  {
    DigitsRead(if x < 0 then -x else x);
    hide Digits, FromDigits;
    if x < 0 {
      assert Decimal(x)[1..] == Digits(-x);
    } else {
      assert IsDigit(Digits(x)[0]);
    }
  }

  const STORAGE_VERSION: bytes := [115, 116, 111, 114, 97, 103, 101, 95, 118, 101, 114, 115, 105, 111, 110]
  const FAST_VERSION: bytes := [49, 46, 49, 46, 48, 45]

  function Marked(prefix: bytes, height: int64, db: Entries): Entries {
    db[MetaKey(prefix, STORAGE_VERSION) := FAST_VERSION + Decimal(height)]
  }

  function Redirect(version: int64): bytes {
    [TAG_NODE] + NodeId(version, 1)
  }

  /** What closing a store adds: the canonical root, a redirect when the root is older than the snapshot,
      and the fast-storage marker. */
  function Closed(prefix: bytes, height: int64, rootVersion: int64, rootBytes: bytes, db: Entries): Entries {
    var db := db[NodeKey(prefix, rootVersion, 1) := rootBytes];
    var db := if rootVersion == height then db else db[NodeKey(prefix, height, 1) := Redirect(rootVersion)];
    Marked(prefix, height, db)
  }

  function ClosedEmpty(prefix: bytes, height: int64, db: Entries): Entries {
    Marked(prefix, height, db[NodeKey(prefix, height, 1) := []])
  }

  /** The calls that closing a store makes. */
  function CloseWrites(prefix: bytes, height: int64, rootVersion: int64, rootBytes: bytes): seq<Write> {
    [(NodeKey(prefix, rootVersion, 1), rootBytes)] +
    (if rootVersion == height then [] else [(NodeKey(prefix, height, 1), Redirect(rootVersion))]) +
    [MarkWrite(prefix, height)]
  }

  function MarkWrite(prefix: bytes, height: int64): Write {
    (MetaKey(prefix, STORAGE_VERSION), FAST_VERSION + Decimal(height))
  }

  function FinishWrites(sha: Sha, prefix: bytes, height: int64, s: Stream): seq<Write>
    requires Parse(s).Some?
  {
    if s.Start? then [(NodeKey(prefix, height, 1), []), MarkWrite(prefix, height)]
    else CloseWrites(prefix, height, s.item.version, NodeBytes(sha, s))
  }

  /** All calls for a store, from its first item to its marker. */
  function StoreWrites(sha: Sha, prefix: bytes, height: int64, s: Stream): seq<Write>
    requires Parse(s).Some?
  {
    ImportWrites(sha, prefix, s) + FinishWrites(sha, prefix, height, s)
  }

  /** A database after calls in that order. */
  function Apply(db: Entries, ws: seq<Write>): Entries
    decreases |ws|
  {
    if ws == [] then db else Apply(db[ws[0].0 := ws[0].1], ws[1..])
  }

  lemma {:induction false} ApplyConcat(db: Entries, a: seq<Write>, b: seq<Write>)
    ensures Apply(db, a + b) == Apply(Apply(db, a), b)
    decreases |a|
  {
    if a == [] {
      assert a + b == b;
    } else {
      assert (a + b)[0] == a[0] && (a + b)[1..] == a[1..] + b;
      ApplyConcat(db[a[0].0 := a[0].1], a[1..], b);
    }
  }

  lemma {:induction false} ImportApplies(sha: Sha, prefix: bytes, s: Stream, db: Entries)
    requires Parse(s).Some?
    ensures Apply(db, ImportWrites(sha, prefix, s)) == Imported(sha, prefix, s, db)
  {
    hide KeyOf, NodeBytes, FastKey, EncodeFast;
    if s.Then? {
      var d := Imported(sha, prefix, s.before, db);
      ImportApplies(sha, prefix, s.before, db);
      ApplyConcat(db, ImportWrites(sha, prefix, s.before), ItemWrites(sha, prefix, s));
      ApplyTwo(d, (KeyOf(prefix, s), NodeBytes(sha, s)),
        (FastKey(prefix, s.item.key), EncodeFast(s.item.version, s.item.value)));
    }
  }

  lemma ApplyTwo(db: Entries, a: Write, b: Write)
    ensures Apply(db, [a]) == db[a.0 := a.1] && Apply(db, [a] + []) == db[a.0 := a.1]
    ensures Apply(db, [a] + [b]) == Apply(db, [a, b]) == db[a.0 := a.1][b.0 := b.1]
  {
    assert [a] + [] == [a] && [a] + [b] == [a, b] && [a, b][1..] == [b] && [a][1..] == [] && [b][1..] == [];
    var d := db[a.0 := a.1];
    assert Apply(d, []) == d && Apply(d[b.0 := b.1], []) == d[b.0 := b.1];
    assert Apply(d, [b]) == d[b.0 := b.1];
  }

  /** The calls for a store, made in order, leave the database of the finished store. */
  lemma StoreApplies(sha: Sha, prefix: bytes, height: int64, s: Stream, db: Entries)
    requires Finished(sha, prefix, height, s, db).Some?
    ensures Parse(s).Some?
    ensures Apply(db, StoreWrites(sha, prefix, height, s)) == Finished(sha, prefix, height, s, db).value.1
  {
    ImportApplies(sha, prefix, s, db);
    ApplyConcat(db, ImportWrites(sha, prefix, s), FinishWrites(sha, prefix, height, s));
    hide ImportWrites, Imported, NodeKey, MetaKey, NodeBytes, Decimal, Redirect, RootHash;
    var d := Imported(sha, prefix, s, db);
    var mark := MarkWrite(prefix, height);
    if s.Start? {
      ApplyTwo(d, (NodeKey(prefix, height, 1), []), mark);
    } else {
      var root := (NodeKey(prefix, s.item.version, 1), NodeBytes(sha, s));
      var redirect := (NodeKey(prefix, height, 1), Redirect(s.item.version));
      ApplyTwo(d, root, mark);
      ApplyTwo(d, root, redirect);
      ApplyTwo(d[root.0 := root.1][redirect.0 := redirect.1], mark, mark);
      ApplyConcat(d, [root] + [redirect], [mark]);
      assert [root] + [] + [mark] == [root] + [mark];
    }
  }

  /** The hash and the database of a finished store, or None when its stream is no single tree. */
  function Finished(sha: Sha, prefix: bytes, height: int64, s: Stream, db: Entries): Option<(Hash32, Entries)> {
    match Parse(s)
    case None => None
    case Some(Empty) => Some((sha([]), ClosedEmpty(prefix, height, db)))
    case Some(Snoc(Empty, t)) =>
      Some((RootHash(sha, t), Closed(prefix, height, s.item.version, NodeBytes(sha, s), Imported(sha, prefix, s, db))))
    case Some(Snoc(_, _)) => None
  }
}
