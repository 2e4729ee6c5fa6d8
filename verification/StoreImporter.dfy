/** The sequential importer of one store: a stack of frames, a one-entry nonce cache, and the last
    encoded node, kept in step with the forest that the stream describes. */
module StoreImporter {
  import opened Bytes
  import opened IavlEncoding
  import opened IavlTree

  /** The key-value database behind the set and setFast callbacks. */
  class Database {
    var entries: Entries
    ghost var log: seq<Write>  // the calls so far

    constructor ()
      ensures entries == map[] && log == []
    {
      entries, log := map[], [];
    }

    method Set(key: bytes, value: bytes)
      modifies this
      ensures entries == old(entries)[key := value] && log == old(log) + [(key, value)]
    {
      entries, log := entries[key := value], log + [(key, value)];
    }
  }

  /** The number of leaf items of a stream. */
  function LeafItems(s: Stream): (n: nat)
    ensures n <= Length(s)
  {
    if s.Start? then 0 else LeafItems(s.before) + if s.item.height == 0 then 1 else 0
  }

  /** What a parent needs to know about a completed subtree. */
  datatype Frame = Frame(hash: Hash32, size: int64, version: int64, nonce: uint32, height: int8)

  /** The frame of a tree whose root is the last item of s. */
  function FrameFor(sha: Sha, s: Stream, t: Tree): Frame
    requires s.Then?
  {
    Frame(RootHash(sha, t), Wrap64(Leaves(t)), t.version, Nonce(s), Height(t))
  }

  /** The frames describe the trees of the forest that s lists. */
  ghost predicate FramesMatch(sha: Sha, s: Stream, frames: seq<Frame>, f: Forest)
    decreases f
  {
    match f
    case Empty => frames == []
    case Snoc(rest, top) =>
      && s.Then?
      && frames != []
      && frames[|frames| - 1] == FrameFor(sha, s, top)
      && FramesMatch(sha, Drop(s, Nodes(top)), frames[..|frames| - 1], rest)
  }

  lemma {:induction false} FramesDepth(sha: Sha, s: Stream, frames: seq<Frame>, f: Forest)
    requires FramesMatch(sha, s, frames, f)
    ensures |frames| == Depth(f)
    decreases f
  {
    if f.Snoc? {
      FramesDepth(sha, Drop(s, Nodes(f.top)), frames[..|frames| - 1], f.rest);
    }
  }

  /** The frames and the last encoded node are those of the forest that the items list. */
  ghost predicate Describes(sha: Sha, s: Stream, frames: seq<Frame>, last: bytes) {
    && Parse(s).Some?
    && FramesMatch(sha, s, frames, Parse(s).value)
    && (s.Then? ==> last == NodeBytes(sha, s))
  }

  class Importer {
    const sha: Sha
    const prefix: bytes
    const height: int64

    var nonces: map<int, uint32>
    var nonceCacheVersion: int64   // 0 means the cache is empty
    var nonceCacheCounter: uint32
    var stack: seq<Frame>
    var lastIavlBytes: bytes
    var leafCount: nat
    var innerCount: nat

    ghost var done: Stream  // the items accepted so far

    function Counters(): Cache
      reads this`nonces, this`nonceCacheVersion, this`nonceCacheCounter
    {
      Cache(nonces, nonceCacheVersion, nonceCacheCounter)
    }

    ghost predicate Valid()
      reads this
    {
      && Describes(sha, done, stack, lastIavlBytes)
      && Counters() == CacheAfter(done)
      && leafCount == LeafItems(done) && innerCount == Length(done) - LeafItems(done)
    }

    constructor (sha: Sha, name: bytes, height: int64)
      ensures Valid() && done == Start
      ensures this.sha == sha && prefix == StorePrefix(name) && this.height == height
    {
      this.sha, this.prefix, this.height := sha, StorePrefix(name), height;
      nonces, nonceCacheVersion, nonceCacheCounter := map[], 0, 0;
      stack, lastIavlBytes, leafCount, innerCount, done := [], [], 0, 0, Start;
    }

    /** Hands out 2, 3, ... for each version; a version change flushes the cached counter to the map. */
    method NextNonce(version: int64) returns (nonce: uint32)
      modifies this`nonces, this`nonceCacheVersion, this`nonceCacheCounter
      ensures (Counters(), nonce) == Issue(old(Counters()), version)
    {
      if version != nonceCacheVersion {
        if nonceCacheVersion != 0 {
          nonces := nonces[nonceCacheVersion := nonceCacheCounter];
        }
        nonceCacheVersion := version;
        var cur: uint32 := if version in nonces then nonces[version] else 0;
        if cur == 0 {
          cur := 1;
        }
        nonceCacheCounter := cur;
      }
      nonceCacheCounter := (nonceCacheCounter + 1) % TWO_32;
      nonce := nonceCacheCounter;
    }

    predicate ClosesPairNow(h: int8)
      reads this
    {
      var n := |stack|;
      n >= 2 && stack[n - 1].height < h && stack[n - 2].height < h
    }

    lemma ClosesPairAgrees(h: int8)
      requires Describes(sha, done, stack, lastIavlBytes)
      ensures ClosesPairNow(h) == ClosesPair(Parse(done).value, h)
    {
      var f := Parse(done).value;
      FramesDepth(sha, done, stack, f);
      if f.Snoc? && f.rest.Snoc? {
        TopTwo(sha, done, stack, f);
      }
    }

    /** One post-order item. It is accepted exactly when the stream so far stays a listing of trees;
        a rejected item changes nothing, an accepted one adds the entries of that stream. */
    method AddNode(db: Database, x: ExportNode) returns (ok: bool)
      requires Valid()
      modifies this, db
      ensures Valid()
      ensures ok <==> Parse(Then(old(done), x)).Some?
      ensures done == if ok then Then(old(done), x) else old(done)
      ensures db.entries == if ok then Added(sha, prefix, done, old(db.entries)) else old(db.entries)
      ensures db.log == old(db.log) + if ok then ItemWrites(sha, prefix, done) else []
    {
      if x.height == 0 {
        AddLeaf(db, x);
        return true;
      }
      ClosesPairAgrees(x.height);
      if !ClosesPairNow(x.height) {
        assert db.log == db.log + [];
        return false;
      }
      AddInner(db, x);
      return true;
    }

    /** Pops the stack to the given depth, pushes a frame, and remembers the node's bytes. */
    method Replace(depth: nat, f: Frame, node: bytes, ghost x: ExportNode)
      requires depth <= |stack|
      modifies this`stack, this`lastIavlBytes, this`done
      ensures stack == old(stack)[..depth] + [f] && lastIavlBytes == node && done == Then(old(done), x)
    {
      stack := stack[..depth];
      stack := stack + [f];
      lastIavlBytes, done := node, Then(done, x);
    }

    method AddLeaf(db: Database, x: ExportNode)
      requires Valid() && x.height == 0
      modifies this, db
      ensures Valid() && done == Then(old(done), x)
      ensures db.entries == Added(sha, prefix, done, old(db.entries))
      ensures db.log == old(db.log) + ItemWrites(sha, prefix, done)
      ensures |stack| == |old(stack)| + 1
      ensures |x.key| < TWO_64 ==>
        Covers(sha, stack[|stack| - 1].hash, HashedNode(0, 1, x.version, x.key, sha(x.value)))
    {
      hide Covers, Describes, Issue, NodeBytes, NodeKey, FastKey, EncodeFast, EncodeLeaf, LeafHash, Nonce, CacheAfter;
      LeafCovers(x);
      LeafNow(x, db.entries);
      assert stack[..|stack|] == stack;
      var nonce := NextNonce(x.version);
      var h := LeafHash(sha, x.version, x.key, x.value);
      var node := EncodeLeafNodeInto([], x.key, x.value);
      assert node == EncodeLeaf(x.key, x.value);
      db.Set(NodeKey(prefix, x.version, nonce), node);
      db.Set(FastKey(prefix, x.key), EncodeFast(x.version, x.value));
      Replace(|stack|, Frame(h, 1, x.version, nonce, 0), node, x);
      leafCount := leafCount + 1;
    }

    /** What a leaf item adds. */
    lemma LeafNow(x: ExportNode, entries: Entries)
      requires Valid() && x.height == 0
      ensures var s := Then(done, x);
              && Describes(sha, s, stack + [LeafFrame(sha, done, x)], EncodeLeaf(x.key, x.value))
              && Parse(s).Some? && (Issue(Counters(), x.version) == (CacheAfter(s), Nonce(s)))
              && Added(sha, prefix, s, entries)
                 == entries[NodeKey(prefix, x.version, Nonce(s)) := EncodeLeaf(x.key, x.value)]
                           [FastKey(prefix, x.key) := EncodeFast(x.version, x.value)]
              && ItemWrites(sha, prefix, s) == [(NodeKey(prefix, x.version, Nonce(s)), EncodeLeaf(x.key, x.value)),
                                               (FastKey(prefix, x.key), EncodeFast(x.version, x.value))]
    {
      LeafStep(sha, done, stack, lastIavlBytes, x);
      hide Describes, NodeBytes, NodeKey, FastKey, EncodeFast, EncodeLeaf, LeafHash;
    }

    lemma LeafCovers(x: ExportNode)
      ensures |x.key| < TWO_64 ==>
        Covers(sha, LeafHash(sha, x.version, x.key, x.value), HashedNode(0, 1, x.version, x.key, sha(x.value)))
    {
      if |x.key| < TWO_64 {
        LeafHashCovers(sha, x.version, x.key, x.value);
      }
    }

    method AddInner(db: Database, x: ExportNode)
      requires Valid() && x.height != 0 && ClosesPairNow(x.height)
      modifies this, db
      ensures Valid() && done == Then(old(done), x)
      ensures db.entries == Added(sha, prefix, done, old(db.entries))
      ensures db.log == old(db.log) + ItemWrites(sha, prefix, done)
      ensures 1 <= |stack| == |old(stack)| - 1
      ensures var l, r, f := old(stack)[|stack| - 1], old(stack)[|stack|], stack[|stack| - 1];
              && f.size == Wrap64(l.size + r.size)
              && Covers(sha, f.hash, HashedNode(x.height, f.size, x.version, l.hash, r.hash))
    {
      hide Covers, ClosesPairNow, Describes, Issue, NodeKey, EncodeInner, InnerHash, InnerFrame, Parse, Added,
        ItemWrites;
      InnerStepNow(x, db.entries);
      var right := stack[|stack| - 1];
      var left := stack[|stack| - 2];
      var nonce := NextNonce(x.version);
      var f, node := Combine(x, left, right, nonce);
      db.Set(NodeKey(prefix, x.version, nonce), node);
      FrameCovers(x, left, right, nonce);
      Replace(|stack| - 2, f, node, x);
      innerCount := innerCount + 1;
    }

    lemma FrameCovers(x: ExportNode, l: Frame, r: Frame, nonce: uint32)
      ensures var f := InnerFrame(sha, x, l, r, nonce);
              && f.size == Wrap64(l.size + r.size)
              && Covers(sha, f.hash, HashedNode(x.height, f.size, x.version, l.hash, r.hash))
    {
      hide Covers, InnerHash, Wrap64;
      InnerHashCovers(sha, x.version, x.height, Wrap64(l.size + r.size), l.hash, r.hash);
    }

    lemma InnerStepNow(x: ExportNode, entries: Entries)
      requires Describes(sha, done, stack, lastIavlBytes)
      requires x.height != 0 && ClosesPairNow(x.height)
      ensures |stack| >= 2 && Parse(Then(done, x)).Some?
      ensures var l, r := stack[|stack| - 2], stack[|stack| - 1];
              var f := InnerFrame(sha, x, l, r, Nonce(Then(done, x)));
              var node := EncodeInner(x.height, f.size, x.key, f.hash, l.version, l.nonce, r.version, r.nonce);
              && Describes(sha, Then(done, x), stack[..|stack| - 2] + [f], node)
              && Added(sha, prefix, Then(done, x), entries)
                 == entries[NodeKey(prefix, x.version, Nonce(Then(done, x))) := node]
              && ItemWrites(sha, prefix, Then(done, x)) == [(NodeKey(prefix, x.version, Nonce(Then(done, x))), node)]
    {
      hide *;
      ClosesPairAgrees(x.height);
      InnerStep(sha, done, stack, lastIavlBytes, x);
      InnerAdded(sha, prefix, Then(done, x), entries);
    }

    /** The frame and the stored bytes of an inner item over two completed subtrees. */
    method Combine(x: ExportNode, left: Frame, right: Frame, nonce: uint32) returns (f: Frame, node: bytes)
      ensures f == InnerFrame(sha, x, left, right, nonce)
      ensures node == EncodeInner(x.height, f.size, x.key, f.hash, left.version, left.nonce, right.version, right.nonce)
    {
      hide EncodeInner, InnerHash, Wrap64;
      var size := Wrap64(left.size + right.size);
      var h := InnerHash(sha, x.version, x.height, size, left.hash, right.hash);
      f := Frame(h, size, x.version, nonce, x.height);
      node := EncodeInnerNodeInto([], x.height, size, x.key, h, left.version, left.nonce, right.version, right.nonce);
      assert [] + EncodeInner(x.height, size, x.key, h, left.version, left.nonce, right.version, right.nonce)
        == EncodeInner(x.height, size, x.key, h, left.version, left.nonce, right.version, right.nonce);
    }

    /** Writes the canonical root, the redirect and the marker, and returns the root hash; fails, writing
        nothing, when the stream has left more than one tree. */
    method Finalize(db: Database) returns (r: Option<Hash32>)
      requires Valid()
      modifies db
      ensures r.Some? <==> Depth(Parse(done).value) <= 1
      ensures match r
              case None => db.entries == old(db.entries)
              case Some(hash) =>
                if done.Start? then hash == sha([]) && db.entries == ClosedEmpty(prefix, height, old(db.entries))
                else && hash == RootHash(sha, TopTree(done))
                     && (ShortKeys(TopTree(done)) ==> MerkleRoot(sha, TopTree(done), hash))
                     && db.entries == Closed(prefix, height, done.item.version, NodeBytes(sha, done), old(db.entries))
      ensures db.log == old(db.log) + if r.Some? then FinishWrites(sha, prefix, height, done) else []
    {
      ghost var f := Parse(done).value;
      FramesDepth(sha, done, stack, f);
      RootIsLast(sha, done, stack);
      hide NodeBytes, NodeKey, MetaKey, Redirect, Decimal, RootHash, Parse, MerkleRoot, ShortKeys;
      if |stack| == 0 {
        db.Set(NodeKey(prefix, height, 1), []);
        WriteStorageVersionMarker(db);
        return Some(sha([]));
      }
      if |stack| != 1 {
        return None;
      }
      var root := stack[0];
      db.Set(NodeKey(prefix, root.version, 1), lastIavlBytes);
      if root.version != height {
        db.Set(NodeKey(prefix, height, 1), Redirect(root.version));
      }
      WriteStorageVersionMarker(db);
      if ShortKeys(TopTree(done)) {
        RootHashIsMerkle(sha, TopTree(done));
      }
      return Some(root.hash);
    }

    method WriteStorageVersionMarker(db: Database)
      modifies db
      ensures db.entries == Marked(prefix, height, old(db.entries))
      ensures db.log == old(db.log) + [MarkWrite(prefix, height)]
    {
      db.Set(MetaKey(prefix, STORAGE_VERSION), FAST_VERSION + Decimal(height));
    }
  }

  // ---------- what one item does to frames and bytes ----------

  /** When one frame is left it is the root of the last item. */
  lemma {:induction false} RootIsLast(sha: Sha, s: Stream, frames: seq<Frame>)
    requires Parse(s).Some? && FramesMatch(sha, s, frames, Parse(s).value)
    ensures |frames| == 1 ==>
      s.Then? && frames[0].version == s.item.version && frames[0].hash == RootHash(sha, TopTree(s))
    ensures |frames| == 0 ==> s.Start?
  {}

  /** The two frames and trees that an inner item would consume. */
  lemma {:induction false} TopTwo(sha: Sha, s: Stream, frames: seq<Frame>, f: Forest)
    requires FramesMatch(sha, s, frames, f) && f.Snoc? && f.rest.Snoc?
    ensures var n, below := |frames|, Drop(s, Nodes(f.top));
            && n >= 2 && s.Then? && below.Then?
            && frames[n - 1] == FrameFor(sha, s, f.top)
            && frames[n - 2] == FrameFor(sha, below, f.rest.top)
            && FramesMatch(sha, Drop(below, Nodes(f.rest.top)), frames[..n - 2], f.rest.rest)
  {
    hide FrameFor;
    var n, below := |frames|, Drop(s, Nodes(f.top));
    assert FramesMatch(sha, below, frames[..n - 1], f.rest);
    assert frames[..n - 1][..n - 2] == frames[..n - 2];
  }

  function LeafFrame(sha: Sha, before: Stream, x: ExportNode): Frame {
    Frame(LeafHash(sha, x.version, x.key, x.value), 1, x.version, Nonce(Then(before, x)), 0)
  }

  function InnerFrame(sha: Sha, x: ExportNode, l: Frame, r: Frame, nonce: uint32): Frame {
    var size := Wrap64(l.size + r.size);
    Frame(InnerHash(sha, x.version, x.height, size, l.hash, r.hash), size, x.version, nonce, x.height)
  }

  /** A leaf item pushes its own frame; its stored bytes are those of a one-leaf tree. */
  lemma {:induction false} LeafStep(sha: Sha, before: Stream, frames: seq<Frame>, last: bytes, x: ExportNode)
    requires Describes(sha, before, frames, last) && x.height == 0
    ensures Describes(sha, Then(before, x), frames + [LeafFrame(sha, before, x)], EncodeLeaf(x.key, x.value))
    ensures NodeBytes(sha, Then(before, x)) == EncodeLeaf(x.key, x.value)
  {
    LeafFrames(sha, before, frames, Parse(before).value, x);
    hide LeafFrame, FramesMatch, EncodeLeaf, Nonce;
  }

  lemma {:induction false} LeafFrames(sha: Sha, before: Stream, frames: seq<Frame>, f: Forest, x: ExportNode)
    requires FramesMatch(sha, before, frames, f)
    ensures FramesMatch(sha, Then(before, x), frames + [LeafFrame(sha, before, x)],
      Snoc(f, Leaf(x.version, x.key, x.value)))
  {
    var s, t := Then(before, x), Leaf(x.version, x.key, x.value);
    assert FrameFor(sha, s, t) == LeafFrame(sha, before, x) by {
      assert Leaves(t) == 1 && Wrap64(1) == 1;
      hide LeafHash, Nonce;
    }
    assert Drop(s, 1) == Drop(before, 0) == before;
    hide LeafFrame, FrameFor;
    assert (frames + [LeafFrame(sha, before, x)])[..|frames|] == frames;
  }

  lemma {:induction false} InnerAdded(sha: Sha, prefix: bytes, s: Stream, entries: Entries)
    requires s.Then? && Parse(s).Some? && s.item.height != 0
    ensures Added(sha, prefix, s, entries) == entries[NodeKey(prefix, s.item.version, Nonce(s)) := NodeBytes(sha, s)]
    ensures ItemWrites(sha, prefix, s) == [(NodeKey(prefix, s.item.version, Nonce(s)), NodeBytes(sha, s))]
  {
    hide NodeBytes, NodeKey, Nonce, Parse;
  }

  /** An inner item replaces the two top frames by one that sums and hashes them. */
  lemma {:induction false} InnerStep(sha: Sha, before: Stream, frames: seq<Frame>, last: bytes, x: ExportNode)
    requires Describes(sha, before, frames, last) && x.height != 0
    requires ClosesPair(Parse(before).value, x.height)
    ensures |frames| >= 2 && Parse(Then(before, x)).Some?
    ensures var l, r := frames[|frames| - 2], frames[|frames| - 1];
            var f := InnerFrame(sha, x, l, r, Nonce(Then(before, x)));
            var node := EncodeInner(x.height, f.size, x.key, f.hash, l.version, l.nonce, r.version, r.nonce);
            && Describes(sha, Then(before, x), frames[..|frames| - 2] + [f], node)
            && NodeBytes(sha, Then(before, x)) == node
  {
    hide Nonce, InnerHash, LeafHash, EncodeInner, EncodeLeaf, Wrap64;
    var n, f := |frames|, Parse(before).value;
    var s := Then(before, x);
    TopTwo(sha, before, frames, f);
    var l, r := frames[n - 2], frames[n - 1];
    var frame := InnerFrame(sha, x, l, r, Nonce(s));
    WrapAdds(Leaves(f.rest.top), Leaves(f.top));
    assert frame == FrameFor(sha, s, TopTree(s));
    DropDrop(before, Nodes(f.top), Nodes(f.rest.top));
    assert Drop(s, Nodes(TopTree(s))) == Drop(before, Nodes(f.top) + Nodes(f.rest.top));
    assert (frames[..n - 2] + [frame])[..n - 2] == frames[..n - 2];
    Children(s);
  }

  /** Signed 64-bit addition of two wrapped sums is the wrapped sum. */
  lemma WrapAdds(a: int, b: int)
    ensures Wrap64(Wrap64(a) + Wrap64(b)) == Wrap64(a + b)
  {
    var h := TWO_64 / 2;
    var qa, qb := (a + h) / TWO_64, (b + h) / TWO_64;
    assert Wrap64(a) == a - TWO_64 * qa && Wrap64(b) == b - TWO_64 * qb;
    WrapShift(a + b, qa + qb);
  }

  lemma WrapShift(x: int, q: int)
    ensures Wrap64(x - TWO_64 * q) == Wrap64(x)
  {
    var h := TWO_64 / 2;
    var d := (x + h) / TWO_64;
    var r := (x + h) % TWO_64;
    assert x - TWO_64 * q + h == TWO_64 * (d - q) + r;
    ModUnique(TWO_64 * (d - q) + r, d - q, r);
  }

  lemma ModUnique(x: int, q: int, r: int)
    requires x == TWO_64 * q + r && 0 <= r < TWO_64
    ensures x % TWO_64 == r
  {}
}
