/** What an import means to the daemon that opens the database: every accepted stream lists exactly one
    forest, and reading the written entries gives that forest's tree back. */
module ReadBack {
  import opened Bytes
  import opened IavlEncoding
  import opened IavlTree

  // ---------- the stack machine parses post-order listings ----------

  lemma {:induction false} DescendingIsPositive(t: Tree)
    requires Descending(t)
    ensures 0 <= Height(t) && (t.Inner? ==> 1 <= t.h)
  {
    if t.Inner? {
      DescendingIsPositive(t.left);
    }
  }

  /** Listing a tree after an accepted stream is accepted, and leaves that tree on top. */
  lemma {:induction false} PostorderParses(s: Stream, t: Tree)
    requires Parse(s).Some? && Descending(t)
    ensures Parse(Postorder(s, t)) == Some(Snoc(Parse(s).value, t))
    decreases t
  {
    if t.Inner? {
      DescendingIsPositive(t);
      PostorderParses(s, t.left);
      PostorderParses(Postorder(s, t.left), t.right);
    }
  }

  lemma {:induction false} ListingParses(f: Forest)
    requires AllDescending(f)
    ensures Parse(Listing(f)) == Some(f)
  {
    if f.Snoc? {
      ListingParses(f.rest);
      PostorderParses(Listing(f.rest), f.top);
    }
  }

  /** An accepted stream is the listing of the forest it leaves. */
  lemma {:induction false} ParsePrints(s: Stream)
    requires Parse(s).Some?
    ensures Listing(Parse(s).value) == Blank(s)
    ensures AllDescending(Parse(s).value)
  {
    if s.Then? {
      ParsePrints(s.before);
    }
  }

  lemma {:induction false} BlankParses(s: Stream)
    ensures Parse(Blank(s)) == Parse(s)
  {
    if s.Then? {
      BlankParses(s.before);
    }
  }

  /** A stream leaves a forest exactly when that forest's trees descend and the stream lists them. */
  lemma ParseIffListing(s: Stream, f: Forest)
    ensures Parse(s) == Some(f) <==> AllDescending(f) && Blank(s) == Listing(f)
  {
    if Parse(s) == Some(f) {
      ParsePrints(s);
    }
    if AllDescending(f) && Blank(s) == Listing(f) {
      ListingParses(f);
      BlankParses(s);
    }
  }

  /** The single-store form: one tree is left exactly by its post-order listing, so the tree is unique. */
  lemma OneTreeIffPostorder(s: Stream, t: Tree)
    ensures Parse(s) == Some(Snoc(Empty, t)) <==> Descending(t) && Blank(s) == Postorder(Start, t)
  {
    ParseIffListing(s, Snoc(Empty, t));
  }

  // ---------- looking entries up ----------

  /** Every item of s is stored under its own key. */
  ghost predicate Holds(sha: Sha, prefix: bytes, s: Stream, db: Entries)
    requires Parse(s).Some?
  {
    s.Then? ==>
      && KeyOf(prefix, s) in db && db[KeyOf(prefix, s)] == NodeBytes(sha, s)
      && Holds(sha, prefix, s.before, db)
  }

  /** A write under any other key leaves the entries of s alone. */
  lemma {:induction false} HoldsAfterWrite(sha: Sha, prefix: bytes, s: Stream, db: Entries, key: bytes, value: bytes)
    requires Parse(s).Some? && Holds(sha, prefix, s, db)
    requires forall p: Stream :: p.Then? && IsPrefix(p, s) ==> KeyOf(prefix, p) != key
    ensures Holds(sha, prefix, s, db[key := value])
  {
    if s.Then? {
      assert IsPrefix(s, s);
      forall p: Stream | p.Then? && IsPrefix(p, s.before) ensures KeyOf(prefix, p) != key {
        assert IsPrefix(p, s);
      }
      hide KeyOf, NodeBytes;
      HoldsAfterWrite(sha, prefix, s.before, db, key, value);
    }
  }

  lemma EarlierKeysDiffer(prefix: bytes, p: Stream, s: Stream)
    requires s.Then? && p.Then? && IsPrefix(p, s.before) && Distinct(s)
    ensures KeyOf(prefix, p) != KeyOf(prefix, s)
  {
    NoncesUnique(p, s);
    hide NodeKey, Nonce;
    if KeyOf(prefix, p) == KeyOf(prefix, s) {
      NodeKeyInjective(prefix, p.item.version, Nonce(p), s.item.version, Nonce(s));
    }
  }

  lemma {:induction false} ImportHolds(sha: Sha, prefix: bytes, s: Stream, db: Entries)
    requires Parse(s).Some? && Distinct(s)
    ensures Holds(sha, prefix, s, Imported(sha, prefix, s, db))
  {
    if s.Then? {
      var d := Imported(sha, prefix, s.before, db);
      ImportHolds(sha, prefix, s.before, db);
      forall p: Stream | p.Then? && IsPrefix(p, s.before) ensures KeyOf(prefix, p) != KeyOf(prefix, s) {
        EarlierKeysDiffer(prefix, p, s);
      }
      HoldsAfterWrite(sha, prefix, s.before, d, KeyOf(prefix, s), NodeBytes(sha, s));
      var e := d[KeyOf(prefix, s) := NodeBytes(sha, s)];
      assert Holds(sha, prefix, s, e) by {
        hide KeyOf, NodeBytes, Imported;
      }
      if s.item.height == 0 {
        HoldsAfterFast(sha, prefix, s, e, s.item);
      }
      hide Holds, KeyOf, NodeBytes;
    }
  }

  lemma HoldsAfterFast(sha: Sha, prefix: bytes, s: Stream, db: Entries, x: ExportNode)
    requires Parse(s).Some? && Holds(sha, prefix, s, db)
    ensures Holds(sha, prefix, s, FastEntry(prefix, x, db))
  {
    forall p: Stream | p.Then? && IsPrefix(p, s) ensures KeyOf(prefix, p) != FastKey(prefix, x.key) {
      KeySpacesDisjoint(prefix, p.item.version, Nonce(p), x.key, []);
    }
    HoldsAfterWrite(sha, prefix, s, db, FastKey(prefix, x.key), EncodeFast(x.version, x.value));
  }

  /** Closing a store writes only under nonce 1 and the metadata key. */
  lemma HoldsAfterClose(sha: Sha, prefix: bytes, height: int64, s: Stream, root: bytes, db: Entries)
    requires Parse(s).Some? && Distinct(s) && s.Then? && Holds(sha, prefix, s, db)
    ensures Holds(sha, prefix, s, Closed(prefix, height, s.item.version, root, db))
  {
    forall p: Stream, v: int64 | p.Then? && IsPrefix(p, s) ensures KeyOf(prefix, p) != NodeKey(prefix, v, 1) {
      NotRootKey(prefix, p, s, v);
    }
    forall p: Stream | p.Then? && IsPrefix(p, s) ensures KeyOf(prefix, p) != MetaKey(prefix, STORAGE_VERSION) {
      KeySpacesDisjoint(prefix, p.item.version, Nonce(p), [], STORAGE_VERSION);
    }
    var d := db[NodeKey(prefix, s.item.version, 1) := root];
    HoldsAfterWrite(sha, prefix, s, db, NodeKey(prefix, s.item.version, 1), root);
    var e := if s.item.version == height then d else d[NodeKey(prefix, height, 1) := Redirect(s.item.version)];
    if s.item.version != height {
      HoldsAfterWrite(sha, prefix, s, d, NodeKey(prefix, height, 1), Redirect(s.item.version));
    }
    HoldsAfterWrite(sha, prefix, s, e, MetaKey(prefix, STORAGE_VERSION), FAST_VERSION + Decimal(height));
    hide Holds, NodeKey, MetaKey, Redirect, Decimal;
  }

  lemma NotRootKey(prefix: bytes, p: Stream, s: Stream, v: int64)
    requires p.Then? && IsPrefix(p, s) && Distinct(s)
    ensures KeyOf(prefix, p) != NodeKey(prefix, v, 1)
  {
    assert 2 <= Nonce(p) by {
      DistinctPrefix(p, s);
    }
    hide NodeKey, Nonce, Distinct, IsPrefix;
    if KeyOf(prefix, p) == NodeKey(prefix, v, 1) {
      NodeKeyInjective(prefix, p.item.version, Nonce(p), v, 1);
    }
  }

  lemma {:induction false} HoldsPrefix(sha: Sha, prefix: bytes, p: Stream, s: Stream, db: Entries)
    requires Parse(s).Some? && IsPrefix(p, s) && Holds(sha, prefix, s, db)
    ensures Parse(p).Some? && Holds(sha, prefix, p, db)
  {
    if p != s {
      HoldsPrefix(sha, prefix, p, s.before, db);
    }
  }

  // ---------- reading a tree ----------

  /** The tree below a node whose stored bytes and version are known, following children by version and
      nonce for at most fuel levels. */
  function ReadBytes(db: Entries, prefix: bytes, node: bytes, version: int64, fuel: nat): Option<Tree>
    decreases fuel, 0
  {
    match DecodeNode(node)
    case Fail => None
    case Got(LeafRecord(key, value), rest) => if rest == [] then Some(Leaf(version, key, value)) else None
    case Got(InnerRecord(h, _, key, _, lv, ln, rv, rn), rest) =>
      if rest != [] || fuel == 0 || !(-128 <= h < 128) then None else
      (match (ReadNode(db, prefix, lv, ln, fuel - 1), ReadNode(db, prefix, rv, rn, fuel - 1))
       case (Some(l), Some(r)) => Some(Inner(h, version, key, l, r))
       case _ => None)
  }

  function ReadNode(db: Entries, prefix: bytes, version: int, nonce: int, fuel: nat): Option<Tree>
    decreases fuel, 1
  {
    if -0x8000_0000_0000_0000 <= version < 0x8000_0000_0000_0000 && 0 <= nonce < TWO_32
       && NodeKey(prefix, version, nonce) in db
    then ReadBytes(db, prefix, db[NodeKey(prefix, version, nonce)], version, fuel)
    else None
  }

  /** The keys and values of a stream are shorter than 2^64 bytes, as every byte string in memory is. */
  predicate Storable(s: Stream) {
    s.Then? ==> |s.item.key| < TWO_64 && |s.item.value| < TWO_64 && Storable(s.before)
  }

  lemma {:induction false} StorablePrefix(p: Stream, s: Stream)
    requires IsPrefix(p, s) && Storable(s)
    ensures Storable(p)
  {
    if p != s {
      StorablePrefix(p, s.before);
    }
  }

  /** Reading the stored bytes of the last item gives its tree. */
  lemma {:induction false} ReadsTopTree(sha: Sha, prefix: bytes, s: Stream, db: Entries, fuel: nat)
    requires s.Then? && Parse(s).Some? && Storable(s)
    requires Holds(sha, prefix, s.before, db) && Nodes(TopTree(s)) <= fuel
    ensures ReadBytes(db, prefix, NodeBytes(sha, s), s.item.version, fuel) == Some(TopTree(s))
    decreases Length(s), 1
  {
    if s.item.height == 0 {
      DecodeLeaf(s.item.key, s.item.value);
    } else {
      ReadsChildren(sha, prefix, s, db, fuel);
      InnerRecordOf(sha, s);
      hide *;
      var t := TopTree(s);
      ReadsRecord(db, prefix, NodeBytes(sha, s), s.item.version, fuel, t, Nonce(LeftPart(s)), Nonce(s.before));
    }
  }

  /** One level of reading. */
  lemma ReadsRecord(db: Entries, prefix: bytes, node: bytes, version: int64, fuel: nat, t: Tree, ln: uint32, rn: uint32)
    requires t.Inner? && fuel > 0 && version == t.version
    requires var d := DecodeNode(node);
             && d.Got? && d.rest == [] && d.value.InnerRecord?
             && d.value == InnerRecord(t.h, d.value.size, t.key, d.value.hash, t.left.version, ln, t.right.version, rn)
    requires ReadNode(db, prefix, t.left.version, ln, fuel - 1) == Some(t.left)
    requires ReadNode(db, prefix, t.right.version, rn, fuel - 1) == Some(t.right)
    ensures ReadBytes(db, prefix, node, version, fuel) == Some(t)
  {
    hide DecodeNode, ReadNode;
  }

  lemma ChildStreams(s: Stream)
    requires s.Then? && Parse(s).Some? && s.item.height != 0
    ensures var t, l, r := TopTree(s), LeftPart(s), s.before;
            && t.Inner? && Nodes(t.left) < Nodes(t) && Nodes(t.right) < Nodes(t)
            && IsPrefix(l, r) && IsPrefix(r, s) && Length(l) < Length(s) && Length(r) < Length(s)
            && l.Then? && Parse(l).Some? && TopTree(l) == t.left && l.item.version == t.left.version
            && r.Then? && Parse(r).Some? && TopTree(r) == t.right && r.item.version == t.right.version
  {
    Children(s);
    DropShorter(s.before, Nodes(TopTree(s).right));
    RootVersion(LeftPart(s));
    RootVersion(s.before);
    hide Parse, Drop;
  }

  lemma {:induction false} ReadsChildren(sha: Sha, prefix: bytes, s: Stream, db: Entries, fuel: nat)
    requires s.Then? && Parse(s).Some? && Storable(s) && s.item.height != 0
    requires Holds(sha, prefix, s.before, db) && Nodes(TopTree(s)) <= fuel
    ensures fuel > 0 && TopTree(s).Inner? && LeftPart(s).Then? && s.before.Then?
    ensures var t := TopTree(s);
            && ReadNode(db, prefix, t.left.version, Nonce(LeftPart(s)), fuel - 1) == Some(t.left)
            && ReadNode(db, prefix, t.right.version, Nonce(s.before), fuel - 1) == Some(t.right)
    decreases Length(s), 0
  {
    hide *;
    ChildStreams(s);
    var l, r := LeftPart(s), s.before;
    StorablePrefix(r, s);
    StorablePrefix(l, r);
    HoldsPrefix(sha, prefix, l, r, db);
    ReadsStored(sha, prefix, l, db, fuel - 1);
    ReadsStored(sha, prefix, r, db, fuel - 1);
  }

  lemma {:induction false} ReadsStored(sha: Sha, prefix: bytes, s: Stream, db: Entries, fuel: nat)
    requires s.Then? && Parse(s).Some? && Storable(s)
    requires Holds(sha, prefix, s, db) && Nodes(TopTree(s)) <= fuel
    ensures ReadNode(db, prefix, s.item.version, Nonce(s), fuel) == Some(TopTree(s))
    decreases Length(s), 2
  {
    ReadsTopTree(sha, prefix, s, db, fuel);
    hide ReadBytes, NodeBytes, NodeKey, Nonce, Parse;
  }

  lemma RootVersion(s: Stream)
    requires s.Then? && Parse(s).Some?
    ensures TopTree(s).version == s.item.version
  {}

  /** What the daemon decodes from the bytes of an inner item. */
  lemma InnerRecordOf(sha: Sha, s: Stream)
    requires s.Then? && Parse(s).Some? && s.item.height != 0 && |s.item.key| < TWO_64
    ensures var t, l := TopTree(s), LeftPart(s);
            && t.Inner? && l.Then? && s.before.Then?
            && t.version == s.item.version && t.h == s.item.height && t.key == s.item.key
            && DecodeNode(NodeBytes(sha, s)) == Got(InnerRecord(t.h, Wrap64(Leaves(t)), t.key, RootHash(sha, t),
                 t.left.version, Nonce(l), t.right.version, Nonce(s.before)), [])
  {
    var t := TopTree(s);
    Children(s);
    hide DecodeNode, EncodeInner, RootHash, Nonce;
    DecodeInner(t.h, Wrap64(Leaves(t)), t.key, RootHash(sha, t), t.left.version, LeftNonce(s), t.right.version,
      RightNonce(s));
  }

  // ---------- loading a store ----------

  datatype Loaded = NoRoot | EmptyStore | Found(t: Tree)

  function Signed64(u: nat): int {
    if u < TWO_64 / 2 then u else u - TWO_64
  }

  /** Finds the root of the version a daemon asks for, follows a redirect if that is what it finds,
      and reads the tree. */
  function LoadVersion(db: Entries, prefix: bytes, height: int64, fuel: nat): Loaded {
    var key := NodeKey(prefix, height, 1);
    if key !in db then NoRoot
    else if db[key] == [] then EmptyStore
    else
      var found :=
        if db[key][0] == TAG_NODE && |db[key]| == 13 then
          ReadNode(db, prefix, Signed64(FromBigEndian(db[key][1..9])), FromBigEndian(db[key][9..13]), fuel)
        else ReadBytes(db, prefix, db[key], height, fuel);
      if found.Some? then Found(found.value) else NoRoot
  }

  lemma RedirectRoundTrip(v: int64)
    ensures var r := Redirect(v);
            && |r| == 13 && r[0] == TAG_NODE
            && Signed64(FromBigEndian(r[1..9])) == v && FromBigEndian(r[9..13]) == 1
  {
    var r := Redirect(v);
    Pow256Values();
    assert r[1..9] == BigEndian(U64(v), 8);
    assert r[9..13] == BigEndian(1, 4);
    BigEndianRoundTrip(U64(v), 8);
    BigEndianRoundTrip(1, 4);
  }

  lemma RootIsNoRedirect(sha: Sha, s: Stream)
    requires s.Then? && Parse(s).Some?
    ensures NodeBytes(sha, s) != [] && NodeBytes(sha, s)[0] != TAG_NODE
  {
    var t := TopTree(s);
    ParsePrints(s);
    DescendingIsPositive(t);
    match t
    case Leaf(_, k, v) =>
      NodeBytesAreNoRedirect(0, PutVarint(1) + (PutBytes(k) + PutBytes(v)));
    case Inner(h, _, k, l, r) =>
      var rest := PutVarint(Wrap64(Leaves(t))) + (PutBytes(k) + ([32] + RootHash(sha, t) + (PutVarint(0) +
        (PutVarint(l.version) + (PutVarint(LeftNonce(s)) + (PutVarint(r.version) + PutVarint(RightNonce(s))))))));
      assert NodeBytes(sha, s) == PutVarint(h) + rest by {
        hide PutVarint, PutBytes, LeftNonce, RightNonce, RootHash;
      }
      NodeBytesAreNoRedirect(h, rest);
  }

  /** What the three keys that closing writes hold afterwards. */
  lemma RootEntries(prefix: bytes, height: int64, v: int64, root: bytes, db: Entries)
    ensures var d := Closed(prefix, height, v, root, db);
            && NodeKey(prefix, v, 1) in d && d[NodeKey(prefix, v, 1)] == root
            && NodeKey(prefix, height, 1) in d
            && (v != height ==> d[NodeKey(prefix, height, 1)] == Redirect(v))
  {
    KeySpacesDisjoint(prefix, v, 1, [], STORAGE_VERSION);
    KeySpacesDisjoint(prefix, height, 1, [], STORAGE_VERSION);
    hide NodeKey, MetaKey, Redirect, Decimal;
    if v != height && NodeKey(prefix, v, 1) == NodeKey(prefix, height, 1) {
      NodeKeyInjective(prefix, v, 1, height, 1);
    }
  }

  /** The main round trip: whatever the database held before, loading the snapshot height of a finished
      store yields exactly the tree that its stream lists. */
  lemma StoreReadsBack(sha: Sha, prefix: bytes, height: int64, s: Stream, db: Entries, fuel: nat)
    requires s.Then? && Parse(s).Some? && Parse(s).value.rest == Empty && Distinct(s) && Storable(s)
    requires Nodes(TopTree(s)) <= fuel
    ensures Finished(sha, prefix, height, s, db).Some?
    ensures LoadVersion(Finished(sha, prefix, height, s, db).value.1, prefix, height, fuel) == Found(TopTree(s))
  {
    var v, root := s.item.version, NodeBytes(sha, s);
    var d := Imported(sha, prefix, s, db);
    var e := Closed(prefix, height, v, root, d);
    ImportHolds(sha, prefix, s, db);
    HoldsAfterClose(sha, prefix, height, s, root, d);
    HoldsPrefix(sha, prefix, s.before, s, e);
    RootEntries(prefix, height, v, root, d);
    ReadsTopTree(sha, prefix, s, e, fuel);
    RootIsNoRedirect(sha, s);
    RedirectRoundTrip(v);
    hide Closed, NodeKey, ReadBytes, Redirect, NodeBytes, Imported, Holds, Signed64, FromBigEndian;
  }

  lemma EmptyReadsBack(sha: Sha, prefix: bytes, height: int64, db: Entries, fuel: nat)
    ensures Finished(sha, prefix, height, Start, db).Some?
    ensures LoadVersion(Finished(sha, prefix, height, Start, db).value.1, prefix, height, fuel) == EmptyStore
  {
    KeySpacesDisjoint(prefix, height, 1, [], STORAGE_VERSION);
    hide NodeKey, MetaKey, Decimal;
  }

  /** The marker under the metadata key names the storage version and the height. */
  lemma MarkerReads(prefix: bytes, height: int64, db: Entries)
    ensures var d, k := Marked(prefix, height, db), MetaKey(prefix, STORAGE_VERSION);
            && k in d && |d[k]| > 6 && d[k][..6] == [49, 46, 49, 46, 48, 45] && FromDecimal(d[k][6..]) == height
  {
    hide MetaKey, Decimal, FromDecimal;
    DecimalReads(height);
    var v := FAST_VERSION + Decimal(height);
    assert v[..6] == FAST_VERSION && v[6..] == Decimal(height);
  }

  // ---------- fast storage ----------

  /** The latest leaf of a user key. */
  function LatestLeaf(s: Stream, key: bytes): Option<ExportNode> {
    if s.Start? then None
    else if s.item.height == 0 && s.item.key == key then Some(s.item)
    else LatestLeaf(s.before, key)
  }

  /** The fast entry of a user key is that of its latest leaf, or what was there before the import. */
  lemma {:induction false} FastEntryIsLatest(sha: Sha, prefix: bytes, s: Stream, db: Entries, key: bytes)
    requires Parse(s).Some?
    ensures var d, k := Imported(sha, prefix, s, db), FastKey(prefix, key);
            match LatestLeaf(s, key)
            case Some(x) => k in d && d[k] == EncodeFast(x.version, x.value)
            case None => (k in d <==> k in db) && (k in d ==> d[k] == db[k])
  {
    if s.Then? {
      FastEntryIsLatest(sha, prefix, s.before, db, key);
      KeySpacesDisjoint(prefix, s.item.version, Nonce(s), key, []);
      if FastKey(prefix, key) == FastKey(prefix, s.item.key) {
        FastKeyInjective(prefix, key, s.item.key);
      }
      hide NodeKey, FastKey, NodeBytes, EncodeFast, Nonce;
    }
  }

  /** The daemon reads the version and the value of the latest leaf from the fast entry of its key. */
  lemma FastReadsLatest(sha: Sha, prefix: bytes, s: Stream, db: Entries, key: bytes)
    requires Parse(s).Some? && Storable(s) && LatestLeaf(s, key).Some?
    ensures var d, x := Imported(sha, prefix, s, db), LatestLeaf(s, key).value;
            && x.key == key && FastKey(prefix, key) in d
            && ReadFast(d[FastKey(prefix, key)]) == Got((x.version as int, x.value), [])
  {
    FastEntryIsLatest(sha, prefix, s, db, key);
    LatestIsStorable(s, key);
    var x := LatestLeaf(s, key).value;
    FastReads(x.version, x.value);
    hide Imported, EncodeFast, ReadFast, FastKey;
  }

  lemma {:induction false} LatestIsStorable(s: Stream, key: bytes)
    requires Storable(s) && LatestLeaf(s, key).Some?
    ensures |LatestLeaf(s, key).value.value| < TWO_64 && LatestLeaf(s, key).value.key == key
  {
    if !(s.item.height == 0 && s.item.key == key) {
      LatestIsStorable(s.before, key);
    }
  }
}
