/** Cutting the stream into store segments preserves its meaning: importing the segments one by one, in any
    order, leaves the database and the root hashes of the flat pass. */
module Segmentation {
  import opened Bytes
  import opened IavlEncoding
  import opened IavlTree
  import opened StoreImporter
  import CommitInfo
  import opened SnapshotImport

  // ---------- the flat pass is an import store by store ----------

  /** A store with its IAVL items in stream order. */
  datatype StoreNodes = StoreNodes(name: bytes, nodes: seq<ExportNode>)

  function Extend(s: Stream, nodes: seq<ExportNode>): Stream
    decreases |nodes|
  {
    if nodes == [] then s else Extend(Then(s, nodes[0]), nodes[1..])
  }

  function StreamOf(s: StoreNodes): StoreStream { StoreStream(s.name, Extend(Start, s.nodes)) }

  function StreamsOf(stores: seq<StoreNodes>): seq<StoreStream> {
    if stores == [] then [] else [StreamOf(stores[0])] + StreamsOf(stores[1..])
  }

  function NodeItems(nodes: seq<ExportNode>): seq<SnapItem> {
    if nodes == [] then [] else [IavlItem(nodes[0])] + NodeItems(nodes[1..])
  }

  /** A store's segment of the stream. */
  function SegmentItems(s: StoreNodes): seq<SnapItem> {
    [StoreItem(s.name)] + NodeItems(s.nodes)
  }

  function Flatten(stores: seq<StoreNodes>): seq<SnapItem> {
    if stores == [] then [] else SegmentItems(stores[0]) + Flatten(stores[1..])
  }

  /** The extension tail: it starts with a meta item. */
  predicate ExtTail(items: seq<SnapItem>) {
    && (items != [] ==> items[0].ExtMeta?)
    && (forall x :: x in items ==> x.ExtMeta? || x.ExtPayload?)
  }

  lemma {:induction false} ExtendRejected(s: Stream, nodes: seq<ExportNode>)
    requires Parse(s).None?
    ensures Parse(Extend(s, nodes)).None?
    decreases |nodes|
  {
    if nodes != [] {
      ExtendRejected(Then(s, nodes[0]), nodes[1..]);
    }
  }

  /** The nodes of a store go to its stream. */
  lemma {:induction false} PassNodes(sha: Sha, height: int64, p: Pass, nodes: seq<ExportNode>, rest: seq<SnapItem>)
    requires PassOk(p) && p.current.Some?
    ensures var s := p.current.value;
            PassFrom(sha, height, p, NodeItems(nodes) + rest)
            == if Parse(Extend(s.items, nodes)).None? then None
               else PassFrom(sha, height, p.(current := Some(s.(items := Extend(s.items, nodes)))), rest)
    decreases |nodes|
  {
    hide Push, Finished;
    var s, items := p.current.value, NodeItems(nodes) + rest;
    if nodes == [] {
      assert items == rest;
    } else {
      assert items[0] == IavlItem(nodes[0]) && items[1..] == NodeItems(nodes[1..]) + rest;
      var longer := Then(s.items, nodes[0]);
      if Parse(longer).None? {
        ExtendRejected(longer, nodes[1..]);
      } else {
        PassNodes(sha, height, p.(current := Some(s.(items := longer))), nodes[1..], rest);
      }
    }
  }

  /** The next store item, a meta item and the end of the stream close the open store. */
  lemma PassCloses(sha: Sha, height: int64, p: Pass, rest: seq<SnapItem>)
    requires rest == [] || rest[0].StoreItem? || rest[0].ExtMeta?
    ensures PassFrom(sha, height, p, rest)
         == match CloseCurrent(sha, height, p) case None => None case Some(q) => PassFrom(sha, height, q, rest)
  {
    hide Finished;
  }

  lemma {:induction false} PassExtensions(sha: Sha, height: int64, p: Pass, items: seq<SnapItem>)
    requires p.current.None? && forall x :: x in items ==> x.ExtMeta? || x.ExtPayload?
    ensures PassFrom(sha, height, p, items) == Some(p)
    decreases |items|
  {
    hide Finished;
    if items != [] {
      assert items[0] in items;
      PassExtensions(sha, height, p, items[1..]);
    }
  }

  /** A segment opens its store and leaves it open with all its items. */
  lemma PassSegment(sha: Sha, height: int64, db: IavlTree.Entries, infos: seq<StoreInfo>, s: StoreNodes,
                    rest: seq<SnapItem>)
    ensures PassFrom(sha, height, Pass(None, db, infos), SegmentItems(s) + rest)
         == if Parse(StreamOf(s).items).None? then None
            else PassFrom(sha, height, Pass(Some(StreamOf(s)), db, infos), rest)
  {
    var items := SegmentItems(s) + rest;
    assert items[0] == StoreItem(s.name) && items[1..] == NodeItems(s.nodes) + rest;
    var q := Pass(Some(StoreStream(s.name, Start)), db, infos);
    PassNodes(sha, height, q, s.nodes, rest);
    hide Finished, NodeItems, Extend;
  }

  /** A segment, closed by what follows it. */
  lemma PassOneStore(sha: Sha, height: int64, db: IavlTree.Entries, infos: seq<StoreInfo>, s: StoreNodes,
                     rest: seq<SnapItem>)
    requires rest == [] || rest[0].StoreItem? || rest[0].ExtMeta?
    ensures PassFrom(sha, height, Pass(None, db, infos), SegmentItems(s) + rest)
         == match Finished(sha, StorePrefix(s.name), height, StreamOf(s).items, db)
            case None => None
            case Some((hash, next)) => PassFrom(sha, height,
              Pass(None, next, infos + [CommitInfo.StoreInfo(s.name, hash)]), rest)
  {
    hide PassFrom, SegmentItems, Extend, Imported, RootHash, Closed, ClosedEmpty, NodeBytes;
    PassSegment(sha, height, db, infos, s, rest);
    PassCloses(sha, height, Pass(Some(StreamOf(s)), db, infos), rest);
  }

  /** The flat pass over a well-formed stream imports its stores one after the other. */
  lemma {:induction false} PassIsImportAll(sha: Sha, height: int64, db: IavlTree.Entries, infos: seq<StoreInfo>,
                                           stores: seq<StoreNodes>, ext: seq<SnapItem>)
    requires ExtTail(ext)
    ensures PassFrom(sha, height, Pass(None, db, infos), Flatten(stores) + ext)
         == match ImportAll(sha, height, StreamsOf(stores), db)
            case None => None
            case Some((more, last)) => Some(Pass(None, last, infos + more))
    decreases |stores|
  {
    hide PassFrom, Finished, NodeItems, Extend;
    if stores == [] {
      assert [] + ext == ext && infos + [] == infos;
      PassExtensions(sha, height, Pass(None, db, infos), ext);
    } else {
      var s, rest := stores[0], Flatten(stores[1..]) + ext;
      assert Flatten(stores) + ext == SegmentItems(s) + rest;
      RestStarts(stores[1..], ext);
      PassOneStore(sha, height, db, infos, s, rest);
      assert StreamsOf(stores)[1..] == StreamsOf(stores[1..]) && StreamsOf(stores)[0] == StreamOf(s);
      var f := Finished(sha, StorePrefix(s.name), height, StreamOf(s).items, db);
      if f.Some? {
        PassIsImportAll(sha, height, f.value.1, infos + [CommitInfo.StoreInfo(s.name, f.value.0)], stores[1..], ext);
        var r := ImportAll(sha, height, StreamsOf(stores[1..]), f.value.1);
        if r.Some? {
          assert infos + [CommitInfo.StoreInfo(s.name, f.value.0)] + r.value.0
            == infos + ([CommitInfo.StoreInfo(s.name, f.value.0)] + r.value.0);
        }
      }
    }
  }

  lemma RestStarts(stores: seq<StoreNodes>, ext: seq<SnapItem>)
    requires ExtTail(ext)
    ensures var rest := Flatten(stores) + ext; rest == [] || rest[0].StoreItem? || rest[0].ExtMeta?
  {
    if stores == [] {
      assert [] + ext == ext;
    }
  }

  // ---------- one segment ----------

  /** The items of a segment up to its boundary: the next store item, an extension item, or the end. */
  function UpToBoundary(s: Stream, items: seq<SnapItem>): Stream
    decreases |items|
  {
    if items == [] || !items[0].IavlItem? then s else UpToBoundary(Then(s, items[0].node), items[1..])
  }

  /** What a worker makes of a segment that starts with the store item of that name. */
  function SegmentResult(sha: Sha, height: int64, name: bytes, items: seq<SnapItem>,
                         db: IavlTree.Entries): Option<(Hash32, IavlTree.Entries)> {
    if items == [] then Some((sha([]), ClosedEmpty(StorePrefix(name), height, db)))
    else if items[0].IavlItem? || (items[0].StoreItem? && items[0].name != name) then None
    else if !items[0].StoreItem? then Some((sha([]), ClosedEmpty(StorePrefix(name), height, db)))
    else Finished(sha, StorePrefix(name), height, UpToBoundary(Start, items[1..]), db)
  }

  /** The calls of set and setFast that a worker makes for such a segment. */
  function SegmentWrites(sha: Sha, height: int64, name: bytes, items: seq<SnapItem>): seq<Write> {
    var s := if items != [] && items[0].StoreItem? then UpToBoundary(Start, items[1..]) else Start;
    if Parse(s).Some? then StoreWrites(sha, StorePrefix(name), height, s) else []
  }

  lemma {:induction false} BoundaryRejected(s: Stream, items: seq<SnapItem>)
    requires Parse(s).None?
    ensures Parse(UpToBoundary(s, items)).None?
    decreases |items|
  {
    if items != [] && items[0].IavlItem? {
      BoundaryRejected(Then(s, items[0].node), items[1..]);
    }
  }

  /** The synchronous worker of one segment. It stops at the first item that is not its own. */
  method ImportSegment(sha: Sha, height: int64, name: bytes, items: seq<SnapItem>, db: Database)
    returns (info: Option<StoreInfo>)
    modifies db
    ensures var r := SegmentResult(sha, height, name, items, old(db.entries));
            if r.None? then info == None
            else info == Some(CommitInfo.StoreInfo(name, r.value.0)) && db.entries == r.value.1
    ensures info.Some? ==> db.log == old(db.log) + SegmentWrites(sha, height, name, items)
  {
    hide Importer.Valid, Imported, Added, Finished, ImportWrites, FinishWrites, StoreWrites, SegmentWrites;
    var si := new Importer(sha, name, height);
    var prefix := StorePrefix(name);
    ghost var calls := db.log;
    NothingImported(sha, prefix, db.entries);
    NoWrites(sha, prefix, calls);
    if items == [] || items[0].ExtMeta? || items[0].ExtPayload? {
      WritesOfSegment(sha, height, name, items, Start, calls);
      var none := si.Finalize(db);
      return Some(CommitInfo.StoreInfo(name, none.value));
    }
    if items[0].IavlItem? || items[0].name != name {
      return None;
    }
    var ok := AddItems(si, items[1..], db);
    if !ok {
      RejectedFinish(sha, prefix, height, UpToBoundary(Start, items[1..]), old(db.entries));
      return None;
    }
    WritesOfSegment(sha, height, name, items, si.done, calls);
    var hash := si.Finalize(db);
    FinishedIs(sha, height, StoreStream(name, si.done), old(db.entries));
    info := if hash.Some? then Some(CommitInfo.StoreInfo(name, hash.value)) else None;
  }

  lemma WritesOfSegment(sha: Sha, height: int64, name: bytes, items: seq<SnapItem>, s: Stream, calls: seq<Write>)
    requires s == if items != [] && items[0].StoreItem? then UpToBoundary(Start, items[1..]) else Start
    requires Parse(s).Some?
    ensures var prefix := StorePrefix(name);
            calls + ImportWrites(sha, prefix, s) + FinishWrites(sha, prefix, height, s)
            == calls + SegmentWrites(sha, height, name, items)
  {
    hide ImportWrites, FinishWrites, UpToBoundary, StorePrefix;
  }

  lemma RejectedFinish(sha: Sha, prefix: bytes, height: int64, s: Stream, db: IavlTree.Entries)
    requires Parse(s).None?
    ensures Finished(sha, prefix, height, s, db) == None
  {}

  method AddItems(si: Importer, items: seq<SnapItem>, db: Database) returns (ok: bool)
    requires si.Valid() && si.done == Start
    modifies si, db
    ensures ok <==> Parse(UpToBoundary(Start, items)).Some?
    ensures ok ==> si.Valid() && si.done == UpToBoundary(Start, items)
                   && db.entries == Imported(si.sha, si.prefix, si.done, old(db.entries))
                   && db.log == old(db.log) + ImportWrites(si.sha, si.prefix, si.done)
  {
    hide Importer.Valid, Imported, Added, Finished, Parse, ImportWrites, ItemWrites;
    ghost var base, calls := db.entries, db.log;
    NothingImported(si.sha, si.prefix, base);
    NoWrites(si.sha, si.prefix, calls);
    StartParses();
    var i := 0;
    assert items[0..] == items;
    while i < |items| && items[i].IavlItem?
      invariant 0 <= i <= |items|
      invariant si.Valid() && Parse(si.done).Some?
      invariant UpToBoundary(si.done, items[i..]) == UpToBoundary(Start, items)
      invariant db.entries == Imported(si.sha, si.prefix, si.done, base)
      invariant db.log == calls + ImportWrites(si.sha, si.prefix, si.done)
    {
      assert items[i..][0] == items[i] && items[i..][1..] == items[i + 1..];
      ghost var before := si.done;
      ok := si.AddNode(db, items[i].node);
      if !ok {
        BoundaryRejected(Then(before, items[i].node), items[i + 1..]);
        return;
      }
      OneMoreImported(si.sha, si.prefix, si.done, base);
      OneMoreWritten(si.sha, si.prefix, si.done, calls);
      i := i + 1;
    }
    ok := true;
  }

  lemma NoWrites(sha: Sha, prefix: bytes, calls: seq<Write>)
    ensures calls + ImportWrites(sha, prefix, Start) == calls
  {}

  lemma OneMoreWritten(sha: Sha, prefix: bytes, s: Stream, calls: seq<Write>)
    requires s.Then? && Parse(s).Some?
    ensures Parse(s.before).Some?
    ensures
      calls + ImportWrites(sha, prefix, s.before) + ItemWrites(sha, prefix, s) == calls + ImportWrites(sha, prefix, s)
  {
    hide ItemWrites;
    assert ImportWrites(sha, prefix, s) == ImportWrites(sha, prefix, s.before) + ItemWrites(sha, prefix, s);
  }

  lemma StartParses()
    ensures Parse(Start).Some?
  {}

  /** The segment that the index cuts out for a store gives the store's result, whatever store or extension
      comes after it. */
  lemma SegmentIsStore(sha: Sha, height: int64, s: StoreNodes, rest: seq<SnapItem>, db: IavlTree.Entries)
    requires rest == [] || !rest[0].IavlItem?
    ensures SegmentResult(sha, height, s.name, SegmentItems(s) + rest, db)
         == Finished(sha, StorePrefix(s.name), height, StreamOf(s).items, db)
  {
    var items := SegmentItems(s) + rest;
    assert items[0] == StoreItem(s.name) && items[1..] == NodeItems(s.nodes) + rest;
    BoundaryOf(Start, s.nodes, rest);
    hide Finished, NodeItems, Extend, UpToBoundary;
  }

  lemma {:induction false} BoundaryOf(s: Stream, nodes: seq<ExportNode>, rest: seq<SnapItem>)
    requires rest == [] || !rest[0].IavlItem?
    ensures UpToBoundary(s, NodeItems(nodes) + rest) == Extend(s, nodes)
    decreases |nodes|
  {
    var items := NodeItems(nodes) + rest;
    if nodes == [] {
      assert items == rest;
    } else {
      assert items[0] == IavlItem(nodes[0]) && items[1..] == NodeItems(nodes[1..]) + rest;
      BoundaryOf(Then(s, nodes[0]), nodes[1..], rest);
    }
  }

  /** The calls for a store, by whichever way it is imported. */
  function WritesOf(sha: Sha, height: int64, s: StoreStream): seq<Write> {
    if Parse(s.items).Some? then StoreWrites(sha, StorePrefix(s.name), height, s.items) else []
  }

  lemma SegmentCalls(sha: Sha, height: int64, s: StoreNodes, rest: seq<SnapItem>)
    requires rest == [] || !rest[0].IavlItem?
    ensures SegmentWrites(sha, height, s.name, SegmentItems(s) + rest) == WritesOf(sha, height, StreamOf(s))
  {
    var items := SegmentItems(s) + rest;
    assert items[0] == StoreItem(s.name) && items[1..] == NodeItems(s.nodes) + rest;
    BoundaryOf(Start, s.nodes, rest);
    hide StoreWrites, NodeItems, Extend, UpToBoundary, StorePrefix, Parse;
  }

  // ---------- stores do not touch each other's entries ----------

  /** The entries that a store writes. */
  function StoreEntries(sha: Sha, height: int64, s: StoreStream): IavlTree.Entries {
    match Finished(sha, StorePrefix(s.name), height, s.items, map[])
    case None => map[]
    case Some((_, db)) => db
  }

  lemma AddPut(a: IavlTree.Entries, b: IavlTree.Entries, k: bytes, v: bytes)
    ensures (a + b)[k := v] == a + b[k := v]
  {}

  lemma {:induction false} ImportedAdds(sha: Sha, prefix: bytes, s: Stream, db: IavlTree.Entries)
    requires Parse(s).Some?
    ensures Imported(sha, prefix, s, db) == db + Imported(sha, prefix, s, map[])
  {
    if s.Then? {
      ImportedAdds(sha, prefix, s.before, db);
      hide KeyOf, NodeBytes, FastKey, EncodeFast;
      var e := Imported(sha, prefix, s.before, map[]);
      AddPut(db, e, KeyOf(prefix, s), NodeBytes(sha, s));
      AddPut(db, e[KeyOf(prefix, s) := NodeBytes(sha, s)], FastKey(prefix, s.item.key),
        EncodeFast(s.item.version, s.item.value));
    } else {
      assert db + map[] == db;
    }
  }

  lemma ClosedAdds(prefix: bytes, height: int64, version: int64, root: bytes, db: IavlTree.Entries, e: IavlTree.Entries)
    ensures Closed(prefix, height, version, root, db + e) == db + Closed(prefix, height, version, root, e)
    ensures ClosedEmpty(prefix, height, db) == db + ClosedEmpty(prefix, height, map[])
  {
    hide NodeKey, MetaKey, Redirect, Decimal;
    var k, r := NodeKey(prefix, version, 1), NodeKey(prefix, height, 1);
    var m, v := MetaKey(prefix, STORAGE_VERSION), FAST_VERSION + Decimal(height);
    AddPut(db, e, k, root);
    AddPut(db, e[k := root], r, Redirect(version));
    AddPut(db, e[k := root][r := Redirect(version)], m, v);
    AddPut(db, e[k := root], m, v);
    var none: IavlTree.Entries := map[];
    assert db + none == db;
    AddPut(db, none, r, []);
    AddPut(db, none[r := []], m, v);
  }

  /** A store's result does not depend on what is in the database, and it only adds its entries. */
  lemma FinishedAdds(sha: Sha, height: int64, s: StoreStream, db: IavlTree.Entries)
    ensures var r, e := Finished(sha, StorePrefix(s.name), height, s.items, db),
      Finished(sha, StorePrefix(s.name), height, s.items, map[]);
            && r.None? == e.None?
            && (r.Some? ==> r.value.0 == e.value.0 && r.value.1 == db + StoreEntries(sha, height, s))
  {
    hide Closed, ClosedEmpty, NodeBytes, RootHash, Imported;
    if Parse(s.items).Some? {
      var prefix := StorePrefix(s.name);
      ImportedAdds(sha, prefix, s.items, db);
      if s.items.Then? {
        ClosedAdds(prefix, height, s.items.item.version, NodeBytes(sha, s.items), db,
          Imported(sha, prefix, s.items, map[]));
      } else {
        ClosedAdds(prefix, height, height, [], db, map[]);
      }
    }
  }

  predicate Under(prefix: bytes, key: bytes) {
    |prefix| <= |key| && key[..|prefix|] == prefix
  }

  lemma TaggedUnder(prefix: bytes, tag: byte, rest: bytes)
    ensures Under(prefix, prefix + [tag] + rest)
  {
    assert (prefix + [tag] + rest)[..|prefix|] == prefix;
  }

  lemma {:induction false} ImportedUnder(sha: Sha, prefix: bytes, s: Stream, key: bytes)
    requires Parse(s).Some? && key in Imported(sha, prefix, s, map[])
    ensures Under(prefix, key)
  {
    if s.Then? {
      TaggedUnder(prefix, TAG_NODE, NodeId(s.item.version, Nonce(s)));
      TaggedUnder(prefix, TAG_FAST, s.item.key);
      hide NodeBytes, EncodeFast, NodeId, Nonce, Under;
      if key in Imported(sha, prefix, s.before, map[]) {
        ImportedUnder(sha, prefix, s.before, key);
      }
    }
  }

  /** A store writes under its own prefix only. */
  lemma EntriesUnder(sha: Sha, height: int64, s: StoreStream, key: bytes)
    requires key in StoreEntries(sha, height, s)
    ensures Under(StorePrefix(s.name), key)
  {
    var prefix := StorePrefix(s.name);
    hide NodeBytes, RootHash, Imported, NodeId, Decimal, Redirect, StorePrefix, Under;
    TaggedUnder(prefix, TAG_NODE, NodeId(height, 1));
    TaggedUnder(prefix, TAG_META, STORAGE_VERSION);
    if s.items.Then? {
      TaggedUnder(prefix, TAG_NODE, NodeId(s.items.item.version, 1));
    }
    if key in Imported(sha, prefix, s.items, map[]) {
      ImportedUnder(sha, prefix, s.items, key);
    }
  }

  const SLASH: byte := 47

  lemma SlashAt(n: bytes, m: bytes, key: bytes)
    requires Under(StorePrefix(n), key) && Under(StorePrefix(m), key) && |n| < |m|
    ensures SLASH in m
  {
    var a := |n|;
    assert key[a + 4] == key[..a + 5][a + 4] == StorePrefix(n)[a + 4] == SLASH;
    assert m[a] == StorePrefix(m)[a + 4] == key[..|m| + 5][a + 4] == key[a + 4];
  }

  /** Store names hold no slash, so no store's prefix starts another's. */
  lemma PrefixesApart(n: bytes, m: bytes, key: bytes)
    requires SLASH !in n && SLASH !in m && Under(StorePrefix(n), key) && Under(StorePrefix(m), key)
    ensures n == m
  {
    if |n| < |m| {
      SlashAt(n, m, key);
    } else if |m| < |n| {
      SlashAt(m, n, key);
    } else {
      assert n == StorePrefix(n)[4..|n| + 4] == key[4..|n| + 4];
      assert m == StorePrefix(m)[4..|m| + 4] == key[4..|m| + 4];
    }
  }

  // ---------- any order ----------

  predicate Nameable(stores: seq<StoreStream>) {
    && (forall s :: s in stores ==> SLASH !in s.name)
    && (forall i, j :: 0 <= i < j < |stores| ==> stores[i].name != stores[j].name)
  }

  /** Importing several stores succeeds when each does, adds each store's entries, and reports each hash. */
  ghost predicate ImportsWell(sha: Sha, height: int64, stores: seq<StoreStream>, db: IavlTree.Entries,
                              r: Option<(seq<StoreInfo>, IavlTree.Entries)>) {
    if r.None? then exists s :: s in stores && Finished(sha, StorePrefix(s.name), height, s.items, map[]).None?
    else
      && (forall s :: s in stores ==> Reported(sha, height, s, r.value.0))
      && |r.value.0| == |stores|
      && (forall key :: KeyIs(sha, height, stores, db, r.value.1, key))
  }

  /** The store has a result, and it is in the list. */
  ghost predicate Reported(sha: Sha, height: int64, s: StoreStream, infos: seq<StoreInfo>) {
    var f := Finished(sha, StorePrefix(s.name), height, s.items, map[]);
    f.Some? && CommitInfo.StoreInfo(s.name, f.value.0) in infos
  }

  /** The hash that is reported for a store: that of no bytes for an empty one, and else a hash of its tree. */
  ghost predicate HashOfStore(sha: Sha, s: StoreStream, hash: bytes) {
    if s.items.Start? then hash == sha([])
    else
      && Parse(s.items).Some? && |hash| == 32
      && (ShortKeys(TopTree(s.items)) ==> MerkleRoot(sha, TopTree(s.items), hash))
  }

  /** An import reports every store under its name, in order, with its tree's hash. */
  lemma {:induction false} ReportsHashes(sha: Sha, height: int64, stores: seq<StoreStream>, db: IavlTree.Entries)
    requires ImportAll(sha, height, stores, db).Some?
    ensures var infos := ImportAll(sha, height, stores, db).value.0;
            |infos| == |stores| && forall i :: 0 <= i < |infos| ==>
              infos[i].name == stores[i].name && HashOfStore(sha, stores[i], infos[i].hash)
  {
    hide Finished, StorePrefix, HashOfStore;
    if stores != [] {
      var f := Finished(sha, StorePrefix(stores[0].name), height, stores[0].items, db);
      FinishedHash(sha, height, stores[0], db);
      ReportsHashes(sha, height, stores[1..], f.value.1);
    }
  }

  lemma FinishedHash(sha: Sha, height: int64, s: StoreStream, db: IavlTree.Entries)
    requires Finished(sha, StorePrefix(s.name), height, s.items, db).Some?
    ensures HashOfStore(sha, s, Finished(sha, StorePrefix(s.name), height, s.items, db).value.0)
  {
    FinishedParses(sha, height, s, db);
    FinishedIs(sha, height, s, db);
    hide Finished, StorePrefix, MerkleRoot, ShortKeys, RootHash, Parse;
    if s.items.Then? && ShortKeys(TopTree(s.items)) {
      RootHashIsMerkle(sha, TopTree(s.items));
    }
  }

  lemma FinishedParses(sha: Sha, height: int64, s: StoreStream, db: IavlTree.Entries)
    requires Finished(sha, StorePrefix(s.name), height, s.items, db).Some?
    ensures Parse(s.items).Some?
  {}

  /** The value of a key is the one that some store writes, or else the old one. */
  ghost predicate KeyIs(sha: Sha, height: int64, stores: seq<StoreStream>, db: IavlTree.Entries, last: IavlTree.Entries,
                        key: bytes) {
    && (forall s :: s in stores && key in StoreEntries(sha, height, s) ==>
      key in last && last[key] == StoreEntries(sha, height, s)[key])
    && ((forall s :: s in stores ==> key !in StoreEntries(sha, height, s)) ==>
        (key in last <==> key in db) && (key in last ==> last[key] == db[key]))
  }

  lemma {:induction false} ImportAllIs(sha: Sha, height: int64, stores: seq<StoreStream>, db: IavlTree.Entries)
    requires Nameable(stores)
    ensures ImportsWell(sha, height, stores, db, ImportAll(sha, height, stores, db))
  {
    hide Finished, StorePrefix, StoreEntries;
    if stores != [] {
      var s, rest := stores[0], stores[1..];
      FinishedAdds(sha, height, s, db);
      var f := Finished(sha, StorePrefix(s.name), height, s.items, db);
      assert s in stores;
      if f.Some? {
        assert Nameable(rest);
        ImportAllIs(sha, height, rest, f.value.1);
        ImportMore(sha, height, stores, db, f.value.0, f.value.1, ImportAll(sha, height, rest, f.value.1));
      }
    }
  }

  /** The first store's entries and the rest's. */
  lemma ImportMore(sha: Sha, height: int64, stores: seq<StoreStream>, db: IavlTree.Entries, hash: Hash32,
                   db': IavlTree.Entries,
                   r: Option<(seq<StoreInfo>, IavlTree.Entries)>)
    requires Nameable(stores) && stores != []
    requires var s, f := stores[0], Finished(sha, StorePrefix(stores[0].name), height, stores[0].items, map[]);
             f.Some? && f.value.0 == hash && db' == db + StoreEntries(sha, height, s)
    requires ImportsWell(sha, height, stores[1..], db', r)
    ensures ImportsWell(sha, height, stores, db,
                        if r.None? then None
                        else Some(([CommitInfo.StoreInfo(stores[0].name, hash)] + r.value.0, r.value.1)))
  {
    hide Finished, StorePrefix, StoreEntries;
    var s, rest := stores[0], stores[1..];
    if r.Some? {
      forall x | x in stores ensures Reported(sha, height, x, [CommitInfo.StoreInfo(s.name, hash)] + r.value.0) {
        if x != s {
          assert x in rest && Reported(sha, height, x, r.value.0);
        }
      }
      forall key ensures KeyIs(sha, height, stores, db, r.value.1, key) {
        assert KeyIs(sha, height, rest, db', r.value.1, key);
        KeyOfFirst(sha, height, stores, db, db', r.value.1, key);
      }
    }
  }

  lemma KeyOfFirst(sha: Sha, height: int64, stores: seq<StoreStream>, db: IavlTree.Entries, db': IavlTree.Entries,
                   last: IavlTree.Entries, key: bytes)
    requires Nameable(stores) && stores != [] && db' == db + StoreEntries(sha, height, stores[0])
    requires KeyIs(sha, height, stores[1..], db', last, key)
    ensures KeyIs(sha, height, stores, db, last, key)
  {
    hide Finished, StorePrefix, StoreEntries, Under;
    var s, rest := stores[0], stores[1..];
    forall x | x in rest ensures x.name != s.name {
      var i :| 0 <= i < |rest| && rest[i] == x;
      assert stores[i + 1] == x;
    }
    if key in StoreEntries(sha, height, s) {
      EntriesUnder(sha, height, s, key);
      forall x | x in rest ensures key !in StoreEntries(sha, height, x) {
        if key in StoreEntries(sha, height, x) {
          EntriesUnder(sha, height, x, key);
          assert x in stores && s in stores;
          PrefixesApart(s.name, x.name, key);
        }
      }
    }
    forall x | x in stores && key in StoreEntries(sha, height, x)
      ensures key in last && last[key] == StoreEntries(sha, height, x)[key]
    {
      if x != s {
        assert x in rest;
      }
    }
  }

  /** The main theorem: the same stores in any two orders leave the same database and report the same hashes;
      if one order fails, so does the other. */
  lemma OrderDoesNotMatter(sha: Sha, height: int64, a: seq<StoreStream>, b: seq<StoreStream>, db: IavlTree.Entries)
    requires Nameable(a) && Nameable(b) && forall s :: s in a <==> s in b
    ensures var r, t := ImportAll(sha, height, a, db), ImportAll(sha, height, b, db);
            && r.None? == t.None?
            && (r.Some? ==>
                && r.value.1 == t.value.1
                && (forall s :: s in a ==> Reported(sha, height, s, r.value.0) && Reported(sha, height, s, t.value.0)))
  {
    ImportAllIs(sha, height, a, db);
    ImportAllIs(sha, height, b, db);
    hide Finished, StorePrefix, StoreEntries, ImportAll, Nameable;
    var r, t := ImportAll(sha, height, a, db), ImportAll(sha, height, b, db);
    if r.Some? && t.Some? {
      forall key ensures (key in r.value.1 <==> key in t.value.1)
        && (key in r.value.1 ==> r.value.1[key] == t.value.1[key]) {
        assert KeyIs(sha, height, a, db, r.value.1, key) && KeyIs(sha, height, b, db, t.value.1, key);
        if s :| s in a && key in StoreEntries(sha, height, s) {
        }
      }
    }
  }
}
