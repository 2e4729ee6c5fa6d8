/** Importing a whole snapshot: one flat pass over the items, or one segment at a time in any order. */
module SnapshotImport {
  import opened Bytes
  import opened IavlEncoding
  import opened IavlTree
  import opened StoreImporter
  import CommitInfo

  datatype SnapItem =
    | StoreItem(name: bytes)
    | IavlItem(node: ExportNode)
    | ExtMeta(ext: bytes, format: uint32)
    | ExtPayload(payload: bytes)

  type StoreInfo = CommitInfo.StoreInfo

  /** A store of the stream: its name and the items under it. */
  datatype StoreStream = StoreStream(name: bytes, items: Stream)

  // ---------- stores one after the other ----------

  /** The database and the results after importing stores one after the other; None when one is rejected. */
  function ImportAll(sha: Sha, height: int64, stores: seq<StoreStream>,
                     db: Entries): Option<(seq<StoreInfo>, Entries)> {
    if stores == [] then Some(([], db))
    else
      match Finished(sha, StorePrefix(stores[0].name), height, stores[0].items, db)
      case None => None
      case Some((hash, db')) =>
        match ImportAll(sha, height, stores[1..], db')
        case None => None
        case Some((infos, last)) => Some(([CommitInfo.StoreInfo(stores[0].name, hash)] + infos, last))
  }

  // ---------- the flat pass ----------

  /** The pass between two items: the open store with its items so far and the database when it was opened, the
      results so far, and the database now. */
  datatype Pass = Pass(current: Option<StoreStream>, base: Entries, infos: seq<StoreInfo>)

  predicate PassOk(p: Pass) {
    p.current.Some? ==> Parse(p.current.value.items).Some?
  }

  function PassEntries(sha: Sha, p: Pass): IavlTree.Entries
    requires PassOk(p)
  {
    match p.current
    case None => p.base
    case Some(s) => Imported(sha, StorePrefix(s.name), s.items, p.base)
  }

  function CloseCurrent(sha: Sha, height: int64, p: Pass): (r: Option<Pass>)
    ensures r.Some? ==> r.value.current.None?
  {
    match p.current
    case None => Some(p)
    case Some(s) =>
      match Finished(sha, StorePrefix(s.name), height, s.items, p.base)
      case None => None
      case Some((hash, db)) => Some(Pass(None, db, p.infos + [CommitInfo.StoreInfo(s.name, hash)]))
  }

  function PassStep(sha: Sha, height: int64, p: Pass, x: SnapItem): (r: Option<Pass>)
    ensures r.Some? && PassOk(p) ==> PassOk(r.value)
  {
    match x
    case StoreItem(name) =>
      (match CloseCurrent(sha, height, p)
       case None => None
       case Some(q) => Some(q.(current := Some(StoreStream(name, Start)))))
    case IavlItem(node) =>
      if p.current.None? || Parse(Then(p.current.value.items, node)).None? then None
      else Some(p.(current := Some(p.current.value.(items := Then(p.current.value.items, node)))))
    case ExtMeta(_, _) => CloseCurrent(sha, height, p)
    case ExtPayload(_) => Some(p)
  }

  function PassFrom(sha: Sha, height: int64, p: Pass, items: seq<SnapItem>): Option<Pass>
    decreases |items|
  {
    if items == [] then CloseCurrent(sha, height, p)
    else
      match PassStep(sha, height, p, items[0])
      case None => None
      case Some(q) => PassFrom(sha, height, q, items[1..])
  }

  /** The importer of the open store stands where the pass stands. */
  ghost predicate Tracks(sha: Sha, height: int64, p: Pass, current: Importer?, name: bytes)
    reads current
  {
    match p.current
    case None => current == null
    case Some(s) =>
      && s.name == name && current != null && current.Valid() && current.done == s.items
      && current.sha == sha && current.prefix == StorePrefix(name) && current.height == height
  }

  /** Closes the open store: its root, redirect and marker are written and its hash recorded. */
  method CloseStore(sha: Sha, height: int64, db: Database, current: Importer?, name: bytes, ghost p: Pass)
    returns (infos: Option<seq<StoreInfo>>)
    requires PassOk(p) && Tracks(sha, height, p, current, name) && db.entries == PassEntries(sha, p)
    modifies db
    ensures match CloseCurrent(sha, height, p)
            case None => infos == None
            case Some(q) => infos.Some? && q.infos == p.infos + infos.value && db.entries == q.base
  {
    hide Imported, Closed, ClosedEmpty, NodeBytes, RootHash;
    if current == null {
      assert p.infos + [] == p.infos;
      return Some([]);
    }
    var hash := current.Finalize(db);
    FinishedIs(sha, height, p.current.value, p.base);
    infos := if hash.Some? then Some([CommitInfo.StoreInfo(name, hash.value)]) else None;
  }

  /** What finalizing finds, in terms of the completed subtrees. */
  lemma FinishedIs(sha: Sha, height: int64, s: StoreStream, base: IavlTree.Entries)
    requires Parse(s.items).Some?
    ensures var prefix := StorePrefix(s.name);
            var r := Finished(sha, prefix, height, s.items, base);
            && (r.Some? <==> Depth(Parse(s.items).value) <= 1)
            && (r.Some? ==>
                if s.items.Start? then
                  r.value == (sha([]), ClosedEmpty(prefix, height, Imported(sha, prefix, s.items, base)))
                else r.value == (RootHash(sha, TopTree(s.items)),
                                 Closed(prefix, height, s.items.item.version, NodeBytes(sha, s.items),
                                   Imported(sha, prefix, s.items, base))))
  {
    hide Closed, ClosedEmpty, NodeBytes, RootHash;
  }

  /** One item of the flat pass. */
  method ImportItem(sha: Sha, height: int64, db: Database, x: SnapItem, current: Importer?, name: bytes, ghost p: Pass)
    returns (ok: bool, next: Importer?, nextName: bytes, infos: seq<StoreInfo>, ghost q: Pass)
    requires PassOk(p) && Tracks(sha, height, p, current, name) && db.entries == PassEntries(sha, p)
    modifies db, current
    ensures ok <==> PassStep(sha, height, p, x).Some?
    ensures ok ==>
      && PassStep(sha, height, p, x) == Some(q) && PassOk(q)
      && Tracks(sha, height, q, next, nextName) && db.entries == PassEntries(sha, q)
      && q.infos == p.infos + infos
      && (next == null || next == current || fresh(next))
  {
    hide Importer.Valid, Finished, Imported, Added;
    ok, next, nextName, infos, q := true, current, name, [], p;
    assert p.infos + [] == p.infos;
    match x {
      case StoreItem(n) =>
        var closed := CloseStore(sha, height, db, current, name, p);
        if closed.None? {
          ok := false;
          return;
        }
        infos, nextName := closed.value, n;
        next := new Importer(sha, n, height);
        q := CloseCurrent(sha, height, p).value.(current := Some(StoreStream(n, Start)));
        NothingImported(sha, StorePrefix(n), q.base);
      case IavlItem(node) =>
        if current == null {
          ok := false;
          return;
        }
        ok := current.AddNode(db, node);
        if ok {
          q := PassStep(sha, height, p, x).value;
          OneMoreImported(sha, StorePrefix(name), current.done, p.base);
        }
      case ExtMeta(_, _) =>
        var closed := CloseStore(sha, height, db, current, name, p);
        if closed.None? {
          ok := false;
          return;
        }
        infos, next := closed.value, null;
        q := CloseCurrent(sha, height, p).value;
      case ExtPayload(_) => {}
    }
  }

  lemma NothingImported(sha: Sha, prefix: bytes, db: IavlTree.Entries)
    ensures Imported(sha, prefix, Start, db) == db
  {}

  lemma OneMoreImported(sha: Sha, prefix: bytes, s: Stream, db: IavlTree.Entries)
    requires s.Then? && Parse(s).Some?
    ensures Parse(s.before).Some? && Imported(sha, prefix, s, db)
      == Added(sha, prefix, s, Imported(sha, prefix, s.before, db))
  {
    hide Added;
  }

  /** The import of a whole snapshot in one pass over its items. */
  method RunImport(sha: Sha, height: int64, items: seq<SnapItem>, db: Database) returns (infos: Option<seq<StoreInfo>>)
    modifies db
    ensures var r := PassFrom(sha, height, Pass(None, old(db.entries), []), items);
            if r.None? then infos == None else infos == Some(r.value.infos) && db.entries == r.value.base
  {
    hide Importer.Valid, PassEntries, PassStep, Tracks, CloseCurrent;
    ghost var p := Pass(None, db.entries, []);
    ghost var all := PassFrom(sha, height, p, items);
    var current: Importer? := null;
    var name: bytes := [];
    var done: seq<StoreInfo> := [];
    StartsClosed(sha, height, p, current, name);
    var i := 0;
    assert items[0..] == items;
    while i < |items|
      invariant 0 <= i <= |items|
      invariant current == null || fresh(current)
      invariant PassOk(p) && Tracks(sha, height, p, current, name)
      invariant db.entries == PassEntries(sha, p) && done == p.infos
      invariant PassFrom(sha, height, p, items[i..]) == all
    {
      assert items[i..][1..] == items[i + 1..];
      var ok, more;
      ghost var q;
      ok, current, name, more, q := ImportItem(sha, height, db, items[i], current, name, p);
      if !ok {
        return None;
      }
      done, p, i := done + more, q, i + 1;
    }
    var closed := CloseStore(sha, height, db, current, name, p);
    infos := if closed.Some? then Some(done + closed.value) else None;
  }

  lemma StartsClosed(sha: Sha, height: int64, p: Pass, current: Importer?, name: bytes)
    requires p.current.None? && current == null
    ensures PassOk(p) && Tracks(sha, height, p, current, name) && PassEntries(sha, p) == p.base
  {}
}
