/** The workers run at once: their calls of set and setFast reach the database in any interleaving. Each store writes
    under its own prefix only, so every interleaving leaves the database of one pass over the stream. */
module Interleaving {
  import opened Bytes
  import opened IavlEncoding
  import opened IavlTree
  import opened StoreImporter
  import opened SnapshotImport
  import opened Segmentation
  import opened SnapReader
  import opened SegmentedImport
  import SegmentIndex

  // ---------- interleavings ----------

  /** The calls of several workers in some order in which each worker's calls keep theirs. */
  ghost predicate Merges(lists: seq<seq<Write>>, merged: seq<Write>)
    decreases |merged|
  {
    if merged == [] then forall k :: 0 <= k < |lists| ==> lists[k] == []
    else exists k :: 0 <= k < |lists| && Heads(lists[k], merged[0]) && Merges(Stepped(lists, k), merged[1..])
  }

  predicate Heads(ws: seq<Write>, w: Write) { ws != [] && ws[0] == w }

  /** The lists after worker k has made its first call. */
  function Stepped(lists: seq<seq<Write>>, k: nat): seq<seq<Write>>
    requires k < |lists| && lists[k] != []
  {
    lists[k := lists[k][1..]]
  }

  /** The value that the last call for a key gives it. */
  function Last(ws: seq<Write>, key: bytes): Option<bytes> {
    if ws == [] then None
    else if Last(ws[1..], key).Some? then Last(ws[1..], key)
    else if ws[0].0 == key then Some(ws[0].1) else None
  }

  lemma {:induction false} ApplyIsLast(db: IavlTree.Entries, ws: seq<Write>, key: bytes)
    ensures var r := Apply(db, ws);
            match Last(ws, key)
            case Some(v) => key in r && r[key] == v
            case None => (key in r <==> key in db) && (key in r ==> r[key] == db[key])
    decreases |ws|
  {
    if ws != [] {
      ApplyIsLast(db[ws[0].0 := ws[0].1], ws[1..], key);
    }
  }

  lemma {:induction false} LastIn(ws: seq<Write>, key: bytes)
    ensures Last(ws, key).Some? <==> exists i :: 0 <= i < |ws| && ws[i].0 == key
  {
    if ws != [] {
      LastIn(ws[1..], key);
      if Last(ws[1..], key).Some? {
        var i :| 0 <= i < |ws[1..]| && ws[1..][i].0 == key;
        assert ws[i + 1].0 == key;
      }
      if Last(ws[1..], key).None? && ws[0].0 != key {
        forall i | 0 <= i < |ws| ensures ws[i].0 != key {
          if i > 0 {
            assert ws[1..][i - 1].0 != key;
          }
        }
      }
    }
  }

  /** When only worker k writes a key, its last call for the key is the last of all. */
  lemma {:induction false} LastOfMerge(lists: seq<seq<Write>>, merged: seq<Write>, k: nat, key: bytes)
    requires Merges(lists, merged) && k < |lists|
    requires forall m :: 0 <= m < |lists| && m != k ==> Last(lists[m], key).None?
    ensures Last(merged, key) == Last(lists[k], key)
    decreases |merged|
  {
    if merged != [] {
      var m :| 0 <= m < |lists| && Heads(lists[m], merged[0]) && Merges(Stepped(lists, m), merged[1..]);
      var rest := Stepped(lists, m);
      assert Last(lists[m], key).None? ==> Last(lists[m][1..], key).None? && lists[m][0].0 != key;
      LastOfMerge(rest, merged[1..], k, key);
    }
  }

  // ---------- the stores' calls ----------

  function Calls(sha: Sha, height: int64, stores: seq<StoreStream>): seq<seq<Write>> {
    seq(|stores|, i requires 0 <= i < |stores| => WritesOf(sha, height, stores[i]))
  }

  /** The entries of a store are what its calls leave. */
  lemma LastIsEntry(sha: Sha, height: int64, s: StoreStream, key: bytes)
    requires Finished(sha, StorePrefix(s.name), height, s.items, map[]).Some?
    ensures match Last(WritesOf(sha, height, s), key)
            case Some(v) => key in StoreEntries(sha, height, s) && StoreEntries(sha, height, s)[key] == v
            case None => key !in StoreEntries(sha, height, s)
  {
    StoreApplies(sha, StorePrefix(s.name), height, s.items, map[]);
    ApplyIsLast(map[], WritesOf(sha, height, s), key);
    hide Apply, StoreWrites, Finished, StorePrefix, Last;
  }

  /** Two stores never write the same key. */
  lemma CallsApart(sha: Sha, height: int64, stores: seq<StoreStream>, i: nat, j: nat, key: bytes)
    requires Nameable(stores) && i < |stores| && j < |stores| && i != j
    requires forall s :: s in stores ==> Finished(sha, StorePrefix(s.name), height, s.items, map[]).Some?
    requires Last(WritesOf(sha, height, stores[i]), key).Some?
    ensures Last(WritesOf(sha, height, stores[j]), key).None?
  {
    hide Finished, Last, WritesOf, StoreEntries, StorePrefix, Under;
    var s, t := stores[i], stores[j];
    assert s in stores && t in stores;
    LastIsEntry(sha, height, s, key);
    LastIsEntry(sha, height, t, key);
    EntriesUnder(sha, height, s, key);
    if key in StoreEntries(sha, height, t) {
      EntriesUnder(sha, height, t, key);
      PrefixesApart(s.name, t.name, key);
    }
  }

  /** Importing all stores leaves, under every key, what every interleaving of their calls leaves. */
  lemma AnyInterleaving(sha: Sha, height: int64, stores: seq<StoreStream>, db: IavlTree.Entries, merged: seq<Write>)
    requires Nameable(stores) && ImportAll(sha, height, stores, db).Some?
    requires Merges(Calls(sha, height, stores), merged)
    ensures Apply(db, merged) == ImportAll(sha, height, stores, db).value.1
  {
    var last := ImportAll(sha, height, stores, db).value.1;
    AllFinish(sha, height, stores, db);
    ImportAllIs(sha, height, stores, db);
    hide ImportAll, Finished, Apply, Merges, Calls, StoreEntries;
    forall key ensures (key in Apply(db, merged) <==> key in last) &&
      (key in last ==> Apply(db, merged)[key] == last[key]) {
      ApplyIsLast(db, merged, key);
      SameValue(sha, height, stores, db, last, merged, key);
    }
  }

  lemma AllFinish(sha: Sha, height: int64, stores: seq<StoreStream>, db: IavlTree.Entries)
    requires Nameable(stores) && ImportAll(sha, height, stores, db).Some?
    ensures forall s :: s in stores ==> Finished(sha, StorePrefix(s.name), height, s.items, map[]).Some?
  {
    ImportAllIs(sha, height, stores, db);
    hide ImportAll, Finished, StorePrefix, KeyIs;
    var infos := ImportAll(sha, height, stores, db).value.0;
    forall s | s in stores ensures Finished(sha, StorePrefix(s.name), height, s.items, map[]).Some? {
      assert Reported(sha, height, s, infos);
    }
  }

  lemma SameValue(sha: Sha, height: int64, stores: seq<StoreStream>, db: IavlTree.Entries, last: IavlTree.Entries,
                  merged: seq<Write>, key: bytes)
    requires Nameable(stores) && Merges(Calls(sha, height, stores), merged)
    requires forall s :: s in stores ==> Finished(sha, StorePrefix(s.name), height, s.items, map[]).Some?
    requires KeyIs(sha, height, stores, db, last, key)
    ensures match Last(merged, key)
            case Some(v) => key in last && last[key] == v
            case None => (key in last <==> key in db) && (key in last ==> last[key] == db[key])
  {
    hide Finished, Last, WritesOf, StoreEntries, Merges, StorePrefix, Nameable;
    var calls := Calls(sha, height, stores);
    if i :| 0 <= i < |stores| && Last(calls[i], key).Some? {
      forall m | 0 <= m < |calls| && m != i ensures Last(calls[m], key).None? {
        CallsApart(sha, height, stores, i, m, key);
      }
      LastOfMerge(calls, merged, i, key);
      assert stores[i] in stores;
      LastIsEntry(sha, height, stores[i], key);
    } else {
      forall s | s in stores ensures key !in StoreEntries(sha, height, s) {
        var m :| 0 <= m < |stores| && stores[m] == s;
        assert Last(calls[m], key).None?;
        LastIsEntry(sha, height, s, key);
      }
      NoneOfMerge(calls, merged, key);
    }
  }

  lemma {:induction false} NoneOfMerge(lists: seq<seq<Write>>, merged: seq<Write>, key: bytes)
    requires Merges(lists, merged) && forall m :: 0 <= m < |lists| ==> Last(lists[m], key).None?
    ensures Last(merged, key).None?
    decreases |merged|
  {
    if merged != [] {
      var m :| 0 <= m < |lists| && Heads(lists[m], merged[0]) && Merges(Stepped(lists, m), merged[1..]);
      assert Last(lists[m][1..], key).None? && lists[m][0].0 != key;
      NoneOfMerge(Stepped(lists, m), merged[1..], key);
    }
  }

  // ---------- the main theorem ----------

  /** Every worker of an index's entries decodes its own store and makes that store's calls (ImportEntry); whatever the
      interleaving of all their calls, the database is that of one pass over the snapshot. */
  lemma ImportAtOnce(sha: Sha, height: int64, data: bytes, entries: seq<SegmentIndex.Entry>, next: nat,
                     db: IavlTree.Entries) returns (stores: seq<StoreNodes>)
    requires Snapshot(data) && SegmentIndex.Closed(data, entries, next) && next <= |data|
    requires next == |data| || SegmentIndex.AtExtension(data, next)
    requires PassFrom(sha, height, Pass(None, db, []), Items(data).value).Some?
    ensures |stores| == |entries| && forall k :: 0 <= k < |entries| ==> Ready(data, entries[k], stores[k])
    ensures forall merged :: Merges(Calls(sha, height, StreamsOf(stores)), merged) ==>
      Apply(db, merged) == PassFrom(sha, height, Pass(None, db, []), Items(data).value).value.base
  {
    var items := Items(data).value;
    hide Items, Snapshot, SegmentIndex.Closed, SegmentIndex.AtExtension, Ready, Flatten, StreamsOf, ImportAll, PassFrom,
      Nameable, ExtTail, Merges, Calls, Apply;
    var ext;
    stores, ext := IndexedSnapshot(data, entries, next);
    var streams := StreamsOf(stores);
    FlatResult(sha, height, db, stores, ext);
    forall merged | Merges(Calls(sha, height, streams), merged)
      ensures Apply(db, merged) == PassFrom(sha, height, Pass(None, db, []), items).value.base
    {
      AnyInterleaving(sha, height, streams, db, merged);
    }
  }
}
