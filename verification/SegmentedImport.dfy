/** Importing a snapshot by its index: the indexer cuts the byte stream into segments, each segment's worker decodes and
    imports its own store, in any order, and the result is that of one pass over the whole stream. */
module SegmentedImport {
  import opened Bytes
  import opened IavlEncoding
  import opened IavlTree
  import opened StoreImporter
  import opened SnapshotImport
  import opened Segmentation
  import opened SnapReader
  import opened SegmentDecode
  import opened IndexScanner
  import CommitInfo
  import PinHandoff
  import SegmentIndex

  // ---------- the extensions ----------

  /** Every payload follows a meta item or another payload. */
  predicate MetaFirst(items: seq<SnapItem>) {
    forall k :: 0 <= k < |items| && items[k].ExtPayload? ==>
      k > 0 && (items[k - 1].ExtMeta? || items[k - 1].ExtPayload?)
  }

  predicate IsExt(x: SnapItem) { x.ExtMeta? || x.ExtPayload? }

  /** One envelope of a well-formed stream. */
  lemma WellStep(data: bytes, pos: nat, phase: SegmentIndex.Phase) returns (n: nat, kind: PinHandoff.Kind)
    requires pos < |data| && SegmentIndex.WellFormed(data, pos, phase)
    ensures PinHandoff.Envelope(data[pos..]) == Some((n, kind)) && 0 < n && pos + n <= |data|
    ensures SegmentIndex.Allowed(phase, kind) && SegmentIndex.WellFormed(data, pos + n, SegmentIndex.After(kind))
  {
    hide PinHandoff.Envelope, SegmentIndex.Named, SegmentIndex.Allowed, SegmentIndex.After;
    var first := PinHandoff.Envelope(data[pos..]).value;
    n, kind := first.0, first.1;
  }

  /** The items of a stream that starts with an extension item. */
  lemma ExtStep(data: bytes, pos: nat, n: nat, items: seq<SnapItem>)
    requires pos + n <= |data| && PinHandoff.Envelope(data[pos..]) == Some((n, PinHandoff.ExtItem))
    requires Items(data[pos..]) == Some(items)
    ensures Items(data[pos + n..]).Some? && items != [] && IsExt(items[0]) && items[1..] == Items(data[pos + n..]).value
  {
    hide Items, First, PinHandoff.Envelope;
    var s := data[pos..];
    ItemsStep(s);
    StepIs(s);
    assert s[n..] == data[pos + n..];
  }

  lemma {:induction false} ExtOnly(data: bytes, pos: nat, items: seq<SnapItem>)
    requires SegmentIndex.WellFormed(data, pos, SegmentIndex.InExt) && pos <= |data|
      && Items(data[pos..]) == Some(items)
    ensures forall x :: x in items ==> IsExt(x)
    decreases |data| - pos
  {
    hide Items, PinHandoff.Envelope, SegmentIndex.WellFormed, IsExt;
    if pos == |data| {
      NoItems(data[pos..]);
    } else {
      var n, kind := WellStep(data, pos, SegmentIndex.InExt);
      ExtStep(data, pos, n, items);
      ExtOnly(data, pos + n, items[1..]);
      assert items == [items[0]] + items[1..];
    }
  }

  lemma {:induction false} WellAfterRun(data: bytes, pos: nat, end: nat)
    requires end <= |data| && PinHandoff.IavlRun(data, pos, end)
      && SegmentIndex.WellFormed(data, pos, SegmentIndex.InStore)
    ensures SegmentIndex.WellFormed(data, end, SegmentIndex.InStore)
    decreases end - pos
  {
    hide PinHandoff.Envelope, SegmentIndex.Named;
    if pos < end {
      WellAfterRun(data, pos + PinHandoff.Envelope(data[pos..]).value.0, end);
    }
  }

  lemma WellAfterEntry(data: bytes, e: SegmentIndex.Entry, phase: SegmentIndex.Phase)
    requires SegmentIndex.EntryOk(data, e) && SegmentIndex.WellFormed(data, e.start, phase)
    ensures SegmentIndex.WellFormed(data, e.end, SegmentIndex.InStore)
  {
    hide PinHandoff.Envelope, SegmentIndex.Named, PinHandoff.IavlRun;
    WellAfterRun(data, e.start + PinHandoff.Envelope(data[e.start..]).value.0, e.end);
  }

  /** The phase in which entry k starts. */
  function PhaseAt(k: nat): SegmentIndex.Phase {
    if k == 0 then SegmentIndex.Begin else SegmentIndex.InStore
  }

  lemma {:induction false} WellAfterEntries(data: bytes, entries: seq<SegmentIndex.Entry>, next: nat, k: nat)
    requires SegmentIndex.Closed(data, entries, next) && k <= |entries|
      && SegmentIndex.WellFormed(data, 0, SegmentIndex.Begin)
    ensures SegmentIndex.WellFormed(data, StartOf(entries, k, next), PhaseAt(k))
  {
    hide SegmentIndex.EntryOk, SegmentIndex.WellFormed;
    if k > 0 {
      WellAfterEntries(data, entries, next, k - 1);
      assert SegmentIndex.EntryOk(data, entries[k - 1])
        && entries[k - 1].end == SegmentIndex.StartAfter(entries, k - 1, next);
      WellAfterEntry(data, entries[k - 1], PhaseAt(k - 1));
    }
  }

  /** Where the index says that the extensions start, there is nothing but extensions. */
  lemma TailIsExt(data: bytes, entries: seq<SegmentIndex.Entry>, next: nat, ext: seq<SnapItem>)
    requires SegmentIndex.Closed(data, entries, next) && SegmentIndex.WellFormed(data, 0, SegmentIndex.Begin)
    requires next == |data| || SegmentIndex.AtExtension(data, next)
    requires next <= |data| && Items(data[next..]) == Some(ext)
    ensures forall x :: x in ext ==> IsExt(x)
  {
    hide Items, PinHandoff.Envelope, SegmentIndex.WellFormed, SegmentIndex.Closed, IsExt;
    if next == |data| {
      NoItems(data[next..]);
    } else {
      WellAfterEntries(data, entries, next, |entries|);
      var n, kind := WellStep(data, next, PhaseAt(|entries|));
      ExtStep(data, next, n, ext);
      ExtOnly(data, next + n, ext[1..]);
      assert ext == [ext[0]] + ext[1..];
    }
  }

  lemma {:induction false} FlattenKinds(stores: seq<StoreNodes>)
    ensures forall x :: x in Flatten(stores) ==> !IsExt(x)
  {
    if stores != [] {
      NodeKinds(stores[0].nodes);
      FlattenKinds(stores[1..]);
    }
  }

  lemma {:induction false} NodeKinds(nodes: seq<ExportNode>)
    ensures forall x :: x in NodeItems(nodes) ==> x.IavlItem?
  {
    if nodes != [] {
      NodeKinds(nodes[1..]);
    }
  }

  lemma TailStarts(stores: seq<StoreNodes>, ext: seq<SnapItem>)
    requires MetaFirst(Flatten(stores) + ext) && forall x :: x in ext ==> IsExt(x)
    ensures ExtTail(ext)
  {
    var flat := Flatten(stores);
    var items, k := flat + ext, |flat|;
    FlattenKinds(stores);
    assert k > 0 ==> items[k - 1] == flat[k - 1] && flat[k - 1] in flat;
    assert ext != [] ==> items[k] == ext[0] && ext[0] in ext;
  }

  // ---------- names ----------

  /** The names of the store items in stream order. */
  function StoreNames(items: seq<SnapItem>): seq<bytes> {
    if items == [] then []
    else if items[0].StoreItem? then [items[0].name] + StoreNames(items[1..])
    else StoreNames(items[1..])
  }

  /** Store names hold no slash, and no two stores share one. */
  predicate GoodNames(names: seq<bytes>) {
    && (forall n :: n in names ==> SLASH !in n)
    && (forall i, j :: 0 <= i < j < |names| ==> names[i] != names[j])
  }

  lemma {:induction false} NodesHaveNoNames(nodes: seq<ExportNode>, rest: seq<SnapItem>)
    ensures StoreNames(NodeItems(nodes) + rest) == StoreNames(rest)
  {
    var items := NodeItems(nodes) + rest;
    if nodes == [] {
      assert items == rest;
    } else {
      assert items[1..] == NodeItems(nodes[1..]) + rest;
      NodesHaveNoNames(nodes[1..], rest);
    }
  }

  lemma {:induction false} ExtHasNoNames(ext: seq<SnapItem>)
    requires forall x :: x in ext ==> IsExt(x)
    ensures StoreNames(ext) == []
  {
    if ext != [] {
      assert ext[0] in ext;
      ExtHasNoNames(ext[1..]);
    }
  }

  lemma SegmentName(s: StoreNodes, rest: seq<SnapItem>)
    ensures StoreNames(SegmentItems(s) + rest) == [s.name] + StoreNames(rest)
  {
    hide NodeItems;
    var items := SegmentItems(s) + rest;
    assert items[0] == StoreItem(s.name) && items[1..] == NodeItems(s.nodes) + rest;
    NodesHaveNoNames(s.nodes, rest);
  }

  lemma {:induction false} NamesOfStores(stores: seq<StoreNodes>, ext: seq<SnapItem>)
    requires forall x :: x in ext ==> IsExt(x)
    ensures var names := StoreNames(Flatten(stores) + ext);
            |names| == |stores| && forall k :: 0 <= k < |stores| ==> names[k] == stores[k].name
  {
    hide StoreNames, SegmentItems, IsExt;
    if stores == [] {
      assert [] + ext == ext;
      ExtHasNoNames(ext);
    } else {
      var rest := Flatten(stores[1..]) + ext;
      FlattenFirst(stores, ext);
      SegmentName(stores[0], rest);
      NamesOfStores(stores[1..], ext);
    }
  }

  lemma FlattenFirst(stores: seq<StoreNodes>, ext: seq<SnapItem>)
    requires stores != []
    ensures Flatten(stores) + ext == SegmentItems(stores[0]) + (Flatten(stores[1..]) + ext)
  {
    hide SegmentItems;
  }

  lemma {:induction false} StreamsAt(stores: seq<StoreNodes>)
    ensures |StreamsOf(stores)| == |stores| && forall k :: 0 <= k < |stores| ==>
      StreamsOf(stores)[k] == StreamOf(stores[k])
  {
    if stores != [] {
      StreamsAt(stores[1..]);
    }
  }

  lemma NamesAreGood(stores: seq<StoreNodes>, ext: seq<SnapItem>)
    requires (forall x :: x in ext ==> IsExt(x)) && GoodNames(StoreNames(Flatten(stores) + ext))
    ensures Nameable(StreamsOf(stores))
  {
    var names, streams := StoreNames(Flatten(stores) + ext), StreamsOf(stores);
    hide StoreNames, Flatten, StreamsOf, Extend;
    NamesOfStores(stores, ext);
    StreamsAt(stores);
    forall s | s in streams ensures SLASH !in s.name {
      var k :| 0 <= k < |streams| && streams[k] == s;
      assert names[k] in names;
    }
    forall i, j | 0 <= i < j < |streams| ensures streams[i].name != streams[j].name {
      assert names[i] != names[j];
    }
  }

  // ---------- what a worker finds ----------

  /** The worker of an entry decodes its store's items first, then what follows the segment. */
  ghost predicate Ready(data: bytes, e: SegmentIndex.Entry, s: StoreNodes) {
    && e.start <= |data| && s.name == e.name
    && exists rest :: Follows(data, e, s, rest)
  }

  predicate Follows(data: bytes, e: SegmentIndex.Entry, s: StoreNodes, rest: seq<SnapItem>)
    requires e.start <= |data|
  {
    && Items(data[e.start..]) == Some(SegmentItems(s) + rest)
    && (rest == [] || !rest[0].IavlItem?)
  }

  /** The stores and extensions that a stream and its index describe. */
  lemma {:induction false} Decoded(data: bytes, entries: seq<SegmentIndex.Entry>, next: nat, k: nat,
                                   items: seq<SnapItem>,
                                   stores: seq<StoreNodes>, ext: seq<SnapItem>)
    requires SegmentIndex.Closed(data, entries, next) && next <= |data| && ExtTail(ext)
    requires StoresAre(data, entries, k, stores) && Items(data[next..]) == Some(ext)
    requires StartOf(entries, k, next) <= |data| && Items(data[StartOf(entries, k, next)..]) == Some(items)
    requires items == Flatten(stores) + ext
    ensures forall j :: 0 <= j < |stores| ==> Ready(data, entries[k + j], stores[j])
    decreases |entries| - k
  {
    hide Items, NodeItems, SegmentIndex.EntryOk, Flatten, SegmentItems, Ready, StoreIs,
      ExtTail, Follows;
    if k < |entries| {
      var s, rest, e := stores[0], Flatten(stores[1..]) + ext, entries[k];
      assert SegmentIndex.EntryOk(data, e) && e.end == SegmentIndex.StartAfter(entries, k, next);
      assert StoreIs(data, entries[k + 0], stores[0]);
      FlattenFirst(stores, ext);
      RestStarts(stores[1..], ext);
      EntryReady(data, e, s, rest);
      assert stores[1..] == stores[1..] && |stores[1..]| == |entries| - (k + 1);
      forall j | 0 <= j < |stores[1..]| ensures StoreIs(data, entries[k + 1 + j], stores[1..][j]) {
        assert StoreIs(data, entries[k + (j + 1)], stores[j + 1]);
      }
      Decoded(data, entries, next, k + 1, rest, stores[1..], ext);
      forall j | 0 <= j < |stores| ensures Ready(data, entries[k + j], stores[j]) {
        if j > 0 {
          assert Ready(data, entries[k + 1 + (j - 1)], stores[1..][j - 1]);
        }
      }
    }
  }

  lemma EntryReady(data: bytes, e: SegmentIndex.Entry, s: StoreNodes, rest: seq<SnapItem>)
    requires SegmentIndex.EntryOk(data, e) && StoreIs(data, e, s)
      && Items(data[e.start..]) == Some(SegmentItems(s) + rest)
    requires rest == [] || !rest[0].IavlItem?
    ensures Ready(data, e, s) && e.start < e.end <= |data| && Items(data[e.end..]) == Some(rest)
  {
    hide Items, NodeItems, SegmentItems;
    SpanOf(data, e);
    var s', rest' := SegmentDecodes(data, e, SegmentItems(s) + rest);
    SameSegment(s, s', rest, rest');
    assert Follows(data, e, s, rest);
  }

  /** The decoded range and the decoded tail agree on the store. */
  lemma SameSegment(s: StoreNodes, t: StoreNodes, rest: seq<SnapItem>, rest': seq<SnapItem>)
    requires SegmentItems(s) == SegmentItems(t) && SegmentItems(s) + rest == SegmentItems(t) + rest'
    ensures rest == rest'
  {
    var n := |SegmentItems(s)|;
    assert rest == (SegmentItems(s) + rest)[n..] == (SegmentItems(t) + rest')[n..] == rest';
  }

  // ---------- the workers ----------

  predicate IsPermutation(order: seq<nat>, n: nat) {
    && |order| == n && (forall i :: 0 <= i < n ==> order[i] < n)
    && (forall i, j :: 0 <= i < j < n ==> order[i] != order[j])
    && (forall k: nat :: k < n ==> k in order)
  }

  function Pick(streams: seq<StoreStream>, order: seq<nat>): seq<StoreStream>
    requires forall i :: 0 <= i < |order| ==> order[i] < |streams|
  {
    if order == [] then [] else [streams[order[0]]] + Pick(streams, order[1..])
  }

  lemma {:induction false} PickAt(streams: seq<StoreStream>, order: seq<nat>)
    requires forall i :: 0 <= i < |order| ==> order[i] < |streams|
    ensures |Pick(streams, order)| == |order| && forall i :: 0 <= i < |order| ==>
      Pick(streams, order)[i] == streams[order[i]]
  {
    if order != [] {
      PickAt(streams, order[1..]);
    }
  }

  lemma PickIsSame(streams: seq<StoreStream>, order: seq<nat>)
    requires Nameable(streams) && IsPermutation(order, |streams|)
    ensures Nameable(Pick(streams, order)) && forall s :: s in streams <==> s in Pick(streams, order)
  {
    var picked := Pick(streams, order);
    PickAt(streams, order);
    hide Pick;
    forall s | s in streams ensures s in picked {
      var k :| 0 <= k < |streams| && streams[k] == s;
      assert k in order;
      var i :| 0 <= i < |order| && order[i] == k;
      assert picked[i] == s;
    }
    forall s | s in picked ensures s in streams {
      var i :| 0 <= i < |picked| && picked[i] == s;
      assert streams[order[i]] == s;
    }
    forall i, j | 0 <= i < j < |picked| ensures picked[i].name != picked[j].name {
      assert order[i] != order[j];
      assert picked[i] == streams[order[i]] && picked[j] == streams[order[j]];
    }
  }

  function Onto(done: seq<StoreInfo>, r: Option<(seq<StoreInfo>, Entries)>): Option<(seq<StoreInfo>, Entries)> {
    match r
    case None => None
    case Some((more, last)) => Some((done + more, last))
  }

  /** One worker: it decodes from its entry's start and imports up to the boundary. */
  method ImportEntry(sha: Sha, height: int64, data: bytes, e: SegmentIndex.Entry, db: Database, ghost s: StoreNodes)
    returns (info: Option<StoreInfo>)
    requires Ready(data, e, s)
    modifies db
    ensures match Finished(sha, StorePrefix(s.name), height, StreamOf(s).items, old(db.entries))
            case None => info == None
            case Some((hash, last)) => info == Some(CommitInfo.StoreInfo(s.name, hash)) && db.entries == last
    ensures info.Some? ==> db.log == old(db.log) + WritesOf(sha, height, StreamOf(s))
  {
    hide Items, Finished, NodeItems, Extend, WritesOf, SegmentWrites;
    ghost var rest :| Follows(data, e, s, rest);
    var items := ReadAll(data[e.start..]);
    assert items.value[1..] == NodeItems(s.nodes) + rest;
    SegmentIsStore(sha, height, s, rest, db.entries);
    SegmentCalls(sha, height, s, rest);
    info := ImportSegment(sha, height, e.name, items.value, db);
  }

  /** The workers, one after the other in the given order. A worker that fails does not stop the others, but its
      failure is the import's. */
  method ImportEntries(sha: Sha, height: int64, data: bytes, entries: seq<SegmentIndex.Entry>, order: seq<nat>,
                       db: Database,
                       ghost stores: seq<StoreNodes>) returns (infos: Option<seq<StoreInfo>>)
    requires |stores| == |entries| && forall k :: 0 <= k < |entries| ==> Ready(data, entries[k], stores[k])
    requires forall i :: 0 <= i < |order| ==> order[i] < |StreamsOf(stores)| == |stores|
    modifies db
    ensures match ImportAll(sha, height, Pick(StreamsOf(stores), order), old(db.entries))
            case None => infos == None
            case Some((all, last)) => infos == Some(all) && db.entries == last
  {
    hide Ready, Finished, StreamsOf, Extend;
    StreamsAt(stores);
    ghost var streams := StreamsOf(stores);
    ghost var result := ImportAll(sha, height, Pick(streams, order), db.entries);
    var done: seq<StoreInfo> := [];
    var failed := false;
    assert order[0..] == order;
    AfterNothing(result);
    for i := 0 to |order|
      invariant result == if failed then None
        else Onto(done, ImportAll(sha, height, Pick(streams, order[i..]), db.entries))
    {
      var k := order[i];
      ghost var left := Pick(streams, order[i..]);
      assert order[i..][0] == k && order[i..][1..] == order[i + 1..];
      assert left[0] == StreamOf(stores[k]) && left[1..] == Pick(streams, order[i + 1..]);
      var info := ImportEntry(sha, height, data, entries[k], db, stores[k]);
      if info.None? {
        failed := true;
        continue;
      }
      AfterMore(done, info.value, ImportAll(sha, height, left[1..], db.entries));
      done := done + [info.value];
    }
    assert order[|order|..] == [];
    assert done + [] == done;
    infos := if failed then None else Some(done);
  }

  lemma AfterNothing(r: Option<(seq<StoreInfo>, Entries)>)
    ensures Onto([], r) == r
  {
    if r.Some? {
      assert [] + r.value.0 == r.value.0;
    }
  }

  lemma AfterMore(done: seq<StoreInfo>, x: StoreInfo, r: Option<(seq<StoreInfo>, Entries)>)
    ensures Onto(done, Onto([x], r)) == Onto(done + [x], r)
  {
    if r.Some? {
      assert done + ([x] + r.value.0) == done + [x] + r.value.0;
    }
  }

  // ---------- the results ----------

  /** The infos are those of the stores, in order. */
  ghost predicate InfosAre(sha: Sha, height: int64, stores: seq<StoreStream>, infos: seq<StoreInfo>) {
    && |infos| == |stores|
    && forall i :: 0 <= i < |stores| ==> InfoIs(sha, height, stores[i], infos[i])
  }

  ghost predicate InfoIs(sha: Sha, height: int64, s: StoreStream, info: StoreInfo) {
    var f := Finished(sha, StorePrefix(s.name), height, s.items, map[]);
    f.Some? && info == CommitInfo.StoreInfo(s.name, f.value.0)
  }

  lemma {:induction false} InfosOf(sha: Sha, height: int64, stores: seq<StoreStream>, db: Entries)
    ensures var r := ImportAll(sha, height, stores, db); r.Some? ==> InfosAre(sha, height, stores, r.value.0)
  {
    hide Finished, StorePrefix;
    if stores != [] {
      var s := stores[0];
      FinishedAdds(sha, height, s, db);
      var f := Finished(sha, StorePrefix(s.name), height, s.items, db);
      if f.Some? {
        InfosOf(sha, height, stores[1..], f.value.1);
        var r := ImportAll(sha, height, stores[1..], f.value.1);
        if r.Some? {
          var infos := [CommitInfo.StoreInfo(s.name, f.value.0)] + r.value.0;
          forall i | 0 <= i < |stores| ensures InfoIs(sha, height, stores[i], infos[i]) {
            if i > 0 {
              assert InfoIs(sha, height, stores[1..][i - 1], r.value.0[i - 1]);
            }
          }
        }
      }
    }
  }

  lemma NoTwice<T>(a: seq<T>, b: seq<T>)
    requires forall i, j :: 0 <= i < j < |a| ==> a[i] != a[j]
    requires forall i, j :: 0 <= i < j < |b| ==> b[i] != b[j]
    requires forall x :: x in a <==> x in b
    ensures multiset(a) == multiset(b)
  {
    forall x ensures multiset(a)[x] == multiset(b)[x] {
      AtMostOne(a, x);
      AtMostOne(b, x);
      assert x in a <==> x in multiset(a);
      assert x in b <==> x in multiset(b);
    }
  }

  lemma {:induction false} AtMostOne<T>(a: seq<T>, x: T)
    requires forall i, j :: 0 <= i < j < |a| ==> a[i] != a[j]
    ensures multiset(a)[x] <= 1
  {
    if a != [] {
      assert a == [a[0]] + a[1..];
      AtMostOne(a[1..], x);
      forall i | 0 <= i < |a[1..]| ensures a[1..][i] != a[0] {
        assert a[0] != a[i + 1];
      }
      assert a[0] !in a[1..];
    }
  }

  /** The same stores in two orders report the same infos. */
  lemma SameInfos(sha: Sha, height: int64, a: seq<StoreStream>, b: seq<StoreStream>, x: seq<StoreInfo>,
                  y: seq<StoreInfo>)
    requires Nameable(a) && Nameable(b) && forall s :: s in a <==> s in b
    requires InfosAre(sha, height, a, x) && InfosAre(sha, height, b, y)
    ensures multiset(x) == multiset(y)
  {
    hide Finished, StorePrefix;
    InfosIn(sha, height, a, b, x, y);
    InfosIn(sha, height, b, a, y, x);
    InfosApart(sha, height, a, x);
    InfosApart(sha, height, b, y);
    NoTwice(x, y);
  }

  lemma InfosIn(sha: Sha, height: int64, a: seq<StoreStream>, b: seq<StoreStream>, x: seq<StoreInfo>, y: seq<StoreInfo>)
    requires (forall s :: s in a ==> s in b) && InfosAre(sha, height, a, x) && InfosAre(sha, height, b, y)
    ensures forall info :: info in x ==> info in y
  {
    hide Finished, StorePrefix;
    forall info | info in x ensures info in y {
      var i :| 0 <= i < |x| && x[i] == info;
      assert InfoIs(sha, height, a[i], x[i]) && a[i] in b;
      var j :| 0 <= j < |b| && b[j] == a[i];
      assert InfoIs(sha, height, b[j], y[j]);
    }
  }

  lemma InfosApart(sha: Sha, height: int64, a: seq<StoreStream>, x: seq<StoreInfo>)
    requires Nameable(a) && InfosAre(sha, height, a, x)
    ensures forall i, j :: 0 <= i < j < |x| ==> x[i] != x[j] && x[i].name != x[j].name
  {
    hide Finished, StorePrefix;
    forall i, j | 0 <= i < j < |x| ensures x[i] != x[j] && x[i].name != x[j].name {
      assert InfoIs(sha, height, a[i], x[i]) && InfoIs(sha, height, a[j], x[j]);
    }
  }

  // ---------- the main theorem ----------

  /** A snapshot: stores with distinct names without slashes, then extensions that begin with a meta item. */
  ghost predicate Snapshot(data: bytes) {
    && SegmentIndex.WellFormed(data, 0, SegmentIndex.Begin) && Items(data).Some?
    && MetaFirst(Items(data).value) && GoodNames(StoreNames(Items(data).value))
  }

  /** What the index of a snapshot tells about its items. */
  lemma IndexedSnapshot(data: bytes, entries: seq<SegmentIndex.Entry>, next: nat)
    returns (stores: seq<StoreNodes>, ext: seq<SnapItem>)
    requires Snapshot(data) && SegmentIndex.Closed(data, entries, next) && next <= |data|
    requires next == |data| || SegmentIndex.AtExtension(data, next)
    ensures Items(data).value == Flatten(stores) + ext && ExtTail(ext) && Nameable(StreamsOf(stores))
    ensures |stores| == |entries| && forall k :: 0 <= k < |entries| ==> Ready(data, entries[k], stores[k])
  {
    hide Items, SegmentIndex.WellFormed, SegmentIndex.AtExtension, SegmentIndex.EntryOk, StoreNames, Ready,
      Flatten, StreamsOf, Nameable, MetaFirst, GoodNames, ExtTail, IsExt, StoreIs;
    assert data[0..] == data;
    stores, ext := EntriesDecode(data, entries, next, 0, Items(data).value);
    TailIsExt(data, entries, next, ext);
    TailStarts(stores, ext);
    NamesAreGood(stores, ext);
    Decoded(data, entries, next, 0, Items(data).value, stores, ext);
    forall k | 0 <= k < |entries| ensures Ready(data, entries[k], stores[k]) {
      assert Ready(data, entries[0 + k], stores[k]);
    }
  }

  /** The result of the flat pass, as the stores' import. */
  lemma FlatResult(sha: Sha, height: int64, db: Entries, stores: seq<StoreNodes>, ext: seq<SnapItem>)
    requires ExtTail(ext)
    ensures var r := PassFrom(sha, height, Pass(None, db, []), Flatten(stores) + ext);
            var t := ImportAll(sha, height, StreamsOf(stores), db);
            && r.None? == t.None? && (r.Some? ==> r.value.infos == t.value.0 && r.value.base == t.value.1)
  {
    hide PassFrom, ImportAll, Flatten, StreamsOf;
    PassIsImportAll(sha, height, db, [], stores, ext);
    var t := ImportAll(sha, height, StreamsOf(stores), db);
    if t.Some? {
      assert [] + t.value.0 == t.value.0;
    }
  }

  /** Cutting a snapshot by its index and importing the segments in any order is importing it in one pass: the same
      database, the same stores with the same hashes, and it fails exactly when the flat import fails. */
  method ImportByIndex(sha: Sha, height: int64, scanner: Scanner, db: Database, schedule: nat -> seq<nat>)
    returns (infos: Option<seq<StoreInfo>>)
    requires scanner.Valid() && scanner.pos == 0 && Snapshot(scanner.src.data)
    requires forall n :: IsPermutation(schedule(n), n)
    modifies scanner, scanner.buf, scanner.src, db
    ensures var r := PassFrom(sha, height, Pass(None, old(db.entries), []), Items(scanner.src.data).value);
            if r.None? then infos == None
            else infos.Some? && multiset(infos.value) == multiset(r.value.infos) && db.entries == r.value.base
  {
    hide Items, Scanner.Valid, Scanner.Rest, SegmentIndex.Closed, SegmentIndex.WellFormed, SegmentIndex.AtExtension,
      Ready, Flatten, StreamsOf, Pick, ImportAll, PassFrom, Nameable, InfosAre, ExtTail, StoreNames,
      MetaFirst, GoodNames;
    var data := scanner.src.data;
    ghost var before := db.entries;
    var entries, extStart := SegmentIndex.BuildIndex(scanner);
    ghost var stores, ext := IndexedSnapshot(data, entries, extStart);
    ghost var streams := StreamsOf(stores);
    StreamsAt(stores);
    var order := schedule(|entries|);
    assert IsPermutation(order, |streams|);
    FlatResult(sha, height, before, stores, ext);
    PickIsSame(streams, order);
    OrderDoesNotMatter(sha, height, streams, Pick(streams, order), before);
    infos := ImportEntries(sha, height, data, entries, order, db, stores);
    if infos.Some? {
      InfosOf(sha, height, streams, before);
      InfosOf(sha, height, Pick(streams, order), before);
      SameInfos(sha, height, streams, Pick(streams, order), ImportAll(sha, height, streams, before).value.0,
        infos.value);
    }
  }
}
