/** From the stream to the app hash: after the stores, either import writes the commit-info record and the latest
    version; the verifier reads the record and hashes it. Whichever import ran, it computes the app hash of the
    stream's stores. */
module CommitRecord {
  import opened Bytes
  import opened Proto
  import opened IavlEncoding
  import opened IavlTree
  import opened StoreImporter
  import opened SnapshotImport
  import opened Segmentation
  import opened SnapReader
  import opened SegmentedImport
  import opened Hashing = AppHash
  import IndexScanner
  import SegmentIndex
  import Commit = CommitInfo

  // ---------- the two records ----------

  /** "s/<height>" */
  function CommitInfoKey(height: int64): bytes {
    [115, 47] + Decimal(height)
  }

  /** "s/latest" */
  const LATEST_KEY: bytes := [115, 47, 108, 97, 116, 101, 115, 116]

  function Recorded(height: int64, infos: seq<StoreInfo>, db: IavlTree.Entries): IavlTree.Entries {
    db[CommitInfoKey(height) := Commit.Encoded(height, infos)][LATEST_KEY := VarintField(1, U64(height))]
  }

  method WriteRecords(height: int64, infos: seq<StoreInfo>, db: Database)
    modifies db
    ensures db.entries == Recorded(height, infos, old(db.entries))
  {
    var record := Commit.CommitInfoBytes(height, infos);
    db.Set(CommitInfoKey(height), record);
    db.Set(LATEST_KEY, VarintField(1, U64(height)));
  }

  /** What the daemon reads from the record of the latest version. */
  function ReadLatest(s: bytes): int64 {
    Commit.Int64(FindVarint(s, 1))
  }

  /** The daemon finds the latest version, and under it that version's stores with their hashes. */
  ghost predicate DaemonSees(height: int64, infos: seq<StoreInfo>, db: IavlTree.Entries) {
    && LATEST_KEY in db && ReadLatest(db[LATEST_KEY]) == height
    && CommitInfoKey(height) in db
    && Commit.ReadRecord(db[CommitInfoKey(height)], Commit.Record(0, []))
       == Some(Commit.Record(height, Commit.Commits(height, infos)))
  }

  lemma RecordsRead(height: int64, infos: seq<StoreInfo>, db: IavlTree.Entries)
    requires |Commit.Encoded(height, infos)| < TWO_64
    ensures DaemonSees(height, infos, Recorded(height, infos, db))
  {
    hide Commit.Encoded, Commit.ReadRecord, Commit.Int64, CommitInfoKey, VarintField, FindVarint;
    RecordsOutside([], height);
    Commit.DaemonReads(height, infos);
    Commit.SignedAgain(height);
    FindVarintFirst(1, U64(height), []);
    assert VarintField(1, U64(height)) + [] == VarintField(1, U64(height));
  }

  /** The key of a record ends with the decimal digits of its height. */
  lemma KeyNamesHeight(height: int64)
    ensures |CommitInfoKey(height)| > 2 && CommitInfoKey(height)[..2] == [115, 47]
    ensures FromDecimal(CommitInfoKey(height)[2..]) == height
  {
    hide Decimal, FromDecimal;
    DecimalReads(height);
    assert CommitInfoKey(height)[2..] == Decimal(height);
  }

  lemma {:induction false} DigitsStart(n: nat)
    ensures Digits(n) != [] && 48 <= Digits(n)[0] < 58
  {
    if n >= 10 {
      DigitsStart(n / 10);
    }
  }

  /** Both records lie outside every store, and apart. */
  lemma RecordsOutside(name: bytes, height: int64)
    ensures !Under(StorePrefix(name), CommitInfoKey(height)) && !Under(StorePrefix(name), LATEST_KEY)
    ensures CommitInfoKey(height) != LATEST_KEY
  {
    hide Digits;
    var n: int := height;
    DigitsStart(if n < 0 then -n else n);
    var key, prefix := CommitInfoKey(height), StorePrefix(name);
    assert key[2] == Decimal(height)[0] < 107 == prefix[2] && LATEST_KEY[2] == 108;
  }

  /** No entry of a store is touched by the records. */
  lemma StoresKept(height: int64, infos: seq<StoreInfo>, db: IavlTree.Entries, name: bytes, key: bytes)
    requires Under(StorePrefix(name), key)
    ensures key in Recorded(height, infos, db) <==> key in db
    ensures key in db ==> Recorded(height, infos, db)[key] == db[key]
  {
    hide CommitInfoKey, Under, StorePrefix;
    RecordsOutside(name, height);
  }

  // ---------- what the verifier reads ----------

  function Read(height: int64, db: IavlTree.Entries): Commit.Outcome<seq<StoreInfo>> {
    if CommitInfoKey(height) !in db then Commit.Bad else Commit.StoreInfosOf(db[CommitInfoKey(height)], 0, [])
  }

  predicate Readable(height: int64, db: IavlTree.Entries) {
    CommitInfoKey(height) in db ==> |db[CommitInfoKey(height)]| < Commit.TWO_63
  }

  lemma ReadsBack(height: int64, infos: seq<StoreInfo>, db: IavlTree.Entries)
    requires |Commit.Encoded(height, infos)| < Commit.TWO_63
    ensures Readable(height, Recorded(height, infos, db))
      && Read(height, Recorded(height, infos, db)) == Commit.Done(infos)
  {
    hide Commit.Encoded, CommitInfoKey, Commit.StoreInfosOf;
    RecordsOutside([], height);
    Commit.CommitInfoRoundTrip(height, infos);
  }

  method ReadCommitInfo(height: int64, db: Database) returns (r: Commit.Outcome<seq<StoreInfo>>)
    requires Readable(height, db.entries)
    ensures r == Read(height, db.entries)
  {
    var key := CommitInfoKey(height);
    if key !in db.entries {
      return Commit.Bad;
    }
    r := Commit.ParseCommitInfo(db.entries[key]);
  }

  /** The app hash of the database at a height. */
  method LocalAppHash(sha: Sha, height: int64, db: Database) returns (r: Commit.Outcome<Hash32>)
    requires Readable(height, db.entries)
    ensures match Read(height, db.entries)
            case Bad => r == Commit.Bad
            case Panic => r == Commit.Panic
            case Done(infos) => r.Done? && (OneStoreAName(infos) ==> r.value == AppHash(sha, infos))
  {
    hide Read, AppHash;
    var infos := ReadCommitInfo(height, db);
    match infos {
      case Bad => return Commit.Bad;
      case Panic => return Commit.Panic;
      case Done(all) =>
        var a := new StoreInfo[|all|](i requires 0 <= i < |all| => all[i]);
        assert a[..] == all;
        var hash := ComputeAppHash(sha, a);
        r := Commit.Done(hash);
    }
  }

  // ---------- the names in the record ----------

  function Names(infos: seq<StoreInfo>): (r: seq<bytes>)
    ensures |r| == |infos| && forall i :: 0 <= i < |r| ==> r[i] == infos[i].name
  {
    seq(|infos|, i requires 0 <= i < |infos| => infos[i].name)
  }

  /** The stores of a pass: those closed, and the open one. */
  function PassNames(p: Pass): seq<bytes> {
    Names(p.infos) + if p.current.Some? then [p.current.value.name] else []
  }

  lemma ClosedNames(sha: Sha, height: int64, p: Pass)
    ensures var q := CloseCurrent(sha, height, p); q.Some? ==> PassNames(q.value) == PassNames(p)
  {
    hide Finished, StorePrefix;
  }

  lemma StepNames(sha: Sha, height: int64, p: Pass, x: SnapItem)
    ensures var q := PassStep(sha, height, p, x);
            q.Some? ==> PassNames(q.value) == PassNames(p) + if x.StoreItem? then [x.name] else []
  {
    hide Parse, CloseCurrent;
    ClosedNames(sha, height, p);
  }

  /** A pass that succeeds reports one store for each store item, in order. */
  lemma {:induction false} NamesReported(sha: Sha, height: int64, p: Pass, items: seq<SnapItem>)
    ensures var r := PassFrom(sha, height, p, items); r.Some? ==> PassNames(r.value) == PassNames(p) + StoreNames(items)
    decreases |items|
  {
    hide PassStep, CloseCurrent, PassNames;
    if items == [] {
      ClosedNames(sha, height, p);
      assert PassNames(p) + [] == PassNames(p);
    } else {
      var q := PassStep(sha, height, p, items[0]);
      StepNames(sha, height, p, items[0]);
      if q.Some? {
        NamesReported(sha, height, q.value, items[1..]);
      }
    }
  }

  lemma OneStoreEach(sha: Sha, height: int64, db: IavlTree.Entries, items: seq<SnapItem>)
    requires GoodNames(StoreNames(items))
    ensures var r := PassFrom(sha, height, Pass(None, db, []), items); r.Some? ==> OneStoreAName(r.value.infos)
  {
    hide PassFrom, StoreNames, OneStoreAName;
    var p := Pass(None, db, []);
    var r := PassFrom(sha, height, p, items);
    NamesReported(sha, height, p, items);
    if r.Some? {
      ClosedAtEnd(sha, height, p, items);
      assert PassNames(p) == [] && [] + StoreNames(items) == StoreNames(items);
      assert Names(r.value.infos) == StoreNames(items);
      DistinctNames(r.value.infos);
    }
  }

  lemma {:induction false} ClosedAtEnd(sha: Sha, height: int64, p: Pass, items: seq<SnapItem>)
    ensures var r := PassFrom(sha, height, p, items); r.Some? ==> r.value.current.None?
    decreases |items|
  {
    hide PassStep, CloseCurrent;
    if items != [] {
      var q := PassStep(sha, height, p, items[0]);
      if q.Some? {
        ClosedAtEnd(sha, height, q.value, items[1..]);
      }
    }
  }

  // ---------- the record of the sorted stores ----------

  lemma {:induction false} FieldsOfConcat(version: int64, a: seq<StoreInfo>, b: seq<StoreInfo>)
    ensures Commit.StoreFields(version, a + b) == Commit.StoreFields(version, a) + Commit.StoreFields(version, b)
  {
    hide BytesField;
    if a == [] {
      assert a + b == b;
    } else {
      assert (a + b)[0] == a[0] && (a + b)[1..] == a[1..] + b;
      FieldsOfConcat(version, a[1..], b);
    }
  }

  function Without<T>(s: seq<T>, i: nat): seq<T>
    requires i < |s|
  {
    s[..i] + s[i + 1..]
  }

  lemma WithoutOne<T>(s: seq<T>, i: nat)
    requires i < |s|
    ensures multiset(Without(s, i)) == multiset(s) - multiset{s[i]} && |Without(s, i)| == |s| - 1
  {
    assert s == s[..i] + ([s[i]] + s[i + 1..]);
  }

  lemma LengthWithout(version: int64, s: seq<StoreInfo>, i: nat)
    requires i < |s|
    ensures |Commit.StoreFields(version, s)|
      == |Commit.StoreFields(version, [s[i]])| + |Commit.StoreFields(version, Without(s, i))|
  {
    hide Commit.StoreFields;
    assert s == s[..i] + ([s[i]] + s[i + 1..]);
    FieldsOfConcat(version, s[..i], [s[i]] + s[i + 1..]);
    FieldsOfConcat(version, [s[i]], s[i + 1..]);
    FieldsOfConcat(version, s[..i], s[i + 1..]);
  }

  /** The record has the same length in whatever order the stores are written. */
  lemma {:induction false} SameLength(version: int64, a: seq<StoreInfo>, b: seq<StoreInfo>)
    requires multiset(a) == multiset(b)
    ensures |Commit.StoreFields(version, a)| == |Commit.StoreFields(version, b)|
    decreases |a|
  {
    hide Commit.StoreFields, Without;
    assert |a| == |multiset(a)| == |multiset(b)| == |b|;
    if a != [] {
      assert a[0] in multiset(b);
      var i :| 0 <= i < |b| && b[i] == a[0];
      WithoutOne(a, 0);
      WithoutOne(b, i);
      LengthWithout(version, a, 0);
      LengthWithout(version, b, i);
      SameLength(version, Without(a, 0), Without(b, i));
    }
  }

  /** Sorting by name forgets the order in which the workers finished. */
  lemma SortedAgree(a: seq<StoreInfo>, b: seq<StoreInfo>)
    requires OneStoreAName(a) && multiset(a) == multiset(b)
    ensures OneStoreAName(Sorted(a)) && forall s :: ByName(s) && multiset(s) == multiset(b) ==> s == Sorted(a)
  {
    hide ByName, OneStoreAName, Sorted;
    SortedByName(a);
    SameNames(a, Sorted(a));
    forall s | ByName(s) && multiset(s) == multiset(b) ensures s == Sorted(a) {
      NameOrderUnique(Sorted(a), s);
    }
  }

  // ---------- the two imports ----------

  /** The sequential import: stores and extensions, then the records, with the stores in stream order. */
  method ImportFlat(sha: Sha, height: int64, items: seq<SnapItem>, db: Database) returns (infos: Option<seq<StoreInfo>>)
    modifies db
    ensures var r := PassFrom(sha, height, Pass(None, old(db.entries), []), items);
            if r.None? then infos == None
            else infos == Some(r.value.infos) && db.entries == Recorded(height, r.value.infos, r.value.base)
    ensures infos.Some? && |Commit.Encoded(height, infos.value)| < TWO_64 ==>
      DaemonSees(height, infos.value, db.entries)
  {
    hide PassFrom, Recorded, DaemonSees;
    infos := RunImport(sha, height, items, db);
    if infos.Some? {
      if |Commit.Encoded(height, infos.value)| < TWO_64 {
        RecordsRead(height, infos.value, db.entries);
      }
      WriteRecords(height, infos.value, db);
    }
  }

  /** The parallel import: the same database but for the order of the stores in the record, which is by name here. */
  method ImportParallel(sha: Sha, height: int64, scanner: IndexScanner.Scanner, db: Database, schedule: nat -> seq<nat>)
    returns (infos: Option<seq<StoreInfo>>)
    requires scanner.Valid() && scanner.pos == 0 && Snapshot(scanner.src.data)
    requires forall n :: IsPermutation(schedule(n), n)
    modifies scanner, scanner.buf, scanner.src, db
    ensures var r := PassFrom(sha, height, Pass(None, old(db.entries), []), Items(scanner.src.data).value);
            if r.None? then infos == None
            else
              && infos == Some(Sorted(r.value.infos))
              && db.entries == Recorded(height, Sorted(r.value.infos), r.value.base)
    ensures infos.Some? && |Commit.Encoded(height, infos.value)| < TWO_64 ==>
      DaemonSees(height, infos.value, db.entries)
  {
    hide Items, PassFrom, Recorded, DaemonSees, IndexScanner.Scanner.Valid, Sorted, ByName, OneStoreAName, GoodNames;
    ghost var items := Items(scanner.src.data).value;
    OneStoreEach(sha, height, db.entries, items);
    ghost var r := PassFrom(sha, height, Pass(None, db.entries, []), items);
    infos := ImportByIndex(sha, height, scanner, db, schedule);
    if infos.Some? {
      var done := infos.value;
      var a := new StoreInfo[|done|](i requires 0 <= i < |done| => done[i]);
      assert a[..] == done;
      SortStores(a);
      SortedAgree(r.value.infos, done);
      if |Commit.Encoded(height, a[..])| < TWO_64 {
        RecordsRead(height, a[..], db.entries);
      }
      WriteRecords(height, a[..], db);
      infos := Some(a[..]);
    }
  }

  // ---------- the main theorem ----------

  /** The stores of a snapshot, as one pass over it reports them. */
  function StoresOf(sha: Sha, height: int64, data: bytes, db: IavlTree.Entries): Option<seq<StoreInfo>>
    requires Items(data).Some?
  {
    match PassFrom(sha, height, Pass(None, db, []), Items(data).value)
    case None => None
    case Some(r) => Some(r.infos)
  }

  /** Importing a snapshot in one pass or by its index, in any order of the workers, and verifying the database gives
      one app hash, that of the snapshot's stores; and one import fails exactly when the other does. */
  method SameAppHash(sha: Sha, height: int64, scanner: IndexScanner.Scanner, flat: Database, cut: Database,
                     schedule: nat -> seq<nat>)
    returns (a: Option<Hash32>, b: Option<Hash32>)
    requires scanner.Valid() && scanner.pos == 0 && Snapshot(scanner.src.data) && flat != cut
      && flat.entries == cut.entries
    requires forall n :: IsPermutation(schedule(n), n)
    requires var stores := StoresOf(sha, height, scanner.src.data, flat.entries);
             stores.Some? ==> |Commit.Encoded(height, stores.value)| < Commit.TWO_63
    modifies scanner, scanner.buf, scanner.src, flat, cut
    ensures var stores := StoresOf(sha, height, scanner.src.data, old(flat.entries));
            a == b == if stores.None? then None else Some(AppHash(sha, stores.value))
  {
    hide Items, PassFrom, Recorded, IndexScanner.Scanner.Valid, Sorted, ByName, OneStoreAName, GoodNames, Read,
      Readable, AppHash, MetaFirst, StoreNames, SegmentIndex.WellFormed;
    ghost var stores := StoresOf(sha, height, scanner.src.data, flat.entries);
    ghost var base := flat.entries;
    var items := ReadAll(scanner.src.data);
    OneStoreEach(sha, height, base, items.value);
    if stores.Some? {
      ghost var infos := stores.value;
      SortedAgree(infos, infos);
      AppHashPermutes(sha, infos, Sorted(infos));
      SameRecordLength(height, infos, Sorted(infos));
    }
    var x := ImportFlat(sha, height, items.value, flat);
    var y := ImportParallel(sha, height, scanner, cut, schedule);
    a, b := None, None;
    if x.Some? {
      ghost var r := PassFrom(sha, height, Pass(None, base, []), items.value).value;
      ReadsBack(height, r.infos, r.base);
      ReadsBack(height, Sorted(r.infos), r.base);
      var h := LocalAppHash(sha, height, flat);
      var k := LocalAppHash(sha, height, cut);
      a, b := Some(h.value), Some(k.value);
    }
  }

  lemma SameRecordLength(version: int64, a: seq<StoreInfo>, b: seq<StoreInfo>)
    requires multiset(a) == multiset(b)
    ensures |Commit.Encoded(version, a)| == |Commit.Encoded(version, b)|
  {
    hide Commit.StoreFields, VarintField;
    SameLength(version, a, b);
  }
}
