/** The differ of one store: a merge of two record streams by whole-record comparison. Record order is not
    key order, so a key present on both sides may come out as a delete and an insert. */
module LeafDiff {
  import opened Bytes
  import opened Proto

  datatype Change = Insert(key: bytes, value: bytes) | Update(key: bytes, value: bytes) | Delete(key: bytes)

  /** A three-way comparison of records. */
  type Comparison = (bytes, bytes) -> int

  ghost predicate ZeroOnlyOnEqual(cmp: Comparison) {
    forall a, b :: cmp(a, b) == 0 ==> a == b
  }

  // ---------- comparing ----------

  /** Lexicographic order of byte strings as -1, 0 or 1. */
  function Compare(a: bytes, b: bytes): int {
    if Less(a, b) then -1 else if a == b then 0 else 1
  }

  lemma CompareZero()
    ensures ZeroOnlyOnEqual(Compare)
  {}

  lemma {:induction false} LessAfterPrefix(a: bytes, b: bytes, i: nat)
    requires i <= |a| && i <= |b| && a[..i] == b[..i]
    ensures Less(a, b) == Less(a[i..], b[i..])
    ensures a == b <==> a[i..] == b[i..]
  {
    assert a == a[..i] + a[i..] && b == b[..i] + b[i..];
    if i == 0 {
    } else {
      assert a[0] == a[..i][0] == b[..i][0] == b[0];
      assert a[1..][..i - 1] == a[..i][1..] == b[..i][1..] == b[1..][..i - 1];
      assert a[1..][i - 1..] == a[i..] && b[1..][i - 1..] == b[i..];
      LessAfterPrefix(a[1..], b[1..], i - 1);
    }
  }

  method BytesCompare(a: bytes, b: bytes) returns (r: int)
    ensures r == Compare(a, b)
  {
    var n := if |b| < |a| then |b| else |a|;
    var i := 0;
    while i < n
      invariant 0 <= i <= n
      invariant a[..i] == b[..i]
    {
      LessAfterPrefix(a, b, i);
      if a[i] < b[i] {
        return -1;
      }
      if a[i] > b[i] {
        return 1;
      }
      assert a[..i + 1] == a[..i] + [a[i]] && b[..i + 1] == b[..i] + [b[i]];
      i := i + 1;
    }
    LessAfterPrefix(a, b, n);
    if |a| < |b| {
      return -1;
    }
    if |a| > |b| {
      return 1;
    }
    return 0;
  }

  /** Records are ordered by key length before key: this pair is in key order but not in record order. */
  lemma RecordOrderIsNotKeyOrder()
    ensures var a, b := ItemRecord([1, 1], [], 0, 0), ItemRecord([2], [], 0, 0);
            Less(Key(a), Key(b)) && Less(b, a)
  {
    ItemsAreSound([1, 1], [], 0, 0);
    ItemsAreSound([2], [], 0, 0);
    var a, b := ItemRecord([1, 1], [], 0, 0), ItemRecord([2], [], 0, 0);
    assert Less([1, 1], [2]);
    assert a[0] == b[0] == 10 && a[1] == 2 && b[1] == 1;
    LessAfterPrefix(b, a, 1);
  }

  // ---------- the merge ----------

  /** The changes that the merge emits for the remaining base and target leaves. */
  function Merge(cmp: Comparison, b: seq<bytes>, t: seq<bytes>): seq<Change>
    decreases |b| + |t|
  {
    if b == [] && t == [] then []
    else if b == [] then
      var (k, v) := ScanKeyValue(t[0]);
      [Insert(k, v)] + Merge(cmp, b, t[1..])
    else if t == [] then
      [Delete(ScanKeyValue(b[0]).0)] + Merge(cmp, b[1..], t)
    else if cmp(b[0], t[0]) == 0 then Merge(cmp, b[1..], t[1..])
    else
      var bk, (tk, tv) := ScanKeyValue(b[0]).0, ScanKeyValue(t[0]);
      if bk == tk then [Update(bk, tv)] + Merge(cmp, b[1..], t[1..])
      else if cmp(b[0], t[0]) < 0 then [Delete(bk)] + Merge(cmp, b[1..], t)
      else [Insert(tk, tv)] + Merge(cmp, b, t[1..])
  }

  datatype StoreStats = StoreStats(baseItems: nat, targetItems: nat, inserts: nat, updates: nat, deletes: nat)

  function LeavesOf(items: seq<bytes>): seq<bytes> {
    if items == [] then []
    else if IsLeafRecord(items[0]) then [items[0]] + LeavesOf(items[1..])
    else LeavesOf(items[1..])
  }

  /** The cursor of one store over its IAVL items, inner nodes included. */
  class RecordReader {
    const items: seq<bytes>
    var pos: nat

    ghost predicate Valid() reads this { pos <= |items| }

    /** The leaves that have not been returned yet. */
    ghost function Rest(): seq<bytes> reads this requires Valid() { LeavesOf(items[pos..]) }

    constructor (items: seq<bytes>)
      ensures Valid() && this.items == items && Rest() == LeavesOf(items)
    {
      this.items, pos := items, 0;
    }

    /** The next leaf; inner items are skipped. */
    method Advance() returns (leaf: Option<bytes>)
      requires Valid()
      modifies this
      ensures Valid()
      ensures old(Rest()) == if leaf.Some? then [leaf.value] + Rest() else []
      ensures leaf.None? ==> Rest() == []
    {
      while pos < |items|
        invariant Valid() && Rest() == old(Rest())
      {
        var rec := items[pos];
        assert items[pos..][1..] == items[pos + 1..];
        pos := pos + 1;
        if IsLeafRecord(rec) {
          return Some(rec);
        }
      }
      return None;
    }
  }

  function Head(leaf: Option<bytes>): seq<bytes> {
    if leaf.Some? then [leaf.value] else []
  }

  /** Counts of a change list. */
  function CountInserts(cs: seq<Change>): nat {
    if cs == [] then 0 else CountInserts(cs[1..]) + if cs[0].Insert? then 1 else 0
  }

  function CountUpdates(cs: seq<Change>): nat {
    if cs == [] then 0 else CountUpdates(cs[1..]) + if cs[0].Update? then 1 else 0
  }

  function CountDeletes(cs: seq<Change>): nat {
    if cs == [] then 0 else CountDeletes(cs[1..]) + if cs[0].Delete? then 1 else 0
  }

  /** What is still to be emitted, given what each side has read ahead. */
  ghost function Remaining(b: Option<bytes>, base: seq<bytes>, t: Option<bytes>, target: seq<bytes>): seq<Change> {
    Merge(Compare, Head(b) + base, Head(t) + target)
  }

  /** Counters that have been raised for a prefix of the changes. */
  ghost predicate Counted(ss: StoreStats, rest: seq<Change>, all: seq<Change>) {
    && ss.inserts + CountInserts(rest) == CountInserts(all)
    && ss.updates + CountUpdates(rest) == CountUpdates(all)
    && ss.deletes + CountDeletes(rest) == CountDeletes(all)
  }

  /** One step of the merge at the two heads: the change, if any, and which sides advance. */
  method MergeStep(b: Option<bytes>, t: Option<bytes>, ghost base: seq<bytes>, ghost target: seq<bytes>)
    returns (change: Option<Change>, advanceBase: bool, advanceTarget: bool)
    requires b.Some? || t.Some?
    requires b.None? ==> base == []
    requires t.None? ==> target == []
    ensures advanceBase || advanceTarget
    ensures (advanceBase ==> b.Some?) && (advanceTarget ==> t.Some?)
    ensures b.Some? && t.Some? && b.value != t.value && ScanKeyValue(b.value).0 == ScanKeyValue(t.value).0 ==>
      change == Some(Update(ScanKeyValue(t.value).0, ScanKeyValue(t.value).1)) && advanceBase && advanceTarget
    ensures Remaining(b, base, t, target)
         == Emitted(change) + Merge(Compare, if advanceBase then base else Head(b) + base,
           if advanceTarget then target else Head(t) + target)
  {
    assert (Head(b) + base)[if b.Some? then 1 else 0..] == base;
    assert (Head(t) + target)[if t.Some? then 1 else 0..] == target;
    hide Less, ScanKeyValue;
    if b.None? {
      var (k, v) := ScanKeyValue(t.value);
      return Some(Insert(k, v)), false, true;
    }
    if t.None? {
      var (k, _) := ScanKeyValue(b.value);
      return Some(Delete(k)), true, false;
    }
    var cmp := BytesCompare(b.value, t.value);
    if cmp == 0 {
      return None, true, true;
    }
    var (bk, _) := ScanKeyValue(b.value);
    var (tk, tv) := ScanKeyValue(t.value);
    if bk == tk {
      return Some(Update(bk, tv)), true, true;
    }
    if cmp < 0 {
      return Some(Delete(bk)), true, false;
    }
    return Some(Insert(tk, tv)), false, true;
  }

  function Raise(ss: StoreStats, change: Option<Change>): StoreStats {
    match change
    case None => ss
    case Some(Insert(_, _)) => ss.(inserts := ss.inserts + 1)
    case Some(Update(_, _)) => ss.(updates := ss.updates + 1)
    case Some(Delete(_)) => ss.(deletes := ss.deletes + 1)
  }

  function Emitted(change: Option<Change>): seq<Change> {
    if change.Some? then [change.value] else []
  }

  lemma Raised(ss: StoreStats, change: Option<Change>, rest: seq<Change>, all: seq<Change>)
    requires Counted(ss, Emitted(change) + rest, all)
    ensures Counted(Raise(ss, change), rest, all)
  {
    if change.Some? {
      assert ([change.value] + rest)[1..] == rest;
    } else {
      assert [] + rest == rest;
    }
  }

  /** Reads the next leaf of a side that the merge has consumed, and counts it. */
  method AdvanceIf(reader: RecordReader, go: bool, head: Option<bytes>) returns (next: Option<bytes>, read: nat)
    requires reader.Valid() && (head.None? ==> !go && reader.Rest() == [])
    modifies reader
    ensures reader.Valid()
    ensures Head(next) + reader.Rest() == if go then old(reader.Rest()) else Head(head) + old(reader.Rest())
    ensures next.None? ==> reader.Rest() == []
    ensures read + |reader.Rest()| == |old(reader.Rest())|
    ensures !go ==> next == head
  {
    next, read := head, 0;
    if go {
      next := reader.Advance();
      read := |Head(next)|;
    }
  }

  /** The merge is under way: bs and ts are what it has not consumed. */
  ghost predicate Midway(all: seq<Change>, changes: seq<Change>, ss: StoreStats, bs: seq<bytes>, ts: seq<bytes>) {
    changes + Merge(Compare, bs, ts) == all && Counted(ss, Merge(Compare, bs, ts), all)
  }

  lemma MidwayStep(all: seq<Change>, changes: seq<Change>, ss: StoreStats, bs: seq<bytes>, ts: seq<bytes>,
                   change: Option<Change>, bs': seq<bytes>, ts': seq<bytes>)
    requires Midway(all, changes, ss, bs, ts)
    requires Merge(Compare, bs, ts) == Emitted(change) + Merge(Compare, bs', ts')
    ensures Midway(all, changes + Emitted(change), Raise(ss, change), bs', ts')
  {
    hide Merge, CountInserts, CountUpdates, CountDeletes, Counted;
    var rest := Merge(Compare, bs', ts');
    assert changes + Emitted(change) + rest == changes + (Emitted(change) + rest);
    Raised(ss, change, rest, all);
  }

  /** Reading ahead does not touch the other counters. */
  lemma MidwayItems(all: seq<Change>, changes: seq<Change>, ss: StoreStats, ss': StoreStats, bs: seq<bytes>,
                    ts: seq<bytes>)
    requires Midway(all, changes, ss, bs, ts)
    requires ss' == ss.(baseItems := ss'.baseItems, targetItems := ss'.targetItems)
    ensures Midway(all, changes, ss', bs, ts)
  {
    hide Merge;
  }

  /** What one side of the merge has not consumed: its head and the rest of its reader. */
  ghost predicate Side(reader: RecordReader, head: Option<bytes>, todo: seq<bytes>)
    reads reader
  {
    && reader.Valid()
    && todo == Head(head) + reader.Rest()
    && (head.None? ==> reader.Rest() == [])
  }

  /** One turn of the merge loop. */
  method Turn(base: RecordReader, target: RecordReader, b: Option<bytes>, t: Option<bytes>,
              changes: seq<Change>, ss: StoreStats, ghost all: seq<Change>, ghost bs: seq<bytes>, ghost ts: seq<bytes>)
    returns (b': Option<bytes>, t': Option<bytes>, changes': seq<Change>, ss': StoreStats,
             ghost bs': seq<bytes>, ghost ts': seq<bytes>)
    requires base != target && Side(base, b, bs) && Side(target, t, ts) && (b.Some? || t.Some?)
    requires Midway(all, changes, ss, bs, ts)
    modifies base, target
    ensures Side(base, b', bs') && Side(target, t', ts')
    ensures Midway(all, changes', ss', bs', ts')
    ensures |bs'| + |ts'| < |bs| + |ts|
    ensures ss'.baseItems + |base.Rest()| == ss.baseItems + |old(base.Rest())|
    ensures ss'.targetItems + |target.Rest()| == ss.targetItems + |old(target.Rest())|
  {
    hide Merge, LeavesOf, Midway, RecordReader.Rest;
    var change, ab, at := MergeStep(b, t, base.Rest(), target.Rest());
    bs', ts' := if ab then base.Rest() else bs, if at then target.Rest() else ts;
    MidwayStep(all, changes, ss, bs, ts, change, bs', ts');
    changes' := changes + Emitted(change);
    var readBase, readTarget;
    b', readBase := AdvanceIf(base, ab, b);
    t', readTarget := AdvanceIf(target, at, t);
    var raised := Raise(ss, change);
    ss' := raised.(baseItems := raised.baseItems + readBase, targetItems := raised.targetItems + readTarget);
    MidwayItems(all, changes', raised, ss', bs', ts');
  }

  /** The streaming merge of one store. A side without the store is an empty reader. */
  method DiffStore(base: RecordReader, target: RecordReader) returns (changes: seq<Change>, ss: StoreStats)
    requires base.Valid() && target.Valid() && base != target
    modifies base, target
    ensures base.Valid() && target.Valid() && base.Rest() == [] && target.Rest() == []
    ensures changes == Merge(Compare, old(base.Rest()), old(target.Rest()))
    ensures ss == StoreStats(|old(base.Rest())|, |old(target.Rest())|, CountInserts(changes), CountUpdates(changes),
      CountDeletes(changes))
  {
    hide Merge, Midway, CountInserts, CountDeletes, CountUpdates, LeavesOf, RecordReader.Rest;
    ghost var all, bs, ts := Merge(Compare, base.Rest(), target.Rest()), base.Rest(), target.Rest();
    var b := base.Advance();
    var t := target.Advance();
    changes, ss := [], StoreStats(|Head(b)|, |Head(t)|, 0, 0, 0);
    MidwayStart(bs, ts, ss);
    while b.Some? || t.Some?
      invariant Side(base, b, bs) && Side(target, t, ts)
      invariant Midway(all, changes, ss, bs, ts)
      invariant ss.baseItems + |base.Rest()| == |old(base.Rest())|
      invariant ss.targetItems + |target.Rest()| == |old(target.Rest())|
      decreases |bs| + |ts|
    {
      b, t, changes, ss, bs, ts := Turn(base, target, b, t, changes, ss, all, bs, ts);
    }
    MidwayEnds(all, changes, ss);
  }

  lemma MidwayStart(bs: seq<bytes>, ts: seq<bytes>, ss: StoreStats)
    requires ss.inserts == ss.updates == ss.deletes == 0
    ensures Midway(Merge(Compare, bs, ts), [], ss, bs, ts)
  {
    hide Merge;
  }

  lemma MidwayEnds(all: seq<Change>, changes: seq<Change>, ss: StoreStats)
    requires Midway(all, changes, ss, [], [])
    ensures changes == all
    ensures ss.inserts == CountInserts(all) && ss.updates == CountUpdates(all) && ss.deletes == CountDeletes(all)
  {}
}
