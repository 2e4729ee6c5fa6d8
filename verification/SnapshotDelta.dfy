/** What the comparison of two snapshots counts: the entries that only the first holds, those that only the second
    holds, and those that both hold with different values. */
module SnapshotDelta {
  import opened Bytes
  import opened Proto
  import opened LeafDiff
  import opened LeafApply
  import opened SnapshotDiff
  import opened SnapshotVerify

  ghost function Counts<K>(a: map<K, bytes>, b: map<K, bytes>): Delta {
    Delta(|OnlyIn(a, b)|, |OnlyIn(b, a)|, |Changed(a, b)|)
  }

  // ---------- one store ----------

  lemma OneInA(a: map<bytes, bytes>, b: map<bytes, bytes>, k: bytes, v: bytes)
    requires k !in a && k !in b
    ensures Counts(a[k := v], b) == Plus(Delta(1, 0, 0), Counts(a, b))
  {
    BaseGrows(a, b, k, v);
    OneMore(OnlyIn(a, b), k);
    hide OnlyIn, Changed;
  }

  lemma OneInB(a: map<bytes, bytes>, b: map<bytes, bytes>, k: bytes, v: bytes)
    requires k !in a && k !in b
    ensures Counts(a, b[k := v]) == Plus(Delta(0, 1, 0), Counts(a, b))
  {
    BaseGrows(b, a, k, v);
    OneMore(OnlyIn(b, a), k);
    hide OnlyIn, Changed;
  }

  lemma OneInBoth(a: map<bytes, bytes>, b: map<bytes, bytes>, k: bytes, v: bytes, w: bytes)
    requires k !in a && k !in b
    ensures Counts(a[k := v], b[k := w]) == Plus(Delta(0, 0, if v == w then 0 else 1), Counts(a, b))
  {
    BothGrow(a, b, k, v, w);
    OneMore(Changed(a, b), k);
    hide OnlyIn, Changed;
  }

  lemma NoCounts<K>(m: map<K, bytes>)
    requires m == map[]
    ensures Counts(m, m) == SAME
  {
    assert OnlyIn(m, m) == {} && Changed(m, m) == {};
  }

  /** Comparing two sorted stores counts their keys: those of the first only, of the second only, and of both with
      different values. */
  lemma {:induction false} StoreCounts(a: seq<bytes>, b: seq<bytes>)
    requires SortedRecords(a) && SortedRecords(b)
    ensures StoreDelta(a, b) == Counts(Contents(a), Contents(b))
    decreases |a| + |b|
  {
    hide Key, Value, Less, Counts, Plus;
    if a != [] {
      HeadIsNew(a);
    }
    if b != [] {
      HeadIsNew(b);
    }
    if a == [] && b == [] {
      NoCounts(Contents(a));
    } else if b == [] || (a != [] && Less(Key(a[0]), Key(b[0]))) {
      if b != [] {
        NotBelow(Key(a[0]), b);
      }
      StoreCounts(a[1..], b);
      OneInA(Contents(a[1..]), Contents(b), Key(a[0]), Value(a[0]));
    } else if a == [] || Less(Key(b[0]), Key(a[0])) {
      if a != [] {
        NotBelow(Key(b[0]), a);
      }
      StoreCounts(a, b[1..]);
      OneInB(Contents(a), Contents(b[1..]), Key(b[0]), Value(b[0]));
    } else {
      LessTotal(Key(a[0]), Key(b[0]));
      StoreCounts(a[1..], b[1..]);
      OneInBoth(Contents(a[1..]), Contents(b[1..]), Key(a[0]), Value(a[0]), Value(b[0]));
    }
  }

  // ---------- whole snapshots ----------

  type Entry = (bytes, bytes)

  /** The entries of a store: its name and a key, with the key's value. */
  function Held(name: bytes, m: map<bytes, bytes>): map<Entry, bytes> {
    map k | k in m :: (name, k) := m[k]
  }

  function Holdings(ss: seq<Store>): map<Entry, bytes> {
    if ss == [] then map[] else Holdings(ss[1..]) + Held(ss[0].name, Contents(StoreLeaves(ss[0])))
  }

  lemma {:induction false} HeldNamed(ss: seq<Store>, e: Entry)
    ensures e in Holdings(ss) ==> exists s :: s in ss && s.name == e.0
  {
    hide Contents, LeavesOf;
    if ss != [] {
      HeldNamed(ss[1..], e);
      if e in Holdings(ss[1..]) {
        var s :| s in ss[1..] && s.name == e.0;
        assert s in ss;
      } else if e in Holdings(ss) {
        assert ss[0] in ss && ss[0].name == e.0;
      }
    }
  }

  ghost function Tagged(name: bytes, ks: set<bytes>): set<Entry> {
    set k | k in ks :: (name, k)
  }

  lemma {:induction false} TaggedSize(name: bytes, ks: set<bytes>)
    ensures |Tagged(name, ks)| == |ks|
    decreases |ks|
  {
    if ks == {} {
      assert Tagged(name, ks) == {};
    } else {
      var k :| k in ks;
      TaggedSize(name, ks - {k});
      assert Tagged(name, ks) == Tagged(name, ks - {k}) + {(name, k)};
    }
  }

  lemma HeldSets(name: bytes, a: map<bytes, bytes>, b: map<bytes, bytes>, x: map<Entry, bytes>, y: map<Entry, bytes>)
    requires forall e :: e in x || e in y ==> e.0 != name
    ensures var p, q := x + Held(name, a), y + Held(name, b);
            && OnlyIn(p, q) == OnlyIn(x, y) + Tagged(name, OnlyIn(a, b))
            && Changed(p, q) == Changed(x, y) + Tagged(name, Changed(a, b))
  {}

  lemma Disjoint(name: bytes, all: set<Entry>, s: set<Entry>, ks: set<bytes>, keys: set<Entry>)
    requires all == s + Tagged(name, ks) && s <= keys && forall e :: e in keys ==> e.0 != name
    ensures |all| == |s| + |ks|
  {
    TaggedSize(name, ks);
    assert s !! Tagged(name, ks);
  }

  lemma CountsSplit(name: bytes, a: map<bytes, bytes>, b: map<bytes, bytes>, x: map<Entry, bytes>, y: map<Entry, bytes>)
    requires forall e :: e in x || e in y ==> e.0 != name
    ensures Counts(x + Held(name, a), y + Held(name, b)) == Plus(Counts(a, b), Counts(x, y))
  {
    hide OnlyIn, Changed, Held, Tagged;
    var p, q := x + Held(name, a), y + Held(name, b);
    OneWay(name, a, b, x, y, p, q);
    OneWay(name, b, a, y, x, q, p);
  }

  lemma OneWay(name: bytes, a: map<bytes, bytes>, b: map<bytes, bytes>, x: map<Entry, bytes>, y: map<Entry, bytes>,
               p: map<Entry, bytes>, q: map<Entry, bytes>)
    requires forall e :: e in x || e in y ==> e.0 != name
    requires p == x + Held(name, a) && q == y + Held(name, b)
    ensures |OnlyIn(p, q)| == |OnlyIn(x, y)| + |OnlyIn(a, b)| && |Changed(p, q)| == |Changed(x, y)| + |Changed(a, b)|
  {
    hide OnlyIn, Changed, Held, Tagged;
    HeldSets(name, a, b, x, y);
    FromKeys(x, y);
    Disjoint(name, OnlyIn(p, q), OnlyIn(x, y), OnlyIn(a, b), x.Keys);
    Disjoint(name, Changed(p, q), Changed(x, y), Changed(a, b), x.Keys);
  }

  lemma FromKeys(x: map<Entry, bytes>, y: map<Entry, bytes>)
    ensures OnlyIn(x, y) <= x.Keys && Changed(x, y) <= x.Keys
  {}

  /** What one side holds, by the next name and the rest. */
  lemma HoldingsSplit(ss: seq<Store>, own: bool, rest: seq<Store>, leaves: seq<bytes>, n: bytes)
    requires own ==> ss != [] && ss[0].name == n && rest == ss[1..] && leaves == StoreLeaves(ss[0])
    requires !own ==> rest == ss && leaves == []
    requires forall s :: s in rest ==> Less(n, s.name)
    ensures Holdings(ss) == Holdings(rest) + Held(n, Contents(leaves))
    ensures forall e :: e in Holdings(rest) ==> e.0 != n
  {
    forall e | e in Holdings(rest) ensures e.0 != n {
      HeldNamed(rest, e);
      var s :| s in rest && s.name == e.0;
      LessIrreflexive(n);
    }
    hide Less, LeavesOf;
    if !own {
      assert Contents(leaves) == map[];
      assert Held(n, map[]) == map[];
    }
  }

  /** Comparing two snapshots counts their entries: of the first only, of the second only, and of both with different
      values. */
  lemma {:induction false} SnapshotCounts(xs: seq<Store>, bs: seq<Store>)
    requires WfStores(xs) && WfStores(bs)
    ensures StoresDelta(xs, bs) == Counts(Holdings(xs), Holdings(bs))
    decreases |xs| + |bs|
  {
    hide WfStores, LeavesOf, Contents, StoreDelta, Less, TurnOf, NextName, Holdings, Held, Counts, Plus, SortedRecords;
    if xs == [] && bs == [] {
      NothingHeld();
      NoCounts(Holdings([]));
    } else {
      var t, n := TurnOf(xs, bs), NextName(xs, bs);
      NextIsBelow(xs, bs);
      LeavesSorted(xs, bs);
      StoreCounts(BaseLeaves(xs, t), TargetLeaves(bs, t));
      SnapshotCounts(RestBase(xs, t), RestTarget(bs, t));
      NextHoldings(xs, bs);
      CountsSplit(n, Contents(BaseLeaves(xs, t)), Contents(TargetLeaves(bs, t)),
                  Holdings(RestBase(xs, t)), Holdings(RestTarget(bs, t)));
    }
  }

  lemma NextHoldings(xs: seq<Store>, bs: seq<Store>)
    requires WfStores(xs) && WfStores(bs) && (xs != [] || bs != [])
    ensures var t, n := TurnOf(xs, bs), NextName(xs, bs);
            && Holdings(xs) == Holdings(RestBase(xs, t)) + Held(n, Contents(BaseLeaves(xs, t)))
            && Holdings(bs) == Holdings(RestTarget(bs, t)) + Held(n, Contents(TargetLeaves(bs, t)))
            && forall e :: e in Holdings(RestBase(xs, t)) || e in Holdings(RestTarget(bs, t)) ==> e.0 != n
  {
    hide WfStores, LeavesOf, Contents, Less, Holdings, Held;
    var t, n := TurnOf(xs, bs), NextName(xs, bs);
    NextIsBelow(xs, bs);
    HoldingsSplit(xs, !t.TargetOnly?, RestBase(xs, t), BaseLeaves(xs, t), n);
    HoldingsSplit(bs, !t.BaseOnly?, RestTarget(bs, t), TargetLeaves(bs, t), n);
  }

  lemma NothingHeld()
    ensures Holdings([]) == map[]
  {}

  lemma LeavesSorted(xs: seq<Store>, bs: seq<Store>)
    requires WfStores(xs) && WfStores(bs) && (xs != [] || bs != [])
    ensures var t := TurnOf(xs, bs); SortedRecords(BaseLeaves(xs, t)) && SortedRecords(TargetLeaves(bs, t))
  {
    hide LeavesOf, Less, Contents;
  }
}
