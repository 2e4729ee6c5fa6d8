/** Comparing two snapshots, extension payload sets, and the whole round trip: a target rebuilt from base and
    diff is equivalent to the target. */
module SnapshotVerify {
  import opened Bytes
  import opened IavlEncoding
  import opened Proto
  import opened LeafDiff
  import opened LeafApply
  import opened DiffStream
  import opened SnapshotDiff

  // ---------- stores ----------

  datatype Delta = Delta(extraInA: nat, extraInB: nat, valueDiffs: nat)

  const SAME := Delta(0, 0, 0)

  function Plus(a: Delta, b: Delta): Delta {
    Delta(a.extraInA + b.extraInA, a.extraInB + b.extraInB, a.valueDiffs + b.valueDiffs)
  }

  /** The differences of two leaf lists, by a merge on keys. */
  function StoreDelta(a: seq<bytes>, b: seq<bytes>): Delta
    decreases |a| + |b|
  {
    if a == [] && b == [] then SAME
    else if b == [] || (a != [] && Less(Key(a[0]), Key(b[0]))) then Plus(Delta(1, 0, 0), StoreDelta(a[1..], b))
    else if a == [] || Less(Key(b[0]), Key(a[0])) then Plus(Delta(0, 1, 0), StoreDelta(a, b[1..]))
    else Plus(Delta(0, 0, if Value(a[0]) == Value(b[0]) then 0 else 1), StoreDelta(a[1..], b[1..]))
  }

  /** One turn of the comparison. */
  method CompareStep(a: Option<bytes>, b: Option<bytes>, ghost restA: seq<bytes>, ghost restB: seq<bytes>)
    returns (d: Delta, nextA: bool, nextB: bool)
    requires a.Some? || b.Some?
    requires (a.None? ==> restA == []) && (b.None? ==> restB == [])
    ensures nextA || nextB
    ensures (nextA ==> a.Some?) && (nextB ==> b.Some?)
    ensures StoreDelta(Head(a) + restA, Head(b) + restB)
         == Plus(d, StoreDelta(if nextA then restA else Head(a) + restA, if nextB then restB else Head(b) + restB))
  {
    assert (Head(a) + restA)[if a.Some? then 1 else 0..] == restA;
    assert (Head(b) + restB)[if b.Some? then 1 else 0..] == restB;
    hide Key, Value, Less;
    if b.None? {
      return Delta(1, 0, 0), true, false;
    }
    if a.None? {
      return Delta(0, 1, 0), false, true;
    }
    var cmp := BytesCompare(Key(a.value), Key(b.value));
    if cmp < 0 {
      return Delta(1, 0, 0), true, false;
    }
    LessTotal(Key(a.value), Key(b.value));
    if cmp > 0 {
      return Delta(0, 1, 0), false, true;
    }
    LessIrreflexive(Key(a.value));
    return Delta(0, 0, if Value(a.value) == Value(b.value) then 0 else 1), true, true;
  }

  lemma PlusAssoc(a: Delta, b: Delta, c: Delta)
    ensures Plus(Plus(a, b), c) == Plus(a, Plus(b, c))
    ensures Plus(SAME, a) == a == Plus(a, SAME)
  {}

  method CompareStore(rA: RecordReader, rB: RecordReader) returns (d: Delta)
    requires rA.Valid() && rB.Valid() && rA != rB
    modifies rA, rB
    ensures d == StoreDelta(old(rA.Rest()), old(rB.Rest()))
  {
    hide StoreDelta, Plus, LeavesOf, RecordReader.Rest;
    ghost var xs, bs := rA.Rest(), rB.Rest();
    ghost var all := StoreDelta(xs, bs);
    d := SAME;
    PlusAssoc(all, all, all);
    var a := rA.Advance();
    var b := rB.Advance();
    while a.Some? || b.Some?
      invariant Side(rA, a, xs) && Side(rB, b, bs)
      invariant all == Plus(d, StoreDelta(xs, bs))
      decreases |xs| + |bs|
    {
      var more, nextA, nextB := CompareStep(a, b, rA.Rest(), rB.Rest());
      xs, bs := if nextA then rA.Rest() else xs, if nextB then rB.Rest() else bs;
      PlusAssoc(d, more, StoreDelta(xs, bs));
      d := Plus(d, more);
      var read;
      a, read := AdvanceIf(rA, nextA, a);
      b, read := AdvanceIf(rB, nextB, b);
    }
    NoDelta();
    PlusAssoc(d, d, d);
  }

  lemma NoDelta()
    ensures StoreDelta([], []) == SAME
  {}

  /** No difference is counted exactly when the contents are the same. */
  lemma {:induction false} DeltaZero(a: seq<bytes>, b: seq<bytes>)
    requires SortedRecords(a) && SortedRecords(b)
    ensures StoreDelta(a, b) == SAME <==> Contents(a) == Contents(b)
    decreases |a| + |b|
  {
    hide Key, Value, Less;
    HeadInContents(a);
    HeadInContents(b);
    if a == [] && b == [] {
    } else if b == [] || (a != [] && Less(Key(a[0]), Key(b[0]))) {
      if b != [] { NotBelow(Key(a[0]), b); }
    } else if a == [] || Less(Key(b[0]), Key(a[0])) {
      if a != [] { NotBelow(Key(b[0]), a); }
    } else {
      LessTotal(Key(a[0]), Key(b[0]));
      DeltaZero(a[1..], b[1..]);
      HeadIsNew(a);
      HeadIsNew(b);
      SameTails(Contents(a[1..]), Contents(b[1..]), Key(a[0]), Value(a[0]), Value(b[0]));
    }
  }

  lemma NotBelow(k: bytes, b: seq<bytes>)
    requires SortedRecords(b) && b != [] && Less(k, Key(b[0]))
    ensures k !in Contents(b)
  {
    LessIrreflexive(k);
    if k in Contents(b[1..]) {
      LessTransitive(k, Key(b[0]), k);
    }
    hide Less, Key, Value;
  }

  lemma SameTails(a: map<bytes, bytes>, b: map<bytes, bytes>, k: bytes, v: bytes, w: bytes)
    requires k !in a && k !in b
    ensures a[k := v] == b[k := w] <==> a == b && v == w
  {
    if a[k := v] == b[k := w] {
      assert a == a[k := v] - {k} && b == b[k := w] - {k};
      assert a[k := v][k] == v && b[k := w][k] == w;
    }
  }

  /** The differences over all stores; a store on one side only is compared with nothing. */
  function StoresDelta(xs: seq<Store>, bs: seq<Store>): Delta
    decreases |xs| + |bs|
  {
    if xs == [] && bs == [] then SAME
    else
      var t := TurnOf(xs, bs);
      Plus(StoreDelta(BaseLeaves(xs, t), TargetLeaves(bs, t)), StoresDelta(RestBase(xs, t), RestTarget(bs, t)))
  }

  method VerifyNext(rA: SnapshotReader, rB: SnapshotReader, t: Turn) returns (d: Delta)
    requires rA.Valid() && rB.Valid() && rA != rB && (rA.Todo() != [] || rB.Todo() != [])
    requires t == TurnOf(rA.Todo(), rB.Todo())
    modifies rA, rB
    ensures rA.Valid() && rB.Valid()
    ensures rA.Todo() == RestBase(old(rA.Todo()), t) && rB.Todo() == RestTarget(old(rB.Todo()), t)
    ensures d == StoreDelta(BaseLeaves(old(rA.Todo()), t), TargetLeaves(old(rB.Todo()), t))
  {
    hide TurnOf, LeavesOf, StoreDelta;
    NoLeaves();
    var a, b: RecordReader;
    if t.TargetOnly? {
      a := new RecordReader([]);
    } else {
      a := rA.OpenStore();
    }
    if t.BaseOnly? {
      b := new RecordReader([]);
    } else {
      b := rB.OpenStore();
    }
    d := CompareStore(a, b);
  }

  /** The stores part of the comparison of two snapshots. */
  method VerifyStores(rA: SnapshotReader, rB: SnapshotReader) returns (d: Delta)
    requires rA.Valid() && rB.Valid() && rA != rB
    modifies rA, rB
    ensures d == StoresDelta(old(rA.Todo()), old(rB.Todo()))
  {
    hide LeavesOf, StoreDelta, Plus, TurnOf, NextName, Less, SnapshotReader.Todo;
    ghost var all := StoresDelta(rA.Todo(), rB.Todo());
    d := SAME;
    PlusAssoc(all, all, all);
    while true
      invariant rA.Valid() && rB.Valid()
      invariant all == Plus(d, StoresDelta(rA.Todo(), rB.Todo()))
      decreases |rA.Todo()| + |rB.Todo()|
    {
      var turn := ChooseTurn(rA, rB);
      if turn.None? {
        PlusAssoc(d, d, d);
        return;
      }
      var more := VerifyNext(rA, rB, turn.value.0);
      PlusAssoc(d, more, StoresDelta(rA.Todo(), rB.Todo()));
      d := Plus(d, more);
    }
  }

  /** What one side holds under the next name, given whether the next store is its own. */
  lemma LookupSide(ss: seq<Store>, own: bool, rest: seq<Store>, n: bytes, name: bytes)
    requires own ==> ss != [] && ss[0].name == n && rest == ss[1..]
    requires !own ==> rest == ss
    requires forall s :: s in rest ==> Less(n, s.name)
    ensures Lookup(ss, n) == if own then Contents(StoreLeaves(ss[0])) else map[]
    ensures Lookup(rest, n) == map[]
    ensures name != n ==> Lookup(ss, name) == Lookup(rest, name)
  {
    hide LeavesOf, Less, Contents;
    AboveIsMissing(rest, n);
  }

  lemma LookupNext(xs: seq<Store>, bs: seq<Store>, name: bytes)
    requires WfStores(xs) && WfStores(bs) && (xs != [] || bs != [])
    ensures var t, n := TurnOf(xs, bs), NextName(xs, bs);
            && Lookup(xs, n) == Contents(BaseLeaves(xs, t)) && Lookup(bs, n) == Contents(TargetLeaves(bs, t))
            && Lookup(RestBase(xs, t), n) == map[] && Lookup(RestTarget(bs, t), n) == map[]
            && (name != n ==> Lookup(xs, name) == Lookup(RestBase(xs, t), name)
                              && Lookup(bs, name) == Lookup(RestTarget(bs, t), name))
  {
    hide WfStores, LeavesOf, Less, Lookup;
    var t, n := TurnOf(xs, bs), NextName(xs, bs);
    NextIsBelow(xs, bs);
    assert Contents([]) == map[];
    hide Contents;
    LookupSide(xs, !t.TargetOnly?, RestBase(xs, t), n, name);
    LookupSide(bs, !t.BaseOnly?, RestTarget(bs, t), n, name);
  }

  /** The comparison counts no difference exactly when both snapshots hold the same under every store name. */
  lemma {:induction false} StoresDeltaZero(xs: seq<Store>, bs: seq<Store>)
    requires WfStores(xs) && WfStores(bs)
    ensures StoresDelta(xs, bs) == SAME <==> SameStores(xs, bs)
    decreases |xs| + |bs|
  {
    hide WfStores, LeavesOf, Contents, StoreDelta, Lookup, Less, TurnOf, NextName, BaseLeaves, TargetLeaves;
    if xs == [] && bs == [] {
    } else {
      var t, n := TurnOf(xs, bs), NextName(xs, bs);
      NextIsBelow(xs, bs);
      TurnLeaves(xs, bs);
      DeltaZero(BaseLeaves(xs, t), TargetLeaves(bs, t));
      StoresDeltaZero(RestBase(xs, t), RestTarget(bs, t));
      forall name ensures Lookup(xs, name) == Lookup(bs, name) <==>
          if name == n then Contents(BaseLeaves(xs, t)) == Contents(TargetLeaves(bs, t))
          else Lookup(RestBase(xs, t), name) == Lookup(RestTarget(bs, t), name) {
        LookupNext(xs, bs, name);
      }
      LookupNext(xs, bs, n);
      hide RestBase, RestTarget;
      SplitSame(xs, bs, RestBase(xs, t), RestTarget(bs, t), n);
    }
  }

  lemma SplitSame(xs: seq<Store>, bs: seq<Store>, xs': seq<Store>, bs': seq<Store>, n: bytes)
    requires Lookup(xs', n) == Lookup(bs', n)
    requires forall name :: name != n ==>
      (Lookup(xs, name) == Lookup(bs, name) <==> Lookup(xs', name) == Lookup(bs', name))
    ensures SameStores(xs, bs) <==> Lookup(xs, n) == Lookup(bs, n) && SameStores(xs', bs')
  {
    hide Lookup;
    if SameStores(xs, bs) {
      forall name ensures Lookup(xs', name) == Lookup(bs', name) {
        assert Lookup(xs, name) == Lookup(bs, name);
      }
    }
    if Lookup(xs, n) == Lookup(bs, n) && SameStores(xs', bs') {
      forall name ensures Lookup(xs, name) == Lookup(bs, name) {
        assert Lookup(xs', name) == Lookup(bs', name);
      }
    }
  }

  /** A target rebuilt from the base and the differ's records is equivalent to the target: comparing the two
      counts no difference. The records survive being written out and read back (NextRoundTrip). */
  lemma RebuiltIsEquivalent(bs: seq<Store>, ts: seq<Store>, more: seq<DiffRecord>)
    requires WfStores(bs) && WfStores(ts) && (more == [] || more[0].ExtEnter?)
    ensures var r := Applied(bs, StoreDiffs(bs, ts) + more);
            r.Some? && StoresDelta(r.value.0, ts) == SAME && r.value.1 == more
  {
    hide WfStores, StoreDiffs, Applied, StoresDelta, SameStores;
    StoresRoundTrip(bs, ts, more);
    StoresDeltaZero(Applied(bs, StoreDiffs(bs, ts) + more).value.0, ts);
  }

  /** Everything that the differ writes fits the length prefixes. */
  lemma {:induction false} DiffsFit(bs: seq<Store>, ts: seq<Store>)
    requires WfStores(bs) && WfStores(ts)
    ensures AllFit(StoreDiffs(bs, ts))
    decreases |bs| + |ts|
  {
    hide WfStores, LeavesOf, Merge, TurnOf, NextName, Less, Short;
    if bs != [] || ts != [] {
      var t := TurnOf(bs, ts);
      NextIsBelow(bs, ts);
      TurnLeaves(bs, ts);
      MergeFits(BaseLeaves(bs, t), TargetLeaves(ts, t));
      ChangesFit(StoreChangesOf(bs, ts));
      DiffsFit(RestBase(bs, t), RestTarget(ts, t));
    }
  }

  predicate ChangeFits(c: Change) { Fits(Changed(c)) }

  lemma {:induction false} ChangesFit(cs: seq<Change>)
    requires forall c :: c in cs ==> ChangeFits(c)
    ensures AllFit(ChangeRecords(cs))
  {
    hide Fits;
    if cs == [] {
      LeaveFits();
    } else {
      assert ChangeFits(cs[0]);
      ChangesFit(cs[1..]);
    }
  }

  lemma LeaveFits()
    ensures Fits(StoreLeave)
  {}

  lemma {:induction false} ShortLeaves(b: seq<bytes>)
    requires SortedRecords(b) && ShortContents(Contents(b))
    ensures b != [] ==> Short(Key(b[0])) && Short(Value(b[0])) && ShortContents(Contents(b[1..]))
  {
    if b != [] {
      HeadIsNew(b);
      HeadInContents(b);
      assert Contents(b)[Key(b[0])] == Value(b[0]);
      hide Key, Value, Less, Short;
      forall k | k in Contents(b[1..]) ensures Short(k) && Short(Contents(b[1..])[k]) {
        assert k in Contents(b);
      }
    }
  }

  lemma {:induction false} MergeFits(b: seq<bytes>, t: seq<bytes>)
    requires WfLeaves(b) && WfLeaves(t)
    ensures forall c :: c in Merge(Compare, b, t) ==> ChangeFits(c)
    decreases |b| + |t|
  {
    hide ScanKeyValue, Key, Value, Less, Short, Contents, ShortContents;
    ShortLeaves(b);
    ShortLeaves(t);
    if b != [] { assert Sound(b[0]); MergeFits(b[1..], t); }
    if t != [] { assert Sound(t[0]); MergeFits(b, t[1..]); }
    if b != [] && t != [] { MergeFits(b[1..], t[1..]); }
  }
}
