/** Diffing, patching and comparing whole snapshots, store by store in name order. */
module SnapshotDiff {
  import opened Bytes
  import opened Proto
  import opened LeafDiff
  import opened LeafApply
  import opened DiffStream

  /** A store of a snapshot: its IAVL item records, inner nodes included. */
  datatype Store = Store(name: bytes, items: seq<bytes>)

  function StoreLeaves(s: Store): seq<bytes> { LeavesOf(s.items) }

  predicate ShortContents(m: map<bytes, bytes>) {
    forall k :: k in m ==> Short(k) && Short(m[k])
  }

  /** Leaves in key order, readable the same way by differ and applier. */
  predicate WfStore(s: Store) {
    && s.name != [] && Short(s.name)
    && SortedRecords(StoreLeaves(s)) && AllSound(StoreLeaves(s)) && ShortContents(Contents(StoreLeaves(s)))
  }

  /** Well-formed stores with strictly increasing names. */
  predicate WfStores(ss: seq<Store>) {
    ss != [] ==>
      && WfStore(ss[0]) && WfStores(ss[1..])
      && forall s :: s in ss[1..] ==> Less(ss[0].name, s.name)
  }

  /** What a snapshot holds under a store name; a missing store holds nothing. */
  function Lookup(ss: seq<Store>, name: bytes): map<bytes, bytes> {
    if ss == [] then map[]
    else if ss[0].name == name then Contents(StoreLeaves(ss[0]))
    else Lookup(ss[1..], name)
  }

  ghost predicate SameStores(a: seq<Store>, b: seq<Store>) {
    forall name :: Lookup(a, name) == Lookup(b, name)
  }

  lemma {:induction false} NotListed(ss: seq<Store>, name: bytes)
    requires forall s :: s in ss ==> s.name != name
    ensures Lookup(ss, name) == map[]
  {
    if ss != [] {
      NotListed(ss[1..], name);
    }
  }

  lemma AboveIsMissing(ss: seq<Store>, name: bytes)
    requires forall s :: s in ss ==> Less(name, s.name)
    ensures Lookup(ss, name) == map[]
  {
    forall s | s in ss ensures s.name != name {
      LessIrreflexive(name);
    }
    NotListed(ss, name);
  }

  // ---------- the diff of all stores ----------

  datatype Turn = BaseOnly | TargetOnly | Both

  /** Which store comes next by name. */
  function TurnOf(bs: seq<Store>, ts: seq<Store>): (t: Turn)
    requires bs != [] || ts != []
    ensures !t.TargetOnly? ==> bs != []
    ensures !t.BaseOnly? ==> ts != []
    ensures t.Both? ==> bs[0].name == ts[0].name
  {
    if bs == [] then TargetOnly
    else if ts == [] then BaseOnly
    else if Less(bs[0].name, ts[0].name) then BaseOnly
    else if Less(ts[0].name, bs[0].name) then TargetOnly
    else LessTotal(bs[0].name, ts[0].name); Both
  }

  function BaseLeaves(bs: seq<Store>, t: Turn): seq<bytes>
    requires !t.TargetOnly? ==> bs != []
  {
    if t.TargetOnly? then [] else StoreLeaves(bs[0])
  }

  function TargetLeaves(ts: seq<Store>, t: Turn): seq<bytes>
    requires !t.BaseOnly? ==> ts != []
  {
    if t.BaseOnly? then [] else StoreLeaves(ts[0])
  }

  function NextName(bs: seq<Store>, ts: seq<Store>): bytes
    requires bs != [] || ts != []
  {
    if TurnOf(bs, ts).TargetOnly? then ts[0].name else bs[0].name
  }

  function RestBase(bs: seq<Store>, t: Turn): seq<Store>
    requires !t.TargetOnly? ==> bs != []
  {
    if t.TargetOnly? then bs else bs[1..]
  }

  function RestTarget(ts: seq<Store>, t: Turn): seq<Store>
    requires !t.BaseOnly? ==> ts != []
  {
    if t.BaseOnly? then ts else ts[1..]
  }

  function StoreChangesOf(bs: seq<Store>, ts: seq<Store>): seq<Change>
    requires bs != [] || ts != []
  {
    var t := TurnOf(bs, ts);
    Merge(Compare, BaseLeaves(bs, t), TargetLeaves(ts, t))
  }

  function StoreDiffs(bs: seq<Store>, ts: seq<Store>): seq<DiffRecord>
    decreases |bs| + |ts|
  {
    if bs == [] && ts == [] then []
    else
      var t := TurnOf(bs, ts);
      StoreRecords(NextName(bs, ts), StoreChangesOf(bs, ts)) + StoreDiffs(RestBase(bs, t), RestTarget(ts, t))
  }

  /** The reader of a snapshot, positioned before a store. */
  class SnapshotReader {
    const stores: seq<Store>
    var next: nat

    ghost predicate Valid() reads this { next <= |stores| }
    ghost function Todo(): seq<Store> reads this requires Valid() { stores[next..] }

    constructor (stores: seq<Store>)
      ensures Valid() && this.stores == stores && Todo() == stores
    {
      this.stores, next := stores, 0;
    }

    /** The name of the next store, or None when the stores are over. */
    method PeekStore() returns (name: Option<bytes>)
      requires Valid()
      ensures name == if Todo() == [] then None else Some(Todo()[0].name)
    {
      name := if next < |stores| then Some(stores[next].name) else None;
    }

    /** Enters the next store. */
    method OpenStore() returns (r: RecordReader)
      requires Valid() && Todo() != []
      modifies this
      ensures Valid() && Todo() == old(Todo())[1..]
      ensures fresh(r) && r.Valid() && r.Rest() == StoreLeaves(old(Todo())[0])
    {
      r := new RecordReader(stores[next].items);
      next := next + 1;
    }
  }

  method EmitChanges(name: bytes, cs: seq<Change>) returns (rs: seq<DiffRecord>)
    ensures rs == StoreRecords(name, cs)
  {
    rs := [StoreEnter(name)];
    var i := 0;
    assert cs[0..] == cs;
    while i < |cs|
      invariant 0 <= i <= |cs|
      invariant rs + ChangeRecords(cs[i..]) == StoreRecords(name, cs)
    {
      assert cs[i..][1..] == cs[i + 1..];
      rs := rs + [Changed(cs[i])];
      i := i + 1;
    }
    rs := rs + [StoreLeave];
  }

  /** One store of the stream: both readers are entered as the names say. */
  method DiffNextStore(base: SnapshotReader, target: SnapshotReader, t: Turn, name: bytes)
    returns (rs: seq<DiffRecord>, ss: StoreStats)
    requires base.Valid() && target.Valid() && base != target && (base.Todo() != [] || target.Todo() != [])
    requires t == TurnOf(base.Todo(), target.Todo()) && name == NextName(base.Todo(), target.Todo())
    modifies base, target
    ensures base.Valid() && target.Valid()
    ensures base.Todo() == RestBase(old(base.Todo()), t) && target.Todo() == RestTarget(old(target.Todo()), t)
    ensures rs == StoreRecords(name, StoreChangesOf(old(base.Todo()), old(target.Todo())))
  {
    hide Merge, TurnOf, StoreRecords, LeavesOf;
    var b, g: RecordReader;
    if t.TargetOnly? {
      b := new RecordReader([]);
      NoLeaves();
    } else {
      b := base.OpenStore();
    }
    if t.BaseOnly? {
      g := new RecordReader([]);
      NoLeaves();
    } else {
      g := target.OpenStore();
    }
    var cs;
    cs, ss := DiffStore(b, g);
    rs := EmitChanges(name, cs);
  }

  lemma NoLeaves()
    ensures LeavesOf([]) == []
  {}

  /** Compares the next store names; None when both sides are over. */
  method ChooseTurn(base: SnapshotReader, target: SnapshotReader) returns (turn: Option<(Turn, bytes)>)
    requires base.Valid() && target.Valid()
    ensures var bs, ts := base.Todo(), target.Todo();
            turn == if bs == [] && ts == [] then None else Some((TurnOf(bs, ts), NextName(bs, ts)))
  {
    hide Less;
    var b := base.PeekStore();
    var g := target.PeekStore();
    if b.None? && g.None? {
      return None;
    }
    if b.None? {
      return Some((TargetOnly, g.value));
    }
    if g.None? || Less(b.value, g.value) {
      return Some((BaseOnly, b.value));
    }
    if Less(g.value, b.value) {
      return Some((TargetOnly, g.value));
    }
    return Some((Both, b.value));
  }

  /** The stores part of the differ: it walks both snapshots in name order. */
  method ComputeStream(base: SnapshotReader, target: SnapshotReader) returns (rs: seq<DiffRecord>)
    requires base.Valid() && target.Valid() && base != target
    modifies base, target
    ensures rs == StoreDiffs(old(base.Todo()), old(target.Todo()))
  {
    hide Merge, LeavesOf, StoreRecords, TurnOf, NextName, Less, SnapshotReader.Todo;
    rs := [];
    while true
      invariant base.Valid() && target.Valid()
      invariant rs + StoreDiffs(base.Todo(), target.Todo()) == StoreDiffs(old(base.Todo()), old(target.Todo()))
      decreases |base.Todo()| + |target.Todo()|
    {
      var turn := ChooseTurn(base, target);
      if turn.None? {
        return;
      }
      var more, ss := DiffNextStore(base, target, turn.value.0, turn.value.1);
      AppendMore(rs, more, StoreDiffs(base.Todo(), target.Todo()));
      rs := rs + more;
    }
  }

  lemma AppendMore(a: seq<DiffRecord>, b: seq<DiffRecord>, c: seq<DiffRecord>)
    ensures a + (b + c) == (a + b) + c
  {}

  // ---------- applying a diff ----------

  /** The patched leaves of a store, or None when there is nothing to emit. */
  ghost function PatchStore(ch: ChangeSet, leaves: seq<bytes>): Option<seq<bytes>> {
    if leaves == [] && ch.inserts == map[] then None else Some(Emit(ch, leaves, Ordered(ch.inserts.Keys)))
  }

  ghost function EmittedStore(name: bytes, items: Option<seq<bytes>>): seq<Store> {
    if items.Some? then [Store(name, items.value)] else []
  }

  /** The stores that a diff makes of a base and the records left over, or None when the diff does not fit. */
  ghost function Applied(bs: seq<Store>, rs: seq<DiffRecord>): Option<(seq<Store>, seq<DiffRecord>)>
    decreases |bs| + |rs|
  {
    var todo := ToSection(rs);
    var sec := SectionOf(todo);
    if bs == [] && !sec.StoreSection? then Some(([], todo))
    else if bs == [] || (sec.StoreSection? && Less(sec.name, bs[0].name)) then
      var (cs, rest) := TakeChanges(todo[1..]);
      var ch := Collect(cs);
      if ch.deletes != {} || ch.updates != map[] then None
      else Emitted(EmittedStore(sec.name, PatchStore(ch, [])), Applied(bs, rest))
    else if !sec.StoreSection? || Less(bs[0].name, sec.name) then
      Emitted(EmittedStore(bs[0].name, PatchStore(NO_CHANGES, StoreLeaves(bs[0]))), Applied(bs[1..], todo))
    else
      var (cs, rest) := TakeChanges(todo[1..]);
      Emitted(EmittedStore(bs[0].name, PatchStore(Collect(cs), StoreLeaves(bs[0]))), Applied(bs[1..], rest))
  }

  ghost function Emitted(first: seq<Store>,
                         rest: Option<(seq<Store>, seq<DiffRecord>)>): Option<(seq<Store>, seq<DiffRecord>)> {
    if rest.None? then None else Some((first + rest.value.0, rest.value.1))
  }

  lemma EmittedNothing(x: Option<(seq<Store>, seq<DiffRecord>)>)
    ensures Emitted([], x) == x
  {
    if x.Some? {
      assert [] + x.value.0 == x.value.0;
    }
  }

  lemma EmittedTwice(a: seq<Store>, b: seq<Store>, x: Option<(seq<Store>, seq<DiffRecord>)>)
    ensures Emitted(a, Emitted(b, x)) == Emitted(a + b, x)
  {
    if x.Some? {
      assert a + (b + x.value.0) == a + b + x.value.0;
    }
  }

  /** A section for a store that the base lacks is accepted exactly when it only inserts: with an update or a delete the
      whole diff is rejected, and otherwise the rest of it decides. */
  lemma {:induction false} NeedsBase(bs: seq<Store>, name: bytes, cs: seq<Change>, rest: seq<DiffRecord>)
    requires WfStores(bs) && forall s :: s in bs ==> s.name != name
    ensures !InsertsOnly(cs) ==> Applied(bs, StoreRecords(name, cs) + rest).None?
    ensures InsertsOnly(cs) && (bs == [] || Less(name, bs[0].name)) ==>
      (Applied(bs, StoreRecords(name, cs) + rest).Some? <==> Applied(bs, rest).Some?)
  {
    hide PatchStore, Collect, LeavesOf, Less, InsertsOnly, TakeChanges, StoreLeaves;
    var rs := StoreRecords(name, cs) + rest;
    assert rs[0] == StoreEnter(name) && rs[1..] == ChangeRecords(cs) + rest;
    TakesSection(cs, rest);
    CollectsInserts(cs);
    if bs != [] && !Less(name, bs[0].name) {
      LessTotal(name, bs[0].name);
      NeedsBase(bs[1..], name, cs, rest);
    }
  }

  method PatchNextStore(name: bytes, ch: ChangeSet, r: RecordReader) returns (out: seq<Store>)
    requires r.Valid()
    modifies r
    ensures out == EmittedStore(name, PatchStore(ch, old(r.Rest())))
  {
    hide Emit, RecordReader.Rest, LeavesOf, Increasing;
    var items;
    ghost var ins;
    items, ins := EmitStoreFromBase(ch, r);
    IncreasingUnique(ins, Ordered(ch.inserts.Keys));
    assert ins == [] <==> ch.inserts == map[] by {
      if ins != [] { assert ins[0] in ch.inserts; }
    }
    out := if items.Some? then [Store(name, items.value)] else [];
  }

  lemma EmittedEnd(a: seq<Store>, todo: seq<DiffRecord>)
    ensures Emitted(a, Some(([], todo))) == Some((a, todo))
    ensures Emitted(a, None) == None
  {
    assert a + [] == a;
  }

  lemma {:induction false} AppliedFromSection(bs: seq<Store>, rs: seq<DiffRecord>)
    ensures ToSection(ToSection(rs)) == ToSection(rs)
    ensures Applied(bs, rs) == Applied(bs, ToSection(rs))
  {
    hide PatchStore, Collect, TakeChanges, LeavesOf, Less;
  }

  /** One store of the output; fails when the diff updates or deletes in a store that the base lacks. */
  method ApplyNext(base: SnapshotReader, dr: DiffReader, b: Option<bytes>, sec: Section)
    returns (ok: bool, more: seq<Store>)
    requires base.Valid() && dr.Valid()
    requires b == if base.Todo() == [] then None else Some(base.Todo()[0].name)
    requires dr.todo == ToSection(dr.todo) && sec == SectionOf(dr.todo) && (!sec.NoSection? ==> dr.pending)
    requires b.Some? || sec.StoreSection?
    modifies base, dr
    ensures base.Valid() && dr.Valid()
    ensures if ok then Applied(old(base.Todo()), old(dr.todo)) == Emitted(more, Applied(base.Todo(), dr.todo))
            else Applied(old(base.Todo()), old(dr.todo)) == None
    ensures ok ==> |base.Todo()| + |dr.todo| < |old(base.Todo())| + |old(dr.todo)|
  {
    hide PatchStore, Collect, TakeChanges, LeavesOf, DiffReader.Valid, RecordReader.Rest, Emitted, Less, ToSection;
    if b.None? || (sec.StoreSection? && Less(sec.name, b.value)) {
      dr.ConsumeRecord();
      var ch := dr.ReadStoreChanges();
      if ch.deletes != {} || ch.updates != map[] {
        return false, [];
      }
      var none := new RecordReader([]);
      NoLeaves();
      more := PatchNextStore(sec.name, ch, none);
    } else if !sec.StoreSection? || Less(b.value, sec.name) {
      var r := base.OpenStore();
      more := PatchNextStore(b.value, NO_CHANGES, r);
    } else {
      dr.ConsumeRecord();
      var ch := dr.ReadStoreChanges();
      var r := base.OpenStore();
      more := PatchNextStore(b.value, ch, r);
    }
    ok := true;
  }

  /** The stores part of the applier: it walks the base and the diff in name order. */
  method Apply(base: SnapshotReader, dr: DiffReader) returns (out: Option<seq<Store>>)
    requires base.Valid() && dr.Valid()
    modifies base, dr
    ensures base.Valid() && dr.Valid()
    ensures var r := Applied(old(base.Todo()), old(dr.todo));
            if r.None? then out == None else out == Some(r.value.0) && dr.todo == r.value.1
  {
    hide PatchStore, Collect, TakeChanges, LeavesOf, DiffReader.Valid, RecordReader.Rest, Emitted, Less, ToSection,
      Applied;
    var stores: seq<Store> := [];
    EmittedNothing(Applied(base.Todo(), dr.todo));
    while true
      invariant base.Valid() && dr.Valid()
      invariant Applied(old(base.Todo()), old(dr.todo)) == Emitted(stores, Applied(base.Todo(), dr.todo))
      decreases |base.Todo()| + |dr.todo|
    {
      AppliedFromSection(base.Todo(), dr.todo);
      var b := base.PeekStore();
      var sec := dr.PeekSection();
      if b.None? && !sec.StoreSection? {
        AppliedOver(dr.todo);
        EmittedEnd(stores, dr.todo);
        return Some(stores);
      }
      var ok, more := ApplyNext(base, dr, b, sec);
      if !ok {
        EmittedEnd(stores, dr.todo);
        return None;
      }
      EmittedTwice(stores, more, Applied(base.Todo(), dr.todo));
      stores := stores + more;
    }
  }

  lemma AppliedOver(rs: seq<DiffRecord>)
    requires ToSection(rs) == rs && !SectionOf(rs).StoreSection?
    ensures Applied([], rs) == Some(([], rs))
  {}

  // ---------- the round trip over all stores ----------

  lemma {:induction false} AllLeaves(items: seq<bytes>)
    requires forall r :: r in items ==> IsLeafRecord(r)
    ensures LeavesOf(items) == items
  {
    if items != [] {
      AllLeaves(items[1..]);
    }
  }

  /** Everything that Emit writes is a leaf that both sides read the same way. */
  lemma {:induction false} EmitsItems(ch: ChangeSet, b: seq<bytes>, ins: seq<bytes>)
    requires (forall k :: k in ins ==> k in ch.inserts) && Small(ch.inserts) && Small(ch.updates)
    requires forall r :: r in b ==> |Key(r)| < TWO_64 && |Value(r)| < TWO_64
    ensures forall r :: r in Emit(ch, b, ins) ==> IsLeafRecord(r) && Sound(r)
    decreases |b| + |ins|
  {
    hide OutItem, Key, Value, Less, IsLeafRecord, Sound;
    if b != [] {
      var k := Key(b[0]);
      assert |k| < TWO_64;
      OutItemReads(k, Value(b[0]));
      if k in ch.updates { OutItemReads(k, ch.updates[k]); }
      EmitsItems(ch, b[1..], ins);
    }
    if ins != [] {
      OutItemReads(ins[0], ch.inserts[ins[0]]);
      EmitsItems(ch, b, ins[1..]);
    }
    if b != [] && ins != [] {
      EmitsItems(ch, b[1..], ins[1..]);
    }
  }

  lemma {:induction false} ShortRecords(b: seq<bytes>)
    requires SortedRecords(b) && Small(Contents(b))
    ensures forall r :: r in b ==> |Key(r)| < TWO_64 && |Value(r)| < TWO_64
  {
    hide Key, Value, Less;
    if b != [] {
      SmallRest(b);
      ShortRecords(b[1..]);
    }
  }

  predicate WfLeaves(b: seq<bytes>) {
    SortedRecords(b) && AllSound(b) && ShortContents(Contents(b))
  }

  /** One store: the patch has the target's contents, and nothing is emitted only when there are none. */
  lemma PatchedStore(b: seq<bytes>, t: seq<bytes>)
    requires WfLeaves(b) && WfLeaves(t)
    ensures match PatchStore(Collect(Merge(Compare, b, t)), b)
            case None => Contents(t) == map[]
            case Some(out) => LeavesOf(out) == out && WfLeaves(out) && Contents(out) == Contents(t)
  {
    var ch := Collect(Merge(Compare, b, t));
    CompareZero();
    DiffPatches(Compare, b, t);
    hide Collect, Merge, Contents, SortedRecords, AllSound, Sound, IsLeafRecord, LeavesOf, Increasing;
    assert Small(Contents(b)) && Small(Contents(t));
    InsertsFromTarget(Compare, b, t);
    if b == [] && ch.inserts == map[] {
      assert Contents(b) == map[] by { HeadInContents(b); }
    } else {
      var ins := Ordered(ch.inserts.Keys);
      DiffThenApply(Compare, b, t, ins);
      ShortRecords(b);
      EmitsItems(ch, b, ins);
      hide Emit, Patched;
      var out := Emit(ch, b, ins);
      AllLeaves(out);
      assert AllSound(out) by { SoundAll(out); }
    }
  }

  lemma SoundAll(out: seq<bytes>)
    requires forall r :: r in out ==> Sound(r)
    ensures AllSound(out)
  {}

  /** A section that only the target has inserts and does nothing else. */
  lemma OnlyInserts(t: seq<bytes>)
    requires WfLeaves(t)
    ensures var ch := Collect(Merge(Compare, [], t)); ch.deletes == {} && ch.updates == map[]
  {
    var ch := Collect(Merge(Compare, [], t));
    CompareZero();
    assert SortedRecords([]) && AllSound([]) && Contents([]) == map[];
    hide Collect, Merge, SortedRecords, AllSound, Contents;
    forall k ensures k !in ch.deletes && k !in ch.updates {
      MergeTells(Compare, [], t, k);
    }
  }

  function NamesOf(ss: seq<Store>): set<bytes> {
    set s | s in ss :: s.name
  }

  /** The patch of one store is well-formed and has the contents of the target's store. */
  predicate GoodItems(items: Option<seq<bytes>>, target: seq<bytes>) {
    match items
    case None => Contents(target) == map[]
    case Some(x) => LeavesOf(x) == x && WfLeaves(x) && Contents(x) == Contents(target)
  }

  lemma {:induction false} LookupFirst(items: Option<seq<bytes>>, out: seq<Store>, n: bytes, name: bytes)
    ensures Lookup(EmittedStore(n, items) + out, name)
         == if items.Some? && name == n then Contents(LeavesOf(items.value)) else Lookup(out, name)
  {
    hide Contents, LeavesOf;
    var all := EmittedStore(n, items) + out;
    if items.Some? {
      assert all[1..] == out;
    } else {
      assert all == out;
    }
  }

  lemma GoodContents(bs: seq<Store>, ts: seq<Store>, items: Option<seq<bytes>>, out: seq<Store>, name: bytes)
    requires WfStores(bs) && WfStores(ts) && (bs != [] || ts != [])
    requires var t := TurnOf(bs, ts);
             && Lookup(out, name) == Lookup(RestTarget(ts, t), name)
             && GoodItems(items, TargetLeaves(ts, t))
             && (forall s :: s in out ==> Less(NextName(bs, ts), s.name))
    ensures Lookup(EmittedStore(NextName(bs, ts), items) + out, name) == Lookup(ts, name)
  {
    hide WfLeaves, LeavesOf, Less, EmittedStore, WfStores;
    var t, n := TurnOf(bs, ts), NextName(bs, ts);
    NextIsBelow(bs, ts);
    AboveIsMissing(out, n);
    AboveIsMissing(RestTarget(ts, t), n);
    LookupFirst(items, out, n, name);
  }

  lemma NamesAbove(bs: seq<Store>, ts: seq<Store>, out: seq<Store>)
    requires WfStores(bs) && WfStores(ts) && (bs != [] || ts != [])
    requires NamesOf(out) <= NamesOf(RestBase(bs, TurnOf(bs, ts))) + NamesOf(RestTarget(ts, TurnOf(bs, ts)))
    ensures forall s :: s in out ==> Less(NextName(bs, ts), s.name)
  {
    hide WfStores, Less;
    NextIsBelow(bs, ts);
    forall s | s in out ensures Less(NextName(bs, ts), s.name) {
      assert s.name in NamesOf(out);
    }
  }

  lemma GoodShape(bs: seq<Store>, ts: seq<Store>, items: Option<seq<bytes>>, out: seq<Store>)
    requires WfStores(bs) && WfStores(ts) && (bs != [] || ts != []) && WfStores(out)
    requires GoodItems(items, TargetLeaves(ts, TurnOf(bs, ts)))
    requires forall s :: s in out ==> Less(NextName(bs, ts), s.name)
    ensures WfStores(EmittedStore(NextName(bs, ts), items) + out)
  {
    hide SortedRecords, AllSound, ShortContents, LeavesOf, Contents, Less, TurnOf, NextName;
    NextIsBelow(bs, ts);
    var all := EmittedStore(NextName(bs, ts), items) + out;
    if items.Some? {
      assert all[1..] == out;
    } else {
      assert all == out;
    }
  }

  /** The output of one section followed by good output is good output. */
  lemma GoodStep(bs: seq<Store>, ts: seq<Store>, items: Option<seq<bytes>>, out: seq<Store>)
    requires WfStores(bs) && WfStores(ts) && (bs != [] || ts != [])
    requires var t := TurnOf(bs, ts);
             && SameStores(out, RestTarget(ts, t)) && WfStores(out)
             && NamesOf(out) <= NamesOf(RestBase(bs, t)) + NamesOf(RestTarget(ts, t))
             && GoodItems(items, TargetLeaves(ts, t))
    ensures var all := EmittedStore(NextName(bs, ts), items) + out;
            SameStores(all, ts) && WfStores(all) && NamesOf(all) <= NamesOf(bs) + NamesOf(ts)
  {
    hide WfStores, GoodItems, Less, NextName, TurnOf, Lookup;
    NamesAbove(bs, ts, out);
    GoodShape(bs, ts, items, out);
    var all := EmittedStore(NextName(bs, ts), items) + out;
    forall name ensures Lookup(all, name) == Lookup(ts, name) {
      GoodContents(bs, ts, items, out, name);
    }
    NameOfNext(bs, ts);
    NamesOfFirst(NextName(bs, ts), items, out);
  }

  lemma NamesOfFirst(n: bytes, items: Option<seq<bytes>>, out: seq<Store>)
    ensures NamesOf(EmittedStore(n, items) + out) <= NamesOf(out) + {n}
  {
    hide NamesOf;
    var all := EmittedStore(n, items) + out;
    assert forall x :: x in NamesOf(all) ==> x in NamesOf(out) + {n} by {
      forall x | x in NamesOf(all) ensures x in NamesOf(out) + {n} {
        NamesSplit(EmittedStore(n, items), out, x);
        if x in NamesOf(EmittedStore(n, items)) { OneName(n, items, x); }
      }
    }
  }

  lemma NamesSplit(a: seq<Store>, b: seq<Store>, x: bytes)
    ensures x in NamesOf(a + b) <==> x in NamesOf(a) || x in NamesOf(b)
  {
    if x in NamesOf(a) {
      var s :| s in a && s.name == x;
      assert s in a + b;
    }
    if x in NamesOf(b) {
      var s :| s in b && s.name == x;
      assert s in a + b;
    }
  }

  lemma OneName(n: bytes, items: Option<seq<bytes>>, x: bytes)
    requires x in NamesOf(EmittedStore(n, items))
    ensures x == n
  {}

  lemma NameOfNext(bs: seq<Store>, ts: seq<Store>)
    requires bs != [] || ts != []
    ensures NextName(bs, ts) in NamesOf(bs) + NamesOf(ts)
    ensures NamesOf(RestBase(bs, TurnOf(bs, ts))) <= NamesOf(bs)
      && NamesOf(RestTarget(ts, TurnOf(bs, ts))) <= NamesOf(ts)
  {
    hide WfStore;
    if bs != [] { assert bs[0] in bs; }
    if ts != [] { assert ts[0] in ts; }
  }

  lemma NextIsBelow(bs: seq<Store>, ts: seq<Store>)
    requires WfStores(bs) && WfStores(ts) && (bs != [] || ts != [])
    ensures var t, n := TurnOf(bs, ts), NextName(bs, ts);
            && (forall s :: s in RestBase(bs, t) ==> Less(n, s.name))
            && (forall s :: s in RestTarget(ts, t) ==> Less(n, s.name))
            && WfStores(RestBase(bs, t)) && WfStores(RestTarget(ts, t))
            && n != [] && Short(n)
  {
    hide SortedRecords, AllSound, ShortContents;
    var t, n := TurnOf(bs, ts), NextName(bs, ts);
    forall s | s in RestBase(bs, t) ensures Less(n, s.name) {
      if t.TargetOnly? && s != bs[0] { LessTransitive(n, bs[0].name, s.name); }
    }
    forall s | s in RestTarget(ts, t) ensures Less(n, s.name) {
      if t.BaseOnly? && s != ts[0] { LessTransitive(n, ts[0].name, s.name); }
    }
  }

  /** The applier takes the next section for exactly the store that the differ wrote it for. */
  lemma AppliedStep(bs: seq<Store>, ts: seq<Store>, rest: seq<DiffRecord>)
    requires WfStores(bs) && WfStores(ts) && (bs != [] || ts != [])
    ensures var t, cs, n := TurnOf(bs, ts), StoreChangesOf(bs, ts), NextName(bs, ts);
            Applied(bs, StoreRecords(n, cs) + rest)
            == Emitted(EmittedStore(n, PatchStore(Collect(cs), BaseLeaves(bs, t))), Applied(RestBase(bs, t), rest))
  {
    var t, cs, n := TurnOf(bs, ts), StoreChangesOf(bs, ts), NextName(bs, ts);
    hide SortedRecords, AllSound, ShortContents, LeavesOf, Contents, Merge, Collect, PatchStore, ChangeRecords;
    var rs := StoreRecords(n, cs) + rest;
    assert rs[0] == StoreEnter(n) && rs[1..] == ChangeRecords(cs) + rest;
    TakesSection(cs, rest);
    LessIrreflexive(n);
    if t.TargetOnly? {
      assert WfStore(ts[0]);
      OnlyInserts(StoreLeaves(ts[0]));
      if bs != [] { LessAsymmetric(n, bs[0].name); }
    }
    hide Less, TakeChanges;
  }

  /** Applying the differ's records to the base gives stores with the target's contents under every name. */
  lemma {:induction false} StoresRoundTrip(bs: seq<Store>, ts: seq<Store>, more: seq<DiffRecord>)
    requires WfStores(bs) && WfStores(ts)
    requires more == [] || more[0].ExtEnter?
    ensures var r := Applied(bs, StoreDiffs(bs, ts) + more);
            && r.Some? && r.value.1 == more
            && SameStores(r.value.0, ts) && WfStores(r.value.0) && NamesOf(r.value.0) <= NamesOf(bs) + NamesOf(ts)
    decreases |bs| + |ts|
  {
    hide SortedRecords, AllSound, ShortContents, LeavesOf, Contents, Merge, Collect, PatchStore, StoreRecords, Less,
      EmittedStore;
    if bs == [] && ts == [] {
      assert [] + more == more;
    } else {
      var t, cs, n := TurnOf(bs, ts), StoreChangesOf(bs, ts), NextName(bs, ts);
      var rest := StoreDiffs(RestBase(bs, t), RestTarget(ts, t)) + more;
      assert StoreDiffs(bs, ts) + more == StoreRecords(n, cs) + rest;
      NextIsBelow(bs, ts);
      AppliedStep(bs, ts, rest);
      StoresRoundTrip(RestBase(bs, t), RestTarget(ts, t), more);
      TurnLeaves(bs, ts);
      PatchedStore(BaseLeaves(bs, t), TargetLeaves(ts, t));
      GoodStep(bs, ts, PatchStore(Collect(cs), BaseLeaves(bs, t)), Applied(RestBase(bs, t), rest).value.0);
    }
  }

  lemma TurnLeaves(bs: seq<Store>, ts: seq<Store>)
    requires WfStores(bs) && WfStores(ts) && (bs != [] || ts != [])
    ensures WfLeaves(BaseLeaves(bs, TurnOf(bs, ts))) && WfLeaves(TargetLeaves(ts, TurnOf(bs, ts)))
  {
    hide LeavesOf, Less;
  }
}
