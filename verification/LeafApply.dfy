/** The applier of one store: a change set collected from the diff is merged with the base leaves. Applying
    the differ's changes to the base gives exactly the target's keys and values, in order. */
module LeafApply {
  import opened Bytes
  import opened Proto
  import opened LeafDiff

  // ---------- change sets ----------

  datatype ChangeSet = ChangeSet(inserts: map<bytes, bytes>, updates: map<bytes, bytes>, deletes: set<bytes>)

  const NO_CHANGES := ChangeSet(map[], map[], {})

  function Record(ch: ChangeSet, c: Change): ChangeSet {
    match c
    case Insert(k, v) => ch.(inserts := ch.inserts[k := v])
    case Update(k, v) => ch.(updates := ch.updates[k := v])
    case Delete(k) => ch.(deletes := ch.deletes + {k})
  }

  /** The later change set wins. */
  function Overlay(a: ChangeSet, b: ChangeSet): ChangeSet {
    ChangeSet(a.inserts + b.inserts, a.updates + b.updates, a.deletes + b.deletes)
  }

  function Collect(cs: seq<Change>): ChangeSet {
    if cs == [] then NO_CHANGES else Overlay(Record(NO_CHANGES, cs[0]), Collect(cs[1..]))
  }

  /** Reading one more change records it on top of what has been collected. */
  lemma {:induction false} CollectAppend(cs: seq<Change>, c: Change)
    ensures Collect(cs + [c]) == Record(Collect(cs), c)
  {
    if cs == [] {
      assert ([] + [c])[1..] == [];
      EmptyOverlay(Record(NO_CHANGES, c));
      hide Record, Overlay;
    } else {
      assert (cs + [c])[1..] == cs[1..] + [c];
      CollectAppend(cs[1..], c);
      OverlayRecord(Record(NO_CHANGES, cs[0]), Collect(cs[1..]), c);
      hide Record, Overlay;
    }
  }

  lemma OverlayRecord(a: ChangeSet, b: ChangeSet, c: Change)
    ensures Overlay(a, Record(b, c)) == Record(Overlay(a, b), c)
  {
    match c {
      case Insert(k, v) => assert a.inserts + b.inserts[k := v] == (a.inserts + b.inserts)[k := v];
      case Update(k, v) => assert a.updates + b.updates[k := v] == (a.updates + b.updates)[k := v];
      case Delete(k) => assert a.deletes + (b.deletes + {k}) == a.deletes + b.deletes + {k};
    }
  }

  lemma EmptyOverlay(a: ChangeSet)
    ensures Overlay(a, NO_CHANGES) == a
  {
    assert a.inserts + map[] == a.inserts && a.updates + map[] == a.updates && a.deletes + {} == a.deletes;
  }

  predicate InsertsOnly(cs: seq<Change>) {
    forall c :: c in cs ==> c.Insert?
  }

  lemma {:induction false} CollectsInserts(cs: seq<Change>)
    ensures Collect(cs).deletes == {} && Collect(cs).updates == map[] <==> InsertsOnly(cs)
  {
    if cs != [] {
      CollectsInserts(cs[1..]);
      assert cs == [cs[0]] + cs[1..];
      FirstCollected(cs[0], Collect(cs[1..]));
      assert InsertsOnly(cs) <==> cs[0].Insert? && InsertsOnly(cs[1..]);
      hide Collect, InsertsOnly, Overlay, Record;
      assert Collect(cs) == Overlay(Record(NO_CHANGES, cs[0]), Collect(cs[1..])) by { CollectFirst(cs[0], cs[1..]); }
    }
  }

  lemma FirstCollected(c: Change, ch: ChangeSet)
    ensures var more := Overlay(Record(NO_CHANGES, c), ch);
            more.deletes == {} && more.updates == map[] <==> c.Insert? && ch.deletes == {} && ch.updates == map[]
  {
    match c {
      case Insert(k, v) =>
        assert {} + ch.deletes == ch.deletes && map[] + ch.updates == ch.updates;
      case Update(k, v) =>
        assert k in map[][k := v] + ch.updates;
      case Delete(k) =>
        assert k in {} + {k} + ch.deletes;
    }
  }

  // ---------- contents of a leaf list ----------

  function Contents(rs: seq<bytes>): map<bytes, bytes> {
    if rs == [] then map[] else Contents(rs[1..])[Key(rs[0]) := Value(rs[0])]
  }

  /** Strictly increasing keys. */
  predicate SortedRecords(rs: seq<bytes>) {
    rs != [] ==> (forall k :: k in Contents(rs[1..]) ==> Less(Key(rs[0]), k)) && SortedRecords(rs[1..])
  }

  predicate AllSound(rs: seq<bytes>) {
    forall r :: r in rs ==> Sound(r)
  }

  function Pairs(rs: seq<bytes>): seq<(bytes, bytes)> {
    if rs == [] then [] else [(Key(rs[0]), Value(rs[0]))] + Pairs(rs[1..])
  }

  lemma HeadInContents(rs: seq<bytes>)
    ensures rs == [] <==> Contents(rs) == map[]
    ensures rs != [] ==> Key(rs[0]) in Contents(rs)
  {
    hide Key, Value;
  }

  /** A sorted list is determined by its contents. */
  lemma {:induction false} SortedUnique(a: seq<bytes>, b: seq<bytes>)
    requires SortedRecords(a) && SortedRecords(b) && Contents(a) == Contents(b)
    ensures Pairs(a) == Pairs(b)
  {
    hide Key, Value;
    HeadInContents(a);
    HeadInContents(b);
    if a != [] {
      var k := Key(a[0]);
      assert b != [] && k == Key(b[0]) by {
        if b != [] && Key(b[0]) != k {
          LessAsymmetric(k, Key(b[0]));
        }
      }
      LessIrreflexive(k);
      assert Contents(a[1..]) == Contents(a) - {k} == Contents(b) - {k} == Contents(b[1..]);
      SortedUnique(a[1..], b[1..]);
    }
  }

  // ---------- what the differ's changes say ----------

  /** The effect of a change set on a store's contents. */
  function Patched(ch: ChangeSet, base: map<bytes, bytes>): map<bytes, bytes> {
    (map k | k in base && k !in ch.deletes :: if k in ch.updates then ch.updates[k] else base[k]) + ch.inserts
  }

  /** What a change set between two leaf lists must say about key k. */
  ghost predicate Tells(ch: ChangeSet, base: map<bytes, bytes>, target: map<bytes, bytes>, k: bytes) {
    && (k in ch.deletes ==> k in base)
    && (k in ch.inserts ==> k in target && ch.inserts[k] == target[k])
    && (k in ch.updates ==> k in base && k in target && k !in ch.deletes)
    && (k in base && k !in ch.deletes ==>
        k in target && k !in ch.inserts && target[k] == if k in ch.updates then ch.updates[k] else base[k])
    && (k in target && k !in ch.inserts ==> k in base && k !in ch.deletes)
  }

  lemma TellsInsert(ch: ChangeSet, base: map<bytes, bytes>, target: map<bytes, bytes>, x: bytes, v: bytes, k: bytes)
    requires Tells(ch, base, target, k) && x !in target
    ensures Tells(Overlay(Record(NO_CHANGES, Insert(x, v)), ch), base, target[x := v], k)
  {}

  lemma TellsDelete(ch: ChangeSet, base: map<bytes, bytes>, target: map<bytes, bytes>, x: bytes, v: bytes, k: bytes)
    requires Tells(ch, base, target, k) && x !in base
    ensures Tells(Overlay(Record(NO_CHANGES, Delete(x)), ch), base[x := v], target, k)
  {}

  lemma TellsUpdate(ch: ChangeSet, base: map<bytes, bytes>, target: map<bytes, bytes>, x: bytes, v: bytes, w: bytes,
                    k: bytes)
    requires Tells(ch, base, target, k) && x !in base && x !in target
    ensures Tells(Overlay(Record(NO_CHANGES, Update(x, w)), ch), base[x := v], target[x := w], k)
  {}

  lemma TellsSame(ch: ChangeSet, base: map<bytes, bytes>, target: map<bytes, bytes>, x: bytes, v: bytes, k: bytes)
    requires Tells(ch, base, target, k) && x !in base && x !in target
    ensures Tells(ch, base[x := v], target[x := v], k)
  {}

  lemma HeadIsNew(rs: seq<bytes>)
    requires SortedRecords(rs) && rs != []
    ensures Key(rs[0]) !in Contents(rs[1..])
  {
    LessIrreflexive(Key(rs[0]));
    hide Key;
  }

  lemma CollectFirst(c: Change, cs: seq<Change>)
    ensures Collect([c] + cs) == Overlay(Record(NO_CHANGES, c), Collect(cs))
  {
    assert ([c] + cs)[1..] == cs;
  }

  lemma {:induction false} MergeTells(cmp: Comparison, b: seq<bytes>, t: seq<bytes>, k: bytes)
    requires ZeroOnlyOnEqual(cmp) && SortedRecords(b) && SortedRecords(t) && AllSound(b) && AllSound(t)
    ensures Tells(Collect(Merge(cmp, b, t)), Contents(b), Contents(t), k)
    decreases |b| + |t|
  {
    hide Less, ScanKeyValue, Key, Value, Collect, Tells, Record, Overlay;
    if b != [] {
      assert Sound(b[0]);
      HeadIsNew(b);
    }
    if t != [] {
      assert Sound(t[0]);
      HeadIsNew(t);
    }
    if b == [] && t == [] {
      NothingTold(k);
    } else if t == [] || (b != [] && cmp(b[0], t[0]) < 0 && Key(b[0]) != Key(t[0])) {
      MergeTells(cmp, b[1..], t, k);
      CollectFirst(Delete(Key(b[0])), Merge(cmp, b[1..], t));
      TellsDelete(Collect(Merge(cmp, b[1..], t)), Contents(b[1..]), Contents(t), Key(b[0]), Value(b[0]), k);
    } else if b == [] || (cmp(b[0], t[0]) != 0 && Key(b[0]) != Key(t[0])) {
      MergeTells(cmp, b, t[1..], k);
      CollectFirst(Insert(Key(t[0]), Value(t[0])), Merge(cmp, b, t[1..]));
      TellsInsert(Collect(Merge(cmp, b, t[1..])), Contents(b), Contents(t[1..]), Key(t[0]), Value(t[0]), k);
    } else {
      MergeTells(cmp, b[1..], t[1..], k);
      var rest := Merge(cmp, b[1..], t[1..]);
      if cmp(b[0], t[0]) == 0 {
        TellsSame(Collect(rest), Contents(b[1..]), Contents(t[1..]), Key(t[0]), Value(t[0]), k);
      } else {
        CollectFirst(Update(Key(t[0]), Value(t[0])), rest);
        TellsUpdate(Collect(rest), Contents(b[1..]), Contents(t[1..]), Key(t[0]), Value(b[0]), Value(t[0]), k);
      }
    }
  }

  lemma NothingTold(k: bytes)
    ensures Tells(Collect([]), map[], map[], k)
  {}

  /** Theorem A: the changes of the differ turn the base's contents into the target's, for every comparison
      that is zero only on equal records. */
  lemma DiffPatches(cmp: Comparison, b: seq<bytes>, t: seq<bytes>)
    requires ZeroOnlyOnEqual(cmp) && SortedRecords(b) && SortedRecords(t) && AllSound(b) && AllSound(t)
    ensures Patched(Collect(Merge(cmp, b, t)), Contents(b)) == Contents(t)
  {
    hide Collect, Merge, Contents;
    var ch := Collect(Merge(cmp, b, t));
    forall k ensures Tells(ch, Contents(b), Contents(t), k) {
      MergeTells(cmp, b, t, k);
    }
    TellsPatched(ch, Contents(b), Contents(t));
  }

  lemma TellsPatched(ch: ChangeSet, base: map<bytes, bytes>, target: map<bytes, bytes>)
    requires forall k :: Tells(ch, base, target, k)
    ensures Patched(ch, base) == target
  {
    forall k ensures (k in Patched(ch, base) <==> k in target) && (k in target ==> Patched(ch, base)[k] == target[k]) {
      assert Tells(ch, base, target, k);
    }
  }

  /** The item counts add up: base items minus deletes plus inserts are the target items. */
  lemma {:induction false} CountsAddUp(cmp: Comparison, b: seq<bytes>, t: seq<bytes>)
    ensures |b| - CountDeletes(Merge(cmp, b, t)) + CountInserts(Merge(cmp, b, t)) == |t|
    decreases |b| + |t|
  {
    hide ScanKeyValue;
    if b == [] && t == [] {
    } else if b == [] {
      CountsAddUp(cmp, b, t[1..]);
    } else if t == [] {
      CountsAddUp(cmp, b[1..], t);
    } else {
      CountsAddUp(cmp, b[1..], t[1..]);
      CountsAddUp(cmp, b[1..], t);
      CountsAddUp(cmp, b, t[1..]);
    }
  }

  // ---------- emitting the patched store ----------

  /** An item as the applier writes it: key and value only. */
  function OutItem(k: bytes, v: bytes): bytes {
    BytesField(1, k) + BytesField(2, v)
  }

  lemma OutItemReads(k: bytes, v: bytes)
    requires |k| < TWO_64 && |v| < TWO_64
    ensures Key(OutItem(k, v)) == k && Value(OutItem(k, v)) == v && IsLeafRecord(OutItem(k, v)) && Sound(OutItem(k, v))
  {
    hide BytesField, FindBytes, ScanKeyValue, IsLeafRecord;
    var r2 := BytesField(2, v);
    assert r2 + [] == r2;
    FindFirst(1, k, r2);
    FindLater(1, k, r2, 2);
    FindFirst(2, v, []);
    ScanBytes(1, k, r2, ([], []));
    ScanBytes(2, v, [], (k, []));
    ScanEnds((k, v));
  }

  // ---------- which changes come out ----------

  /** Two different records with the same key at the heads come out as one Update, whatever the comparison. */
  lemma HeadsUpdate(cmp: Comparison, b: seq<bytes>, t: seq<bytes>)
    requires ZeroOnlyOnEqual(cmp) && b != [] && t != [] && Sound(b[0]) && Sound(t[0])
    requires Key(b[0]) == Key(t[0]) && b[0] != t[0]
    ensures Merge(cmp, b, t) == [Update(Key(t[0]), Value(t[0]))] + Merge(cmp, b[1..], t[1..])
  {
    hide ScanKeyValue, Key, Value;
  }

  ghost predicate ZeroExactlyOnEqual(cmp: Comparison) {
    forall a, b :: cmp(a, b) == 0 <==> a == b
  }

  /** The records by key. */
  function Records(rs: seq<bytes>): map<bytes, bytes> {
    if rs == [] then map[] else Records(rs[1..])[Key(rs[0]) := rs[0]]
  }

  ghost function OnlyIn<K, V>(a: map<K, V>, b: map<K, V>): set<K> {
    a.Keys - b.Keys
  }

  ghost function Changed<K, V>(a: map<K, V>, b: map<K, V>): set<K> {
    set k | k in a && k in b && a[k] != b[k]
  }

  /** The changes are those between the two sides: each key that one side lacks, and each key whose record differs,
      comes out once. */
  ghost predicate Exactly(cs: seq<Change>, base: map<bytes, bytes>, target: map<bytes, bytes>) {
    var ch := Collect(cs);
    && ch.deletes == OnlyIn(base, target) && CountDeletes(cs) == |OnlyIn(base, target)|
    && ch.inserts.Keys == OnlyIn(target, base) && CountInserts(cs) == |OnlyIn(target, base)|
    && ch.updates.Keys == Changed(base, target) && CountUpdates(cs) == |Changed(base, target)|
  }

  /** On these records the comparison orders different keys as the keys are ordered. */
  predicate InKeyOrder(cmp: Comparison, b: seq<bytes>, t: seq<bytes>) {
    forall x, y :: x in b && y in t && Key(x) != Key(y) ==> (cmp(x, y) < 0 <==> Less(Key(x), Key(y)))
  }

  lemma BaseGrows(base: map<bytes, bytes>, target: map<bytes, bytes>, k: bytes, r: bytes)
    requires k !in base && k !in target
    ensures OnlyIn(base[k := r], target) == OnlyIn(base, target) + {k} && k !in OnlyIn(base, target)
    ensures OnlyIn(target, base[k := r]) == OnlyIn(target, base)
    ensures Changed(base[k := r], target) == Changed(base, target)
    ensures Changed(target, base[k := r]) == Changed(target, base) == Changed(base, target)
  {}

  lemma BothGrow(base: map<bytes, bytes>, target: map<bytes, bytes>, k: bytes, r: bytes, r': bytes)
    requires k !in base && k !in target
    ensures var base', target' := base[k := r], target[k := r'];
            && OnlyIn(base', target') == OnlyIn(base, target) && OnlyIn(target', base') == OnlyIn(target, base)
            && Changed(base', target') == Changed(base, target) + (if r == r' then {} else {k})
            && k !in Changed(base, target)
  {}

  lemma OneMore(s: set<bytes>, k: bytes)
    requires k !in s
    ensures |s + {k}| == |s| + 1
  {}

  /** What the first change adds to the sets. */
  lemma CollectKeys(c: Change, cs: seq<Change>)
    ensures var ch, more := Collect(cs), Collect([c] + cs);
            && more.deletes == (if c.Delete? then ch.deletes + {c.key} else ch.deletes)
            && more.inserts.Keys == (if c.Insert? then ch.inserts.Keys + {c.key} else ch.inserts.Keys)
            && more.updates.Keys == (if c.Update? then ch.updates.Keys + {c.key} else ch.updates.Keys)
  {
    CollectFirst(c, cs);
    hide Collect;
    var ch := Collect(cs);
    match c {
      case Insert(k, v) => assert (map[][k := v] + ch.inserts).Keys == {k} + ch.inserts.Keys;
      case Update(k, v) => assert (map[][k := v] + ch.updates).Keys == {k} + ch.updates.Keys;
      case Delete(k) => {}
    }
    EmptyFirst(ch);
  }

  lemma EmptyFirst(ch: ChangeSet)
    ensures map[] + ch.inserts == ch.inserts && map[] + ch.updates == ch.updates && {} + ch.deletes == ch.deletes
  {}

  lemma ExactlyDelete(cs: seq<Change>, base: map<bytes, bytes>, target: map<bytes, bytes>, k: bytes, r: bytes)
    requires Exactly(cs, base, target) && k !in base && k !in target
    ensures Exactly([Delete(k)] + cs, base[k := r], target)
  {
    hide Collect, CountDeletes, CountInserts, CountUpdates, OnlyIn, Changed;
    CollectKeys(Delete(k), cs);
    CountFirst(Delete(k), cs);
    BaseGrows(base, target, k, r);
    OneMore(OnlyIn(base, target), k);
  }

  lemma ExactlyInsert(cs: seq<Change>, base: map<bytes, bytes>, target: map<bytes, bytes>, k: bytes, r: bytes, v: bytes)
    requires Exactly(cs, base, target) && k !in base && k !in target
    ensures Exactly([Insert(k, v)] + cs, base, target[k := r])
  {
    hide Collect, CountDeletes, CountInserts, CountUpdates, OnlyIn, Changed;
    CollectKeys(Insert(k, v), cs);
    CountFirst(Insert(k, v), cs);
    BaseGrows(target, base, k, r);
    OneMore(OnlyIn(target, base), k);
  }

  lemma ExactlyBoth(cs: seq<Change>, base: map<bytes, bytes>, target: map<bytes, bytes>, k: bytes, r: bytes, r': bytes,
                    v: bytes)
    requires Exactly(cs, base, target) && k !in base && k !in target
    ensures Exactly(if r == r' then cs else [Update(k, v)] + cs, base[k := r], target[k := r'])
  {
    hide Collect, CountDeletes, CountInserts, CountUpdates, OnlyIn, Changed;
    CollectKeys(Update(k, v), cs);
    CountFirst(Update(k, v), cs);
    BothGrow(base, target, k, r, r');
    OneMore(Changed(base, target), k);
  }

  lemma CountFirst(c: Change, cs: seq<Change>)
    ensures CountDeletes([c] + cs) == CountDeletes(cs) + if c.Delete? then 1 else 0
    ensures CountInserts([c] + cs) == CountInserts(cs) + if c.Insert? then 1 else 0
    ensures CountUpdates([c] + cs) == CountUpdates(cs) + if c.Update? then 1 else 0
  {
    assert ([c] + cs)[1..] == cs;
  }

  lemma {:induction false} RecordKeys(rs: seq<bytes>)
    requires SortedRecords(rs)
    ensures Records(rs).Keys == Contents(rs).Keys && |Records(rs)| == |rs|
    ensures rs != [] ==> forall k :: k in Records(rs[1..]) ==> Less(Key(rs[0]), k)
    ensures rs != [] ==> Key(rs[0]) !in Records(rs[1..])
  {
    hide Key, Value, Less;
    if rs != [] {
      RecordKeys(rs[1..]);
      HeadIsNew(rs);
    }
  }

  /** A key below the first one is not in the list. */
  lemma BelowHead(k: bytes, rs: seq<bytes>)
    requires SortedRecords(rs) && (rs != [] ==> Less(k, Key(rs[0])))
    ensures k !in Records(rs)
  {
    RecordKeys(rs);
    LessIrreflexive(k);
    if rs != [] && k in Records(rs[1..]) {
      LessTransitive(k, Key(rs[0]), k);
    }
    hide Key, Less;
  }

  lemma TailOrder(cmp: Comparison, b: seq<bytes>, t: seq<bytes>)
    requires InKeyOrder(cmp, b, t)
    ensures b != [] ==> InKeyOrder(cmp, b[1..], t)
    ensures t != [] ==> InKeyOrder(cmp, b, t[1..])
  {
    hide Key, Less;
  }

  /** Where the comparison follows the keys, the merge finds exactly the difference: it deletes the keys that only the
      base has, inserts those that only the target has, and updates those whose records differ. */
  lemma {:induction false} MergeIsExact(cmp: Comparison, b: seq<bytes>, t: seq<bytes>)
    requires ZeroExactlyOnEqual(cmp) && SortedRecords(b) && SortedRecords(t) && AllSound(b) && AllSound(t)
    requires InKeyOrder(cmp, b, t)
    ensures Exactly(Merge(cmp, b, t), Records(b), Records(t))
    decreases |b| + |t|
  {
    hide Less, ScanKeyValue, Key, Value, Exactly, InKeyOrder;
    TailOrder(cmp, b, t);
    if b != [] {
      assert Sound(b[0]);
      RecordKeys(b);
    }
    if t != [] {
      assert Sound(t[0]);
      RecordKeys(t);
    }
    if b == [] && t == [] {
      NothingExactly();
    } else if t == [] {
      MergeIsExact(cmp, b[1..], t);
      ExactlyDelete(Merge(cmp, b[1..], t), Records(b[1..]), Records(t), Key(b[0]), b[0]);
    } else if b == [] {
      MergeIsExact(cmp, b, t[1..]);
      ExactlyInsert(Merge(cmp, b, t[1..]), Records(b), Records(t[1..]), Key(t[0]), t[0], Value(t[0]));
    } else {
      HeadsInOrder(cmp, b, t);
      if Key(b[0]) == Key(t[0]) {
        TailOrder(cmp, b[1..], t);
        MergeIsExact(cmp, b[1..], t[1..]);
        SameHeads(cmp, b, t);
        ExactlyBoth(Merge(cmp, b[1..], t[1..]), Records(b[1..]), Records(t[1..]), Key(b[0]), b[0], t[0], Value(t[0]));
      } else if cmp(b[0], t[0]) < 0 {
        MergeIsExact(cmp, b[1..], t);
        ExactlyDelete(Merge(cmp, b[1..], t), Records(b[1..]), Records(t), Key(b[0]), b[0]);
      } else {
        MergeIsExact(cmp, b, t[1..]);
        ExactlyInsert(Merge(cmp, b, t[1..]), Records(b), Records(t[1..]), Key(t[0]), t[0], Value(t[0]));
      }
    }
  }

  lemma NothingExactly()
    ensures Exactly([], map[], map[])
  {}

  lemma SameHeads(cmp: Comparison, b: seq<bytes>, t: seq<bytes>)
    requires ZeroExactlyOnEqual(cmp) && b != [] && t != [] && Sound(b[0]) && Sound(t[0]) && Key(b[0]) == Key(t[0])
    ensures Merge(cmp, b, t) == if b[0] == t[0] then Merge(cmp, b[1..], t[1..])
      else [Update(Key(t[0]), Value(t[0]))] + Merge(cmp, b[1..], t[1..])
  {
    hide ScanKeyValue, Key, Value;
  }

  /** The smaller of two different head keys is not on the other side. */
  lemma HeadsInOrder(cmp: Comparison, b: seq<bytes>, t: seq<bytes>)
    requires SortedRecords(b) && SortedRecords(t) && InKeyOrder(cmp, b, t) && b != [] && t != []
    ensures Key(b[0]) != Key(t[0]) ==>
      if cmp(b[0], t[0]) < 0 then Key(b[0]) !in Records(t) else Key(t[0]) !in Records(b)
  {
    LessTotal(Key(b[0]), Key(t[0]));
    if Less(Key(b[0]), Key(t[0])) {
      BelowHead(Key(b[0]), t);
    } else if Less(Key(t[0]), Key(b[0])) {
      BelowHead(Key(t[0]), b);
    }
    hide Less, Key, SortedRecords, Records;
  }

  /** What DiffStore emits and counts between two sorted stores on which record order is key order. */
  lemma ChangesAndCounts(b: seq<bytes>, t: seq<bytes>)
    requires SortedRecords(b) && SortedRecords(t) && AllSound(b) && AllSound(t) && InKeyOrder(Compare, b, t)
    ensures var cs, base, target := Merge(Compare, b, t), Records(b), Records(t);
            var ch := Collect(cs);
            && |b| == |base| && |t| == |target|
            && ch.deletes == base.Keys - target.Keys && CountDeletes(cs) == |base.Keys - target.Keys|
            && ch.inserts.Keys == target.Keys - base.Keys && CountInserts(cs) == |target.Keys - base.Keys|
            && (forall k :: k in ch.updates <==> k in base && k in target && base[k] != target[k])
            && CountUpdates(cs) == |ch.updates.Keys|
            && (forall k :: k in ch.updates ==> k in Contents(t) && ch.updates[k] == Contents(t)[k])
            && (forall k :: k in ch.inserts ==> k in Contents(t) && ch.inserts[k] == Contents(t)[k])
  {
    hide Merge, Collect, CountDeletes, CountInserts, CountUpdates, InKeyOrder, SortedRecords, Records, Contents, Less;
    CompareIsExact();
    MergeIsExact(Compare, b, t);
    RecordKeys(b);
    RecordKeys(t);
    var ch := Collect(Merge(Compare, b, t));
    forall k | k in ch.updates || k in ch.inserts
      ensures k in Contents(t) && (k in ch.updates ==> ch.updates[k] == Contents(t)[k])
        && (k in ch.inserts ==> ch.inserts[k] == Contents(t)[k])
    {
      MergeTells(Compare, b, t, k);
    }
  }

  lemma CompareIsExact()
    ensures ZeroExactlyOnEqual(Compare) && ZeroOnlyOnEqual(Compare)
  {
    forall a ensures !Less(a, a) {
      LessIrreflexive(a);
    }
  }

  /** Items whose keys have one length are ordered by their keys. */
  lemma ItemsOfOneLength(k: bytes, l: bytes, x: bytes, y: bytes)
    requires |k| == |l| < TWO_64 && k != l
    ensures Compare(BytesField(1, k) + x, BytesField(1, l) + y) < 0 <==> Less(k, l)
  {
    hide PutUvarint, Less, BytesField;
    FieldParts(k, x);
    FieldParts(l, y);
    LessAfterSame([10] + PutUvarint(|k|), k + x, l + y);
    LessOfPrefixes(k, l, x, y);
  }

  lemma FieldParts(k: bytes, rest: bytes)
    ensures BytesField(1, k) + rest == ([10] + PutUvarint(|k|)) + (k + rest)
  {
    hide PutUvarint;
  }

  lemma LessAfterSame(head: bytes, a: bytes, b: bytes)
    ensures Less(head + a, head + b) <==> Less(a, b)
  {
    var x, y, n := head + a, head + b, |head|;
    assert x[..n] == head == y[..n] && x[n..] == a && y[n..] == b;
    LessAfterPrefix(x, y, n);
  }

  lemma {:induction false} LessOfPrefixes(k: bytes, l: bytes, x: bytes, y: bytes)
    requires |k| == |l| && k != l
    ensures Less(k + x, l + y) <==> Less(k, l)
  {
    assert (k + x)[1..] == k[1..] + x && (l + y)[1..] == l[1..] + y;
    if k[0] == l[0] {
      assert k == [k[0]] + k[1..] && l == [l[0]] + l[1..];
      LessOfPrefixes(k[1..], l[1..], x, y);
    }
  }

  /** Snapshot items with keys of one length are in key order, so their changes are exact. */
  lemma OneLengthInOrder(n: nat, b: seq<bytes>, t: seq<bytes>)
    requires n < TWO_64
    requires forall r :: r in b || r in t ==> exists k, x :: IsItem(r, k, x) && |k| == n
    ensures InKeyOrder(Compare, b, t)
  {
    forall x, y | x in b && y in t && Key(x) != Key(y) ensures Compare(x, y) < 0 <==> Less(Key(x), Key(y)) {
      var k, x' :| IsItem(x, k, x') && |k| == n;
      var l, y' :| IsItem(y, l, y') && |l| == n;
      FindFirst(1, k, x');
      FindFirst(1, l, y');
      ItemsOfOneLength(k, l, x', y');
    }
  }

  /** A record that begins with its key field. */
  predicate IsItem(r: bytes, k: bytes, rest: bytes) { r == BytesField(1, k) + rest }

  /** Without key order a changed value may come out as an insert and a delete: the longer key [1, 1] sorts first as a
      key and last as a record. */
  lemma ChangedComesTwice()
    ensures var b, t := [OutItem([1, 1], []), OutItem([2], [5])], [OutItem([2], [6])];
            SortedRecords(b) && SortedRecords(t)
            && Merge(Compare, b, t) == [Insert([2], [6]), Delete([1, 1]), Delete([2])]
  {
    OutItemReads([1, 1], []);
    OutItemReads([2], [5]);
    OutItemReads([2], [6]);
    var x, y, z := OutItem([1, 1], []), OutItem([2], [5]), OutItem([2], [6]);
    FieldLess([1, 1], [2], BytesField(2, []), BytesField(2, [6]));
    assert Less([1, 1], [2]);
    hide OutItem, Key, Value, ScanKeyValue, Less, IsLeafRecord;
    SortedPair(x, y);
    SortedOne(z);
    MergeTwoOne(x, y, z);
  }

  lemma SortedOne(z: bytes)
    ensures SortedRecords([z])
  {}

  lemma SortedPair(x: bytes, y: bytes)
    requires Less(Key(x), Key(y))
    ensures SortedRecords([x, y])
  {
    hide Less, Key, Value;
    SortedOne(y);
    assert [x, y][1..] == [y] && [y][1..] == [];
    assert Contents([y]) == map[][Key(y) := Value(y)];
    assert SortedRecords([x, y]) <==>
      (forall k :: k in Contents([x, y][1..]) ==> Less(Key([x, y][0]), k)) && SortedRecords([x, y][1..]);
  }

  /** A longer key makes a larger record. */
  lemma FieldLess(k: bytes, l: bytes, x: bytes, y: bytes)
    requires |l| < |k| < 128
    ensures Less(BytesField(1, l) + y, BytesField(1, k) + x) && !Less(BytesField(1, k) + x, BytesField(1, l) + y)
  {
    var a, b := BytesField(1, l) + y, BytesField(1, k) + x;
    assert a[0] == b[0] == 10 && a[1] == |l| && b[1] == |k|;
    LessAfterPrefix(a, b, 1);
    LessAsymmetric(a, b);
  }

  lemma MergeTwoOne(x: bytes, y: bytes, z: bytes)
    requires Sound(x) && Sound(y) && Sound(z) && Less(z, x) && !Less(x, z) && Key(x) != Key(z)
    ensures Merge(Compare, [x, y], [z]) == [Insert(Key(z), Value(z)), Delete(Key(x)), Delete(Key(y))]
  {
    hide Key, Value, ScanKeyValue, Less;
    var none: seq<bytes> := [];
    assert [x, y][1..] == [y] && [y][1..] == none && [z][1..] == none;
    assert Merge(Compare, none, none) == [];
    assert Merge(Compare, [y], none) == [Delete(Key(y))];
    assert Merge(Compare, [x, y], none) == [Delete(Key(x)), Delete(Key(y))];
    assert Compare(x, z) != 0 && !(Compare(x, z) < 0);
    assert ScanKeyValue(z) == (Key(z), Value(z)) && ScanKeyValue(x).0 == Key(x);
    assert Merge(Compare, [x, y], [z]) == [Insert(Key(z), Value(z))] + Merge(Compare, [x, y], [z][1..]);
  }

  /** A base item under a change set: dropped, rewritten, or passed through. */
  function Processed(ch: ChangeSet, rec: bytes): seq<bytes> {
    var k := Key(rec);
    if k in ch.deletes then []
    else if k in ch.updates then [OutItem(k, ch.updates[k])]
    else [OutItem(k, Value(rec))]
  }

  /** The output of the merge of base leaves with the sorted insert keys. */
  function Emit(ch: ChangeSet, b: seq<bytes>, ins: seq<bytes>): seq<bytes>
    requires forall k :: k in ins ==> k in ch.inserts
    decreases |b| + |ins|
  {
    if b == [] && ins == [] then []
    else if b == [] then [OutItem(ins[0], ch.inserts[ins[0]])] + Emit(ch, b, ins[1..])
    else if ins == [] then Processed(ch, b[0]) + Emit(ch, b[1..], ins)
    else if Less(Key(b[0]), ins[0]) then Processed(ch, b[0]) + Emit(ch, b[1..], ins)
    else if Less(ins[0], Key(b[0])) then [OutItem(ins[0], ch.inserts[ins[0]])] + Emit(ch, b, ins[1..])
    else Processed(ch, b[0]) + [OutItem(ins[0], ch.inserts[ins[0]])] + Emit(ch, b[1..], ins[1..])
  }

  predicate Small(m: map<bytes, bytes>) {
    forall k :: k in m ==> |k| < TWO_64 && |m[k]| < TWO_64
  }

  /** Strictly increasing byte strings. */
  predicate Increasing(ks: seq<bytes>) {
    ks != [] ==> (forall k :: k in ks[1..] ==> Less(ks[0], k)) && Increasing(ks[1..])
  }

  function Chosen(m: map<bytes, bytes>, ks: seq<bytes>): map<bytes, bytes>
    requires forall k :: k in ks ==> k in m
  {
    map k | k in ks :: m[k]
  }

  /** What is left of the base under deletes and updates alone. */
  function Survivors(ch: ChangeSet, base: map<bytes, bytes>): map<bytes, bytes> {
    map k | k in base && k !in ch.deletes :: if k in ch.updates then ch.updates[k] else base[k]
  }

  /** No key would be emitted twice, and everything fits the length prefixes. */
  predicate Clean(ch: ChangeSet, b: seq<bytes>, ins: seq<bytes>) {
    && (forall k :: k in ins ==> k in ch.inserts)
    && SortedRecords(b) && Increasing(ins)
    && Small(ch.inserts) && Small(ch.updates) && Small(Contents(b))
    && (forall k :: k in Survivors(ch, Contents(b)) ==> k !in ins)
  }

  lemma SortedCons(rec: bytes, rest: seq<bytes>)
    requires SortedRecords(rest) && forall k :: k in Contents(rest) ==> Less(Key(rec), k)
    ensures SortedRecords([rec] + rest) && Contents([rec] + rest) == Contents(rest)[Key(rec) := Value(rec)]
  {
    assert ([rec] + rest)[1..] == rest;
  }

  /** What Emit has to satisfy: sorted, with the survivors and the inserts. */
  ghost predicate EmitOk(ch: ChangeSet, b: seq<bytes>, ins: seq<bytes>)
    requires forall k :: k in ins ==> k in ch.inserts
  {
    var out := Emit(ch, b, ins);
    SortedRecords(out) && Contents(out) == Survivors(ch, Contents(b)) + Chosen(ch.inserts, ins)
  }

  function Resolved(ch: ChangeSet, rec: bytes): bytes {
    if Key(rec) in ch.updates then ch.updates[Key(rec)] else Value(rec)
  }

  lemma SurvivorsCons(ch: ChangeSet, b: seq<bytes>)
    requires SortedRecords(b) && b != []
    ensures var rest := Survivors(ch, Contents(b[1..]));
            Survivors(ch, Contents(b)) ==
              if Key(b[0]) in ch.deletes then rest else rest[Key(b[0]) := Resolved(ch, b[0])]
    ensures forall k :: k in Survivors(ch, Contents(b[1..])) ==> Less(Key(b[0]), k)
  {
    HeadIsNew(b);
    hide Key, Value, Less;
  }

  lemma ChosenCons(m: map<bytes, bytes>, ins: seq<bytes>)
    requires Increasing(ins) && ins != [] && forall k :: k in ins ==> k in m
    ensures Chosen(m, ins) == Chosen(m, ins[1..])[ins[0] := m[ins[0]]]
    ensures forall k :: k in Chosen(m, ins[1..]) ==> Less(ins[0], k)
    ensures ins[0] !in Chosen(m, ins[1..])
  {
    LessIrreflexive(ins[0]);
    hide Less;
  }

  lemma SmallRest(b: seq<bytes>)
    requires SortedRecords(b) && b != [] && Small(Contents(b))
    ensures Small(Contents(b[1..])) && |Key(b[0])| < TWO_64 && |Value(b[0])| < TWO_64
  {
    hide Key, Value, Less;
    HeadIsNew(b);
    assert Contents(b)[Key(b[0])] == Value(b[0]);
    forall k | k in Contents(b[1..]) ensures |k| < TWO_64 && |Contents(b[1..])[k]| < TWO_64 {
      assert k in Contents(b);
    }
  }

  lemma CleanBase(ch: ChangeSet, b: seq<bytes>, ins: seq<bytes>)
    requires Clean(ch, b, ins) && b != []
    ensures Clean(ch, b[1..], ins)
  {
    assert SortedRecords(b[1..]) by { hide Clean, Contents, Key; }
    hide Key, Value, Less, SortedRecords, Survivors, Contents, Increasing, Small;
    SurvivorsCons(ch, b);
    SmallRest(b);
  }

  lemma CleanInserts(ch: ChangeSet, b: seq<bytes>, ins: seq<bytes>)
    requires Clean(ch, b, ins) && ins != []
    ensures Clean(ch, b, ins[1..])
  {
    hide Key, Value, Less, SortedRecords, Survivors, Contents, Small;
  }

  /** One more emitted item, below everything emitted after it. */
  lemma EmitCons(k: bytes, v: bytes, rest: seq<bytes>)
    requires |k| < TWO_64 && |v| < TWO_64 && SortedRecords(rest) && forall x :: x in Contents(rest) ==> Less(k, x)
    ensures var out := [OutItem(k, v)] + rest; SortedRecords(out) && Contents(out) == Contents(rest)[k := v]
  {
    hide OutItem, Key, Value, Less;
    OutItemReads(k, v);
    SortedCons(OutItem(k, v), rest);
  }

  lemma InsertStep(ch: ChangeSet, b: seq<bytes>, ins: seq<bytes>)
    requires Clean(ch, b, ins) && ins != [] && forall k :: k in Survivors(ch, Contents(b)) ==> Less(ins[0], k)
    requires EmitOk(ch, b, ins[1..])
    ensures var out := [OutItem(ins[0], ch.inserts[ins[0]])] + Emit(ch, b, ins[1..]);
            SortedRecords(out) && Contents(out) == Survivors(ch, Contents(b)) + Chosen(ch.inserts, ins)
  {
    hide Emit, SortedRecords, Contents, Survivors, Less, Increasing;
    assert Increasing(ins) && Small(ch.inserts);
    ChosenCons(ch.inserts, ins);
    EmitCons(ins[0], ch.inserts[ins[0]], Emit(ch, b, ins[1..]));
    var m, c, k := Survivors(ch, Contents(b)), Chosen(ch.inserts, ins[1..]), ins[0];
    assert (m + c)[k := ch.inserts[k]] == m + c[k := ch.inserts[k]];
  }

  lemma ResolvedSmall(ch: ChangeSet, b: seq<bytes>, ins: seq<bytes>)
    requires Clean(ch, b, ins) && b != []
    ensures |Key(b[0])| < TWO_64 && |Resolved(ch, b[0])| < TWO_64
  {
    hide Key, Value, SortedRecords, Contents, Survivors, Increasing, Less;
    SmallRest(b);
  }

  lemma KeepStep(ch: ChangeSet, b: seq<bytes>, ins: seq<bytes>)
    requires Clean(ch, b, ins) && b != [] && Key(b[0]) !in ch.deletes && forall k :: k in ins ==> Less(Key(b[0]), k)
    requires forall k :: k in ins ==> k in ch.inserts
    requires EmitOk(ch, b[1..], ins)
    ensures var out := Processed(ch, b[0]) + Emit(ch, b[1..], ins);
            SortedRecords(out) && Contents(out) == Survivors(ch, Contents(b)) + Chosen(ch.inserts, ins)
  {
    hide Emit, SortedRecords, Survivors, Less, Increasing, Key, Value, OutItem, Contents, Clean;
    CleanIns(ch, b, ins);
    ResolvedSmall(ch, b, ins);
    SurvivorsCons(ch, b);
    var k, v := Key(b[0]), Resolved(ch, b[0]);
    EmitCons(k, v, Emit(ch, b[1..], ins));
    var m, c := Survivors(ch, Contents(b[1..])), Chosen(ch.inserts, ins);
    assert k !in c by {
      LessIrreflexive(k);
    }
    assert (m + c)[k := v] == m[k := v] + c;
  }

  lemma {:induction false} EmitIsOk(ch: ChangeSet, b: seq<bytes>, ins: seq<bytes>)
    requires Clean(ch, b, ins)
    ensures EmitOk(ch, b, ins)
    decreases |b| + |ins|, 1
  {
    if b == [] && ins == [] {
      hide Key, Value;
    } else if b == [] || (ins != [] && Less(ins[0], Key(b[0]))) {
      hide SortedRecords, Contents, Survivors, Less, Increasing, Key, Value, OutItem;
      CleanInserts(ch, b, ins);
      EmitIsOk(ch, b, ins[1..]);
      AllAboveInsert(ch, b, ins);
      InsertStep(ch, b, ins);
      if b != [] { LessAsymmetric(ins[0], Key(b[0])); }
    } else {
      hide *;
      BaseStep(ch, b, ins);
    }
  }

  lemma AllAboveInsert(ch: ChangeSet, b: seq<bytes>, ins: seq<bytes>)
    requires SortedRecords(b) && ins != [] && (b == [] || Less(ins[0], Key(b[0])))
    ensures forall k :: k in Survivors(ch, Contents(b)) ==> Less(ins[0], k)
  {
    if b != [] {
      SurvivorsCons(ch, b);
      hide Less, Key, Value, SortedRecords;
      forall k | k in Survivors(ch, Contents(b)) ensures Less(ins[0], k) {
        if k != Key(b[0]) {
          LessTransitive(ins[0], Key(b[0]), k);
        }
      }
    }
  }

  /** The base key comes first, or equals an insert key and is deleted. */
  lemma {:induction false} BaseStep(ch: ChangeSet, b: seq<bytes>, ins: seq<bytes>)
    requires Clean(ch, b, ins) && b != [] && (ins == [] || !Less(ins[0], Key(b[0])))
    ensures EmitOk(ch, b, ins)
    decreases |b| + |ins|, 0
  {
    hide SortedRecords, Contents, Survivors, Less, Increasing, Key, Value, OutItem, Clean, EmitOk, Emit;
    assert forall k :: k in ins ==> k in ch.inserts by { hide *; CleanIns(ch, b, ins); }
    CleanBase(ch, b, ins);
    var k := Key(b[0]);
    if ins != [] && k == ins[0] {
      CleanInserts(ch, b[1..], ins);
      EmitIsOk(ch, b[1..], ins[1..]);
      EqualStep(ch, b, ins);
    } else {
      EmitIsOk(ch, b[1..], ins);
      if ins != [] {
        LessTotal(k, ins[0]);
      }
      if k in ch.deletes {
        DropStep(ch, b, ins);
      } else {
        CleanIns(ch, b, ins);
        AllAboveBase(k, ins);
        KeepStep(ch, b, ins);
        EmitTakesBase(ch, b, ins);
      }
    }
  }

  lemma CleanIns(ch: ChangeSet, b: seq<bytes>, ins: seq<bytes>)
    requires Clean(ch, b, ins)
    ensures Increasing(ins) && SortedRecords(b) && forall k :: k in ins ==> k in ch.inserts
  {
    hide SortedRecords, Contents, Survivors, Less, Increasing, Key, Value;
  }

  lemma EmitTakesBase(ch: ChangeSet, b: seq<bytes>, ins: seq<bytes>)
    requires b != [] && (ins == [] || Less(Key(b[0]), ins[0])) && forall k :: k in ins ==> k in ch.inserts
    requires var out := Processed(ch, b[0]) + Emit(ch, b[1..], ins);
             SortedRecords(out) && Contents(out) == Survivors(ch, Contents(b)) + Chosen(ch.inserts, ins)
    ensures EmitOk(ch, b, ins)
  {
    hide SortedRecords, Contents, Survivors, Less, Key, Value, OutItem, Processed, Chosen;
  }

  lemma DropStep(ch: ChangeSet, b: seq<bytes>, ins: seq<bytes>)
    requires Clean(ch, b, ins) && b != [] && Key(b[0]) in ch.deletes && (ins == [] || Less(Key(b[0]), ins[0]))
    requires forall k :: k in ins ==> k in ch.inserts
    requires EmitOk(ch, b[1..], ins)
    ensures EmitOk(ch, b, ins)
  {
    hide SortedRecords, Contents, Survivors, Less, Increasing, Key, Value, OutItem, Clean, Emit, Chosen;
    CleanIns(ch, b, ins);
    SurvivorsCons(ch, b);
    assert [] + Emit(ch, b[1..], ins) == Emit(ch, b[1..], ins);
    EmitTakesBase(ch, b, ins);
  }

  lemma EqualStep(ch: ChangeSet, b: seq<bytes>, ins: seq<bytes>)
    requires Clean(ch, b, ins) && b != [] && ins != [] && Key(b[0]) == ins[0]
    requires Clean(ch, b[1..], ins)
    requires forall k :: k in ins ==> k in ch.inserts
    requires EmitOk(ch, b[1..], ins[1..])
    ensures EmitOk(ch, b, ins)
  {
    CleanIns(ch, b, ins);
    SurvivorsCons(ch, b);
    assert ins[0] in ch.deletes by {
      hide SortedRecords, Contents, Less, Increasing, Key, Value, Small;
      assert ins[0] in Survivors(ch, Contents(b)) || ins[0] in ch.deletes;
    }
    hide SortedRecords, Contents, Survivors, Less, Increasing, Key, Value, OutItem, Clean;
    LessIrreflexive(ins[0]);
    InsertStep(ch, b[1..], ins);
    assert Processed(ch, b[0]) == [];
  }

  lemma AllAboveBase(k: bytes, ins: seq<bytes>)
    requires Increasing(ins) && (ins == [] || Less(k, ins[0]))
    ensures forall x :: x in ins ==> Less(k, x)
  {
    forall x | x in ins ensures Less(k, x) {
      if x != ins[0] {
        LessTransitive(k, ins[0], x);
      }
    }
  }

  // ---------- the applier's methods ----------

  lemma {:induction false} IncreasingInsert(lo: seq<bytes>, k: bytes, hi: seq<bytes>)
    requires Increasing(lo + hi)
    requires forall x :: x in lo ==> Less(x, k)
    requires forall x :: x in hi ==> Less(k, x)
    ensures Increasing(lo + [k] + hi)
  {
    hide Less;
    if lo == [] {
      assert lo + [k] + hi == [k] + hi && ([k] + hi)[1..] == hi && lo + hi == hi;
    } else {
      var all := lo + [k] + hi;
      assert (lo + hi)[1..] == lo[1..] + hi;
      assert all[1..] == lo[1..] + [k] + hi;
      IncreasingInsert(lo[1..], k, hi);
      forall x | x in all[1..] ensures Less(all[0], x) {
        if x != k {
          assert x in (lo + hi)[1..];
        }
      }
    }
  }

  /** sort.Strings over the keys of a map. */
  method SortedKeys(keys: set<bytes>) returns (ks: seq<bytes>)
    ensures Increasing(ks) && forall k :: k in ks <==> k in keys
  {
    ks := [];
    var rest := keys;
    while rest != {}
      invariant Increasing(ks) && rest <= keys
      invariant forall k :: k in ks <==> k in keys && k !in rest
      decreases |rest|
    {
      hide Less;
      var k :| k in rest;
      ks := InsertKey(ks, k);
      rest := rest - {k};
    }
  }

  method InsertKey(ks: seq<bytes>, k: bytes) returns (r: seq<bytes>)
    requires Increasing(ks) && k !in ks
    ensures Increasing(r) && forall x :: x in r <==> x in ks || x == k
  {
    hide Less;
    var i := 0;
    while i < |ks| && Less(ks[i], k)
      invariant 0 <= i <= |ks|
      invariant forall j :: 0 <= j < i ==> Less(ks[j], k)
    {
      i := i + 1;
    }
    r := ks[..i] + [k] + ks[i..];
    assert ks[..i] + ks[i..] == ks;
    forall x | x in ks[i..] ensures Less(k, x) {
      RestAbove(ks, i, k, x);
    }
    IncreasingInsert(ks[..i], k, ks[i..]);
  }

  lemma {:induction false} RestAbove(ks: seq<bytes>, i: nat, k: bytes, x: bytes)
    requires Increasing(ks) && i < |ks| && x in ks[i..] && k !in ks && !Less(ks[i], k)
    ensures Less(k, x)
  {
    hide Less;
    if i == 0 {
      LessTotal(k, ks[0]);
      if x != ks[0] {
        LessTransitive(k, ks[0], x);
      }
    } else {
      assert ks[1..][i - 1..] == ks[i..];
      RestAbove(ks[1..], i - 1, k, x);
    }
  }

  lemma HeadIn(a: seq<bytes>)
    ensures a != [] ==> a[0] in a
  {}

  /** Two increasing sequences with the same elements are equal. */
  lemma {:induction false} IncreasingUnique(a: seq<bytes>, b: seq<bytes>)
    requires Increasing(a) && Increasing(b) && forall k :: k in a <==> k in b
    ensures a == b
  {
    hide Less;
    HeadIn(a);
    HeadIn(b);
    if a != [] {
      var k := a[0];
      assert k in b && b[0] in a;
      LessIrreflexive(k);
      LessIrreflexive(b[0]);
      if b[0] != k {
        LessAsymmetric(k, b[0]);
      }
      forall x ensures x in a[1..] <==> x in b[1..] {
        assert x in a <==> x in b;
      }
      IncreasingUnique(a[1..], b[1..]);
    }
  }

  function WithKey(ks: seq<bytes>, k: bytes): seq<bytes> {
    if ks == [] || Less(k, ks[0]) then [k] + ks else [ks[0]] + WithKey(ks[1..], k)
  }

  lemma {:induction false} InsertedIs(ks: seq<bytes>, k: bytes)
    requires Increasing(ks) && k !in ks
    ensures Increasing(WithKey(ks, k)) && forall x :: x in WithKey(ks, k) <==> x in ks || x == k
  {
    if ks != [] {
      LessTotal(k, ks[0]);
      if Less(k, ks[0]) {
        AllAboveBase(k, ks);
      } else {
        InsertedIs(ks[1..], k);
      }
    }
    hide Less;
  }

  /** The elements of a set in increasing order. */
  ghost function Ordered(keys: set<bytes>): (ks: seq<bytes>)
    ensures Increasing(ks) && forall k :: k in ks <==> k in keys
  {
    if keys == {} then []
    else
      var k :| k in keys;
      var rest := Ordered(keys - {k});
      InsertedIs(rest, k);
      WithKey(rest, k)
  }

  method ProcessBaseItem(ch: ChangeSet, k: bytes, v: bytes, ghost rec: bytes) returns (out: seq<bytes>)
    requires k == Key(rec) && v == Value(rec)
    ensures out == Processed(ch, rec)
  {
    if k in ch.deletes {
      return [];
    }
    if k in ch.updates {
      return [OutItem(k, ch.updates[k])];
    }
    return [OutItem(k, v)];
  }

  /** What is left to emit. */
  ghost function ToEmit(ch: ChangeSet, head: Option<bytes>, rest: seq<bytes>, ins: seq<bytes>): seq<bytes>
    requires forall k :: k in ins ==> k in ch.inserts
  {
    Emit(ch, Head(head) + rest, ins)
  }

  /** One turn of the applier's merge: what is emitted, and which sides advance. */
  method EmitStep(ch: ChangeSet, head: Option<bytes>, ins: seq<bytes>, ghost rest: seq<bytes>)
    returns (out: seq<bytes>, nextBase: bool, nextInsert: bool)
    requires forall k :: k in ins ==> k in ch.inserts
    requires head.Some? || ins != []
    requires head.None? ==> rest == []
    ensures nextBase || nextInsert
    ensures (nextBase ==> head.Some?) && (nextInsert ==> ins != [])
    ensures var ins' := if nextInsert then ins[1..] else ins;
            ToEmit(ch, head, rest, ins) == out + Emit(ch, if nextBase then rest else Head(head) + rest, ins')
  {
    assert (Head(head) + rest)[if head.Some? then 1 else 0..] == rest;
    hide Less, Key, Value, OutItem, Processed;
    if head.None? {
      return [OutItem(ins[0], ch.inserts[ins[0]])], false, true;
    }
    var base := ProcessBaseItem(ch, Key(head.value), Value(head.value), head.value);
    if ins == [] {
      return base, true, false;
    }
    var cmp := BytesCompare(Key(head.value), ins[0]);
    if cmp < 0 {
      return base, true, false;
    }
    if cmp > 0 {
      LessTotal(Key(head.value), ins[0]);
      return [OutItem(ins[0], ch.inserts[ins[0]])], false, true;
    }
    LessIrreflexive(ins[0]);
    return base + [OutItem(ins[0], ch.inserts[ins[0]])], true, true;
  }

  /** One turn of the applier's loop. */
  method EmitTurn(ch: ChangeSet, base: RecordReader, head: Option<bytes>, ins: seq<bytes>, ghost bs: seq<bytes>)
    returns (out: seq<bytes>, head': Option<bytes>, nextInsert: bool, ghost bs': seq<bytes>)
    requires Side(base, head, bs) && (head.Some? || ins != [])
    requires forall k :: k in ins ==> k in ch.inserts
    modifies base
    ensures Side(base, head', bs') && (nextInsert ==> ins != [])
    ensures var ins' := if nextInsert then ins[1..] else ins;
            Emit(ch, bs, ins) == out + Emit(ch, bs', ins') && |bs'| + |ins'| < |bs| + |ins|
  {
    hide Emit, LeavesOf, RecordReader.Rest, Less;
    var nextBase, read;
    out, nextBase, nextInsert := EmitStep(ch, head, ins, base.Rest());
    bs' := if nextBase then base.Rest() else bs;
    head', read := AdvanceIf(base, nextBase, head);
  }

  /** The target version of a store, streamed from the base; None when there is nothing to emit. */
  method EmitStoreFromBase(ch: ChangeSet, base: RecordReader) returns (out: Option<seq<bytes>>, ghost ins: seq<bytes>)
    requires base.Valid()
    modifies base
    ensures Increasing(ins) && (forall k :: k in ins <==> k in ch.inserts)
    ensures out == if old(base.Rest()) == [] && ins == [] then None else Some(Emit(ch, old(base.Rest()), ins))
  {
    hide Emit, LeavesOf, RecordReader.Rest, Increasing, Less;
    var insertKeys := SortedKeys(ch.inserts.Keys);
    ins := insertKeys;
    ghost var bs := base.Rest();
    var head := base.Advance();
    if head.None? && insertKeys == [] {
      return None, ins;
    }
    var items := EmitRest(ch, base, head, insertKeys, bs);
    return Some(items), ins;
  }

  method EmitRest(ch: ChangeSet, base: RecordReader, first: Option<bytes>, insertKeys: seq<bytes>,
                  ghost all: seq<bytes>)
    returns (items: seq<bytes>)
    requires Side(base, first, all) && forall k :: k in insertKeys ==> k in ch.inserts
    modifies base
    ensures items == Emit(ch, all, insertKeys)
  {
    hide Emit, LeavesOf, RecordReader.Rest, Less;
    items := [];
    var head, idx := first, 0;
    ghost var bs := all;
    assert insertKeys[0..] == insertKeys;
    while head.Some? || idx < |insertKeys|
      invariant Side(base, head, bs) && 0 <= idx <= |insertKeys|
      invariant items + Emit(ch, bs, insertKeys[idx..]) == Emit(ch, all, insertKeys)
      decreases |bs| + |insertKeys| - idx
    {
      ghost var todo := insertKeys[idx..];
      var more, nextInsert;
      more, head, nextInsert, bs := EmitTurn(ch, base, head, insertKeys[idx..], bs);
      items := items + more;
      if nextInsert {
        idx := idx + 1;
        assert todo[1..] == insertKeys[idx..];
      }
    }
    assert bs == [] && insertKeys[idx..] == [];
    EmitNothing(ch);
  }

  lemma EmitNothing(ch: ChangeSet)
    ensures Emit(ch, [], []) == []
  {}

  // ---------- the round trip of one store ----------

  lemma InsertsFromTarget(cmp: Comparison, b: seq<bytes>, t: seq<bytes>)
    requires ZeroOnlyOnEqual(cmp) && SortedRecords(b) && SortedRecords(t) && AllSound(b) && AllSound(t)
    requires Small(Contents(t))
    ensures var ch := Collect(Merge(cmp, b, t));
            && Small(ch.inserts) && Small(ch.updates)
            && (forall k :: k in Survivors(ch, Contents(b)) ==> k !in ch.inserts)
  {
    hide Collect, Merge, Contents;
    var ch := Collect(Merge(cmp, b, t));
    forall k ensures Tells(ch, Contents(b), Contents(t), k) {
      MergeTells(cmp, b, t, k);
    }
    forall k | k in ch.updates ensures |k| < TWO_64 && |ch.updates[k]| < TWO_64 {
      assert Tells(ch, Contents(b), Contents(t), k);
    }
    forall k | k in ch.inserts ensures |k| < TWO_64 && |ch.inserts[k]| < TWO_64 {
      assert Tells(ch, Contents(b), Contents(t), k);
    }
    forall k | k in Survivors(ch, Contents(b)) ensures k !in ch.inserts {
      assert Tells(ch, Contents(b), Contents(t), k);
    }
  }

  /** The main theorem on one store: for key-sorted base and target leaves and any comparison that is zero only
      on equal records, applying the differ's changes to the base emits the target's keys and values, in the
      target's order and without duplicates. */
  lemma DiffThenApply(cmp: Comparison, b: seq<bytes>, t: seq<bytes>, ins: seq<bytes>)
    requires ZeroOnlyOnEqual(cmp) && SortedRecords(b) && SortedRecords(t) && AllSound(b) && AllSound(t)
    requires Small(Contents(b)) && Small(Contents(t))
    requires Increasing(ins) && forall k :: k in ins <==> k in Collect(Merge(cmp, b, t)).inserts
    ensures var out := Emit(Collect(Merge(cmp, b, t)), b, ins);
            SortedRecords(out) && Contents(out) == Contents(t) && Pairs(out) == Pairs(t)
  {
    var ch := Collect(Merge(cmp, b, t));
    InsertsFromTarget(cmp, b, t);
    DiffPatches(cmp, b, t);
    hide Collect, Merge, Contents, SortedRecords, Emit, Small, AllSound, Survivors;
    EmitIsOk(ch, b, ins);
    PatchedIs(ch, Contents(b), ins);
    SortedUnique(Emit(ch, b, ins), t);
  }

  lemma PatchedIs(ch: ChangeSet, base: map<bytes, bytes>, ins: seq<bytes>)
    requires forall k :: k in ins <==> k in ch.inserts
    ensures Patched(ch, base) == Survivors(ch, base) + Chosen(ch.inserts, ins)
  {
    assert Chosen(ch.inserts, ins) == ch.inserts;
  }
}
