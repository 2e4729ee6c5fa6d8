/** Extension payloads: diffed, patched and compared as sets of payload hashes. */
module ExtensionDiff {
  import opened Bytes
  import opened IavlEncoding
  import opened LeafApply
  import opened DiffStream

  datatype ExtData = ExtData(format: uint32, payloads: seq<bytes>)

  /** The extensions of a snapshot by name. */
  type Extensions = map<bytes, ExtData>

  function Payloads(xs: Extensions, name: bytes): seq<bytes> {
    if name in xs then xs[name].payloads else []
  }

  function Hashes(sha: Sha, ps: seq<bytes>): set<Hash32> {
    set p | p in ps :: sha(p)
  }

  lemma HashesAppend(sha: Sha, ps: seq<bytes>, p: bytes)
    ensures Hashes(sha, ps + [p]) == Hashes(sha, ps) + {sha(p)}
  {
    assert p in ps + [p];
    forall h | h in Hashes(sha, ps) ensures h in Hashes(sha, ps + [p]) {
      var q :| q in ps && sha(q) == h;
      assert q in ps + [p];
    }
  }

  // ---------- the differ ----------

  method HashSet(sha: Sha, ps: seq<bytes>) returns (hs: set<Hash32>)
    ensures hs == Hashes(sha, ps)
  {
    hs := {};
    for i := 0 to |ps|
      invariant hs == Hashes(sha, ps[..i])
    {
      assert ps[..i + 1] == ps[..i] + [ps[i]];
      HashesAppend(sha, ps[..i], ps[i]);
      hs := hs + {sha(ps[i])};
    }
    assert ps[..|ps|] == ps;
  }

  /** The payloads of a list by hash; the last one wins. */
  method ByHash(sha: Sha, ps: seq<bytes>) returns (m: map<Hash32, bytes>)
    ensures m.Keys == Hashes(sha, ps)
    ensures forall h :: h in m ==> m[h] in ps && sha(m[h]) == h
  {
    m := map[];
    for i := 0 to |ps|
      invariant m.Keys == Hashes(sha, ps[..i])
      invariant forall h :: h in m ==> m[h] in ps && sha(m[h]) == h
    {
      assert ps[..i + 1] == ps[..i] + [ps[i]];
      HashesAppend(sha, ps[..i], ps[i]);
      m := m[sha(ps[i]) := ps[i]];
    }
    assert ps[..|ps|] == ps;
  }

  /** The first payload with a hash. */
  method FirstWith(sha: Sha, ps: seq<bytes>, h: Hash32) returns (p: bytes)
    requires h in Hashes(sha, ps)
    ensures p in ps && sha(p) == h
  {
    ghost var q :| q in ps && sha(q) == h;
    ghost var k: nat :| k < |ps| && ps[k] == q;
    var i := 0;
    while sha(ps[i]) != h
      invariant 0 <= i <= k
      decreases k - i
    {
      i := i + 1;
    }
    p := ps[i];
  }

  /** What a section must say: one removed payload for every hash that only the base has, and one added payload
      for every hash that only the target has. */
  predicate SaysDiff(sha: Sha, base: seq<bytes>, target: seq<bytes>, removes: seq<bytes>, adds: seq<bytes>) {
    && (forall p :: p in removes ==> p in base) && (forall p :: p in adds ==> p in target)
    && Hashes(sha, removes) == Hashes(sha, base) - Hashes(sha, target)
    && Hashes(sha, adds) == Hashes(sha, target) - Hashes(sha, base)
    && |removes| == |Hashes(sha, base) - Hashes(sha, target)|
    && |adds| == |Hashes(sha, target) - Hashes(sha, base)|
  }

  method DiffPayloads(sha: Sha, base: seq<bytes>, target: seq<bytes>) returns (removes: seq<bytes>, adds: seq<bytes>)
    ensures SaysDiff(sha, base, target, removes, adds)
  {
    var baseHashes := HashSet(sha, base);
    var targetByHash := ByHash(sha, target);
    removes := RemovedPayloads(sha, base, baseHashes, targetByHash.Keys);
    adds := AddedPayloads(sha, target, targetByHash, baseHashes);
  }

  lemma VisitOne(all: set<Hash32>, rest: set<Hash32>, done: set<Hash32>, other: set<Hash32>, h: Hash32)
    requires h in rest && rest <= all && done == (all - rest) - other
    ensures h in other ==> done == (all - (rest - {h})) - other
    ensures h !in other ==> done + {h} == (all - (rest - {h})) - other && |done + {h}| == |done| + 1
  {}

  /** Hashes are visited in no particular order. */
  method RemovedPayloads(sha: Sha, base: seq<bytes>, baseHashes: set<Hash32>, targetHashes: set<Hash32>)
    returns (removes: seq<bytes>)
    requires baseHashes == Hashes(sha, base)
    ensures (forall p :: p in removes ==> p in base)
    ensures Hashes(sha, removes) == baseHashes - targetHashes && |removes| == |baseHashes - targetHashes|
  {
    assert Hashes(sha, []) == {};
    hide Hashes;
    removes := [];
    var rest := baseHashes;
    ghost var done: set<Hash32> := {};
    while rest != {}
      invariant rest <= baseHashes && done == (baseHashes - rest) - targetHashes
      invariant forall p :: p in removes ==> p in base
      invariant Hashes(sha, removes) == done && |removes| == |done|
      decreases |rest|
    {
      var h :| h in rest;
      VisitOne(baseHashes, rest, done, targetHashes, h);
      rest := rest - {h};
      if h !in targetHashes {
        var p := FirstWith(sha, base, h);
        HashesAppend(sha, removes, p);
        removes, done := removes + [p], done + {h};
      }
    }
    assert done == baseHashes - targetHashes;
  }

  method AddedPayloads(sha: Sha, target: seq<bytes>, targetByHash: map<Hash32, bytes>, baseHashes: set<Hash32>)
    returns (adds: seq<bytes>)
    requires forall h :: h in targetByHash ==> targetByHash[h] in target && sha(targetByHash[h]) == h
    ensures forall p :: p in adds ==> p in target
    ensures Hashes(sha, adds) == targetByHash.Keys - baseHashes && |adds| == |targetByHash.Keys - baseHashes|
  {
    assert Hashes(sha, []) == {};
    hide Hashes;
    adds := [];
    var rest := targetByHash.Keys;
    ghost var done: set<Hash32> := {};
    while rest != {}
      invariant rest <= targetByHash.Keys && done == (targetByHash.Keys - rest) - baseHashes
      invariant forall p :: p in adds ==> p in target
      invariant Hashes(sha, adds) == done && |adds| == |done|
      decreases |rest|
    {
      var h :| h in rest;
      VisitOne(targetByHash.Keys, rest, done, baseHashes, h);
      rest := rest - {h};
      if h !in baseHashes {
        var p := targetByHash[h];
        HashesAppend(sha, adds, p);
        adds, done := adds + [p], done + {h};
      }
    }
    assert done == targetByHash.Keys - baseHashes;
  }

  // ---------- the applier ----------

  function Surviving(sha: Sha, base: seq<bytes>, removed: set<Hash32>): seq<bytes> {
    if base == [] then []
    else (if sha(base[0]) in removed then [] else [base[0]]) + Surviving(sha, base[1..], removed)
  }

  /** The payloads of a rebuilt extension; without a section the base's are passed through. */
  function Rebuilt(sha: Sha, base: seq<bytes>, ch: Option<ExtChanges>): seq<bytes> {
    match ch
    case None => Surviving(sha, base, {})
    case Some(c) => Surviving(sha, base, Hashes(sha, c.removes)) + c.adds
  }

  method RebuildPayloads(sha: Sha, base: seq<bytes>, ch: Option<ExtChanges>) returns (out: seq<bytes>)
    ensures out == Rebuilt(sha, base, ch)
  {
    hide Surviving, Hashes;
    if ch.None? {
      out := KeepPayloads(sha, base, {});
      return;
    }
    var removed := HashSet(sha, ch.value.removes);
    out := KeepPayloads(sha, base, removed);
    out := out + ch.value.adds;
  }

  method KeepPayloads(sha: Sha, base: seq<bytes>, removed: set<Hash32>) returns (out: seq<bytes>)
    ensures out == Surviving(sha, base, removed)
  {
    out := [];
    ghost var todo := base;
    var i := 0;
    while i < |base|
      invariant 0 <= i <= |base| && todo == base[i..]
      invariant out + Surviving(sha, todo, removed) == Surviving(sha, base, removed)
    {
      assert todo[1..] == base[i + 1..] && todo[0] == base[i];
      if sha(base[i]) !in removed {
        out := out + [base[i]];
      }
      i, todo := i + 1, todo[1..];
    }
  }

  lemma {:induction false} KeptIs(sha: Sha, base: seq<bytes>, removed: set<Hash32>, p: bytes)
    ensures p in Surviving(sha, base, removed) <==> p in base && sha(p) !in removed
  {
    if base != [] {
      KeptIs(sha, base[1..], removed, p);
    }
  }

  /** Patching gives the target's payload hashes. */
  lemma RebuiltHashes(sha: Sha, base: seq<bytes>, target: seq<bytes>, c: ExtChanges)
    requires SaysDiff(sha, base, target, c.removes, c.adds)
    ensures Hashes(sha, Rebuilt(sha, base, Some(c))) == Hashes(sha, target)
  {
    var out, kept := Rebuilt(sha, base, Some(c)), Surviving(sha, base, Hashes(sha, c.removes));
    forall h ensures h in Hashes(sha, out) <==> h in Hashes(sha, target) {
      if h in Hashes(sha, out) {
        var p :| p in out && sha(p) == h;
        KeptIs(sha, base, Hashes(sha, c.removes), p);
        if p in c.adds {
          assert h in Hashes(sha, c.adds);
        } else {
          assert p in base && h in Hashes(sha, base);
        }
      }
      if h in Hashes(sha, target) {
        if h in Hashes(sha, base) {
          var p :| p in base && sha(p) == h;
          KeptIs(sha, base, Hashes(sha, c.removes), p);
          assert p in out;
        } else {
          assert h in Hashes(sha, c.adds);
          var p :| p in c.adds && sha(p) == h;
          assert p in out;
        }
      }
    }
  }

  /** With a hash that does not collide on the payloads at hand, patching gives the target's payloads. */
  lemma RebuiltPayloads(sha: Sha, base: seq<bytes>, target: seq<bytes>, c: ExtChanges, p: bytes)
    requires SaysDiff(sha, base, target, c.removes, c.adds)
    requires forall p, q :: p in base + target && q in base + target && sha(p) == sha(q) ==> p == q
    ensures p in Rebuilt(sha, base, Some(c)) <==> p in target
  {
    var out := Rebuilt(sha, base, Some(c));
    RebuiltHashes(sha, base, target, c);
    KeptIs(sha, base, Hashes(sha, c.removes), p);
    if p in out {
      assert sha(p) in Hashes(sha, out);
      var q :| q in target && sha(q) == sha(p);
      assert q in base + target && p in base + target;
    }
    if p in target {
      assert sha(p) in Hashes(sha, target);
      var q :| q in out && sha(q) == sha(p);
      KeptIs(sha, base, Hashes(sha, c.removes), q);
      assert q in base + target && p in base + target;
    }
  }

  // ---------- sections ----------

  /** One extension section of a diff. */
  datatype ExtSec = ExtSec(name: bytes, format: uint32, removes: seq<bytes>, adds: seq<bytes>)

  function PayloadRecords(removes: seq<bytes>, adds: seq<bytes>): seq<DiffRecord> {
    if removes != [] then [ExtRemove(removes[0])] + PayloadRecords(removes[1..], adds)
    else if adds != [] then [ExtAdd(adds[0])] + PayloadRecords(removes, adds[1..])
    else [ExtLeave]
  }

  function ExtDiffs(secs: seq<ExtSec>): seq<DiffRecord> {
    if secs == [] then []
    else [ExtEnter(secs[0].name, secs[0].format)] + PayloadRecords(secs[0].removes, secs[0].adds) + ExtDiffs(secs[1..])
  }

  lemma {:induction false} TakesPayloads(removes: seq<bytes>, adds: seq<bytes>, more: seq<DiffRecord>)
    ensures TakeExt(PayloadRecords(removes, adds) + more) == (adds, removes, more)
    decreases |removes| + |adds|
  {
    var rs := PayloadRecords(removes, adds) + more;
    if removes != [] {
      assert rs[1..] == PayloadRecords(removes[1..], adds) + more;
      TakesPayloads(removes[1..], adds, more);
      assert [removes[0]] + removes[1..] == removes;
    } else if adds != [] {
      assert rs[1..] == PayloadRecords(removes, adds[1..]) + more;
      TakesPayloads(removes, adds[1..], more);
      assert [adds[0]] + adds[1..] == adds;
    } else {
      assert rs[1..] == more;
    }
  }

  predicate SecSays(sha: Sha, base: Extensions, target: Extensions, sec: ExtSec) {
    SaysDiff(sha, Payloads(base, sec.name), Payloads(target, sec.name), sec.removes, sec.adds)
  }

  /** The format of a section is the base's where it has the extension. */
  predicate Proper(base: Extensions, target: Extensions, sec: ExtSec) {
    && (sec.name in base || sec.name in target)
    && sec.format == if sec.name in base then base[sec.name].format else target[sec.name].format
  }

  /** The sections are those of the extensions of either side, once each and in name order, and each says the
      difference. */
  ghost predicate SecsSay(sha: Sha, base: Extensions, target: Extensions, secs: seq<ExtSec>) {
    && (forall i :: 0 <= i < |secs| ==> SecSays(sha, base, target, secs[i]) && Proper(base, target, secs[i]))
    && (forall i, j :: 0 <= i < j < |secs| ==> secs[i].name != secs[j].name && Less(secs[i].name, secs[j].name))
    && (forall name :: name in base || name in target ==> exists i :: 0 <= i < |secs| && secs[i].name == name)
  }

  /** The change sets of the extension sections, by name; a later section replaces an earlier one. */
  function ReadExt(rs: seq<DiffRecord>): map<bytes, ExtChanges>
    decreases |rs|
  {
    var todo := ToSection(rs);
    match SectionOf(todo)
    case ExtSection(name, format) =>
      var (adds, removes, rest) := TakeExt(todo[1..]);
      map[name := ExtChanges(format, adds, removes)] + ReadExt(rest)
    case _ => map[]
  }

  lemma ReadsOne(s: ExtSec, rest: seq<DiffRecord>)
    ensures ReadExt([ExtEnter(s.name, s.format)] + PayloadRecords(s.removes, s.adds) + rest)
         == map[s.name := ExtChanges(s.format, s.adds, s.removes)] + ReadExt(rest)
  {
    var rs := [ExtEnter(s.name, s.format)] + PayloadRecords(s.removes, s.adds) + rest;
    assert rs[1..] == PayloadRecords(s.removes, s.adds) + rest;
    TakesPayloads(s.removes, s.adds, rest);
    hide TakeExt, PayloadRecords;
  }

  /** The change sets that a reader finds are those of the sections. */
  ghost predicate ReadBy(secs: seq<ExtSec>, m: map<bytes, ExtChanges>) {
    && (forall i :: 0 <= i < |secs| ==>
        secs[i].name in m && m[secs[i].name] == ExtChanges(secs[i].format, secs[i].adds, secs[i].removes))
    && (forall name :: name in m ==> exists i :: 0 <= i < |secs| && secs[i].name == name)
  }

  lemma ReadByMore(secs: seq<ExtSec>, m: map<bytes, ExtChanges>)
    requires secs != [] && ReadBy(secs[1..], m)
    requires forall i, j :: 0 <= i < j < |secs| ==> secs[i].name != secs[j].name
    ensures var s := secs[0]; ReadBy(secs, map[s.name := ExtChanges(s.format, s.adds, s.removes)] + m)
  {
    var s := secs[0];
    var n := map[s.name := ExtChanges(s.format, s.adds, s.removes)] + m;
    forall i | 0 <= i < |secs[1..]| ensures secs[1..][i].name != s.name {
      assert secs[1..][i] == secs[i + 1];
    }
    forall i | 0 <= i < |secs|
      ensures secs[i].name in n && n[secs[i].name] == ExtChanges(secs[i].format, secs[i].adds, secs[i].removes)
    {
      if i > 0 { assert secs[1..][i - 1] == secs[i]; }
    }
    forall name | name in n ensures exists i :: 0 <= i < |secs| && secs[i].name == name {
      if name != s.name {
        var i :| 0 <= i < |secs[1..]| && secs[1..][i].name == name;
        assert secs[i + 1].name == name;
      }
    }
  }

  lemma {:induction false} ReadsSections(secs: seq<ExtSec>)
    requires forall i, j :: 0 <= i < j < |secs| ==> secs[i].name != secs[j].name
    ensures ReadBy(secs, ReadExt(ExtDiffs(secs)))
  {
    if secs == [] {
    } else {
      hide ReadExt, PayloadRecords, ReadBy;
      ReadsOne(secs[0], ExtDiffs(secs[1..]));
      ReadsSections(secs[1..]);
      ReadByMore(secs, ReadExt(ExtDiffs(secs[1..])));
    }
  }

  /** Reads all remaining extension sections of a diff. */
  method ReadExtensions(dr: DiffReader) returns (changes: map<bytes, ExtChanges>)
    requires dr.Valid()
    modifies dr
    ensures dr.Valid() && changes == ReadExt(old(dr.todo))
  {
    hide DiffReader.Valid, TakeExt, ToSection;
    changes := map[];
    ghost var all := ReadExt(dr.todo);
    while true
      invariant dr.Valid() && all == changes + ReadExt(dr.todo)
      decreases |dr.todo|
    {
      ghost var before := ReadExt(dr.todo);
      var sec := dr.PeekSection();
      if !sec.ExtSection? {
        assert changes + map[] == changes;
        return;
      }
      dr.ConsumeRecord();
      var ch := dr.ReadExtChanges(sec.format);
      assert before == map[sec.name := ch] + ReadExt(dr.todo);
      assert changes + before == changes[sec.name := ch] + ReadExt(dr.todo);
      changes := changes[sec.name := ch];
    }
  }

  /** The records are the section of one extension. */
  ghost predicate IsSection(sha: Sha, base: Extensions, target: Extensions, name: bytes, rs: seq<DiffRecord>,
                            sec: ExtSec) {
    && rs == [ExtEnter(name, sec.format)] + PayloadRecords(sec.removes, sec.adds)
    && sec.name == name && SecSays(sha, base, target, sec) && Proper(base, target, sec)
  }

  /** The section of one extension; its format comes from the base when it has the extension. */
  method DiffExtension(sha: Sha, base: Extensions, target: Extensions, name: bytes) returns (rs: seq<DiffRecord>)
    requires name in base || name in target
    ensures exists sec :: IsSection(sha, base, target, name, rs, sec)
  {
    hide SaysDiff;
    var format := if name in base then base[name].format else if name in target then target[name].format else 1;
    var removes, adds := DiffPayloads(sha, Payloads(base, name), Payloads(target, name));
    var body := EmitPayloads(removes, adds);
    rs := [ExtEnter(name, format)] + body;
    assert IsSection(sha, base, target, name, rs, ExtSec(name, format, removes, adds));
  }

  /** The extensions part of the differ: one section for every extension of either side. */
  method DiffExtensions(sha: Sha, base: Extensions, target: Extensions) returns (rs: seq<DiffRecord>)
    ensures exists secs :: rs == ExtDiffs(secs) && SecsSay(sha, base, target, secs)
  {
    hide SecSays, Increasing, ExtDiffs, PayloadRecords, Less, Proper;
    var names := SortedKeys(base.Keys + target.Keys);
    IncreasingDistinct(names);
    rs := [];
    ghost var secs: seq<ExtSec> := [];
    assert ExtDiffs([]) == [] by { NoSections(); }
    for i := 0 to |names|
      invariant rs == ExtDiffs(secs) && |secs| == i
      invariant forall j :: 0 <= j < i ==> secs[j].name == names[j]
      invariant forall j :: 0 <= j < i ==> SecSays(sha, base, target, secs[j]) && Proper(base, target, secs[j])
    {
      assert names[i] in names;
      var more := DiffExtension(sha, base, target, names[i]);
      ghost var sec :| IsSection(sha, base, target, names[i], more, sec);
      ExtDiffsAppend(secs, sec);
      rs := rs + more;
      secs := secs + [sec];
    }
    forall name | name in base || name in target ensures exists i :: 0 <= i < |secs| && secs[i].name == name {
      assert name in names;
      var i :| 0 <= i < |names| && names[i] == name;
      assert secs[i].name == name;
    }
  }

  lemma NoSections()
    ensures ExtDiffs([]) == []
  {}

  method EmitPayloads(removes: seq<bytes>, adds: seq<bytes>) returns (rs: seq<DiffRecord>)
    ensures rs == PayloadRecords(removes, adds)
  {
    rs := [];
    assert removes[0..] == removes && adds[0..] == adds;
    for i := 0 to |removes|
      invariant rs + PayloadRecords(removes[i..], adds) == PayloadRecords(removes, adds)
    {
      assert removes[i..][1..] == removes[i + 1..];
      rs := rs + [ExtRemove(removes[i])];
    }
    assert removes[|removes|..] == [];
    for i := 0 to |adds|
      invariant rs + PayloadRecords([], adds[i..]) == PayloadRecords(removes, adds)
    {
      assert adds[i..][1..] == adds[i + 1..];
      rs := rs + [ExtAdd(adds[i])];
    }
    assert adds[|adds|..] == [];
    rs := rs + [ExtLeave];
  }

  lemma {:induction false} ExtDiffsAppend(secs: seq<ExtSec>, sec: ExtSec)
    ensures ExtDiffs(secs + [sec])
         == ExtDiffs(secs) + ([ExtEnter(sec.name, sec.format)] + PayloadRecords(sec.removes, sec.adds))
  {
    if secs != [] {
      assert (secs + [sec])[1..] == secs[1..] + [sec];
      ExtDiffsAppend(secs[1..], sec);
    } else {
      assert [sec][1..] == [];
    }
    hide PayloadRecords;
  }

  lemma {:induction false} IncreasingDistinct(ks: seq<bytes>)
    requires Increasing(ks)
    ensures forall i, j :: 0 <= i < j < |ks| ==> ks[i] != ks[j] && Less(ks[i], ks[j])
  {
    if ks != [] {
      IncreasingDistinct(ks[1..]);
      LessIrreflexive(ks[0]);
      hide Less;
      forall i, j | 0 <= i < j < |ks| ensures ks[i] != ks[j] && Less(ks[i], ks[j]) {
        assert ks[j] == ks[1..][j - 1];
        if i > 0 { assert ks[i] == ks[1..][i - 1]; }
      }
    }
  }

  function ChangesFor(changes: map<bytes, ExtChanges>, name: bytes): Option<ExtChanges> {
    if name in changes then Some(changes[name]) else None
  }

  /** The output under a name is the rebuilt extension. */
  predicate AllPatched(sha: Sha, base: Extensions, changes: map<bytes, ExtChanges>, out: Extensions, name: bytes) {
    && Payloads(out, name) == Rebuilt(sha, Payloads(base, name), ChangesFor(changes, name))
    && (name in out ==>
        && (name in base || name in changes) && out[name].payloads != []
        && out[name].format == if name in changes then changes[name].format else base[name].format)
  }

  method ApplyExtension(sha: Sha, base: Extensions, changes: map<bytes, ExtChanges>, name: bytes, before: Extensions)
    returns (out: Extensions)
    requires name in base || name in changes
    requires name !in before
    ensures AllPatched(sha, base, changes, out, name)
    ensures forall x :: x != name ==> (x in out <==> x in before) && (x in out ==> out[x] == before[x])
  {
    hide Rebuilt;
    var format := if name in changes then changes[name].format else base[name].format;
    var payloads := RebuildPayloads(sha, Payloads(base, name), ChangesFor(changes, name));
    out := if payloads != [] then before[name := ExtData(format, payloads)] else before;
  }

  /** The extension phase of the applier: an extension is emitted only when it keeps a payload. */
  method ApplyExtensions(sha: Sha, base: Extensions, changes: map<bytes, ExtChanges>) returns (out: Extensions)
    ensures forall name :: name in base || name in changes ==> AllPatched(sha, base, changes, out, name)
    ensures forall name :: name in out ==> name in base || name in changes
  {
    hide AllPatched, Increasing;
    var rest := SortedKeys(base.Keys + changes.Keys);
    out := map[];
    while rest != []
      invariant Increasing(rest) && forall name :: name in rest ==> name in base || name in changes
      invariant forall name :: name in base || name in changes ==>
        name in rest || AllPatched(sha, base, changes, out, name)
      invariant forall name :: name in out ==> name !in rest && (name in base || name in changes)
      decreases |rest|
    {
      var name := rest[0];
      FirstIsNew(rest);
      rest := rest[1..];
      var next := ApplyExtension(sha, base, changes, name, out);
      forall x | x != name && AllPatched(sha, base, changes, out, x) ensures AllPatched(sha, base, changes, next, x) {
        PatchedElsewhere(sha, base, changes, out, next, x);
      }
      out := next;
    }
  }

  lemma FirstIsNew(ks: seq<bytes>)
    requires Increasing(ks) && ks != []
    ensures ks[0] !in ks[1..] && Increasing(ks[1..])
  {
    LessIrreflexive(ks[0]);
  }

  lemma PatchedElsewhere(sha: Sha, base: Extensions, changes: map<bytes, ExtChanges>, out: Extensions, next: Extensions,
                         x: bytes)
    requires AllPatched(sha, base, changes, out, x)
    requires (x in next <==> x in out) && (x in next ==> next[x] == out[x])
    ensures AllPatched(sha, base, changes, next, x)
  {}

  lemma SectionFor(sha: Sha, base: Extensions, target: Extensions, secs: seq<ExtSec>, m: map<bytes, ExtChanges>,
                   name: bytes)
    requires SecsSay(sha, base, target, secs) && ReadBy(secs, m)
    ensures if name in m then SaysDiff(sha, Payloads(base, name), Payloads(target, name), m[name].removes, m[name].adds)
            else name !in base && name !in target
  {
    hide SaysDiff, Payloads;
    if name in m {
      var i :| 0 <= i < |secs| && secs[i].name == name;
      assert SecSays(sha, base, target, secs[i]);
    }
  }

  /** Diffing, writing, reading and patching extensions gives the target's payload hashes under every name. */
  lemma ExtensionsRoundTrip(sha: Sha, base: Extensions, target: Extensions, secs: seq<ExtSec>, name: bytes)
    requires SecsSay(sha, base, target, secs)
    ensures var changes := ReadExt(ExtDiffs(secs));
            Hashes(sha, Rebuilt(sha, Payloads(base, name), ChangesFor(changes, name)))
              == Hashes(sha, Payloads(target, name))
  {
    var changes := ReadExt(ExtDiffs(secs));
    ReadsSections(secs);
    hide SaysDiff, ReadExt, ExtDiffs, Hashes, SecsSay, ReadBy, Surviving;
    SectionFor(sha, base, target, secs, changes, name);
    if name in changes {
      hide Rebuilt;
      RebuiltHashes(sha, Payloads(base, name), Payloads(target, name), changes[name]);
    }
  }

  // ---------- the comparison ----------

  function HashesOf(sha: Sha, xs: Extensions, name: bytes): set<Hash32> {
    Hashes(sha, Payloads(xs, name))
  }

  method CountMissing(a: set<Hash32>, b: set<Hash32>) returns (n: nat)
    ensures n == |a - b|
  {
    n := 0;
    var rest := a;
    ghost var done: set<Hash32> := {};
    while rest != {}
      invariant rest <= a && done == (a - rest) - b && n == |done|
      decreases |rest|
    {
      var h :| h in rest;
      VisitOne(a, rest, done, b, h);
      rest := rest - {h};
      if h !in b {
        n, done := n + 1, done + {h};
      }
    }
    assert done == a - b;
  }

  method CompareExtension(sha: Sha, a: Extensions, b: Extensions, name: bytes) returns (diffs: nat)
    ensures diffs == |HashesOf(sha, a, name) - HashesOf(sha, b, name)|
      + |HashesOf(sha, b, name) - HashesOf(sha, a, name)|
    ensures diffs == 0 <==> HashesOf(sha, a, name) == HashesOf(sha, b, name)
  {
    hide Hashes;
    var setA := HashSet(sha, Payloads(a, name));
    var setB := HashSet(sha, Payloads(b, name));
    var onlyA := CountMissing(setA, setB);
    var onlyB := CountMissing(setB, setA);
    EmptyDifferences(setA, setB);
    diffs := onlyA + onlyB;
  }

  /** The payload hashes that one side only has, with the extension's name. */
  ghost function OneSided(sha: Sha, a: Extensions, b: Extensions, names: set<bytes>): set<(bytes, Hash32)> {
    set name, h | name in names && h in Sided(sha, a, b, name) :: (name, h)
  }

  ghost function Sided(sha: Sha, a: Extensions, b: Extensions, name: bytes): set<Hash32> {
    (HashesOf(sha, a, name) - HashesOf(sha, b, name)) + (HashesOf(sha, b, name) - HashesOf(sha, a, name))
  }

  ghost function Named(name: bytes, hs: set<Hash32>): set<(bytes, Hash32)> {
    set h | h in hs :: (name, h)
  }

  lemma {:induction false} NamedSize(name: bytes, hs: set<Hash32>)
    ensures |Named(name, hs)| == |hs|
    decreases |hs|
  {
    if hs == {} {
      assert Named(name, hs) == {};
    } else {
      var h :| h in hs;
      NamedSize(name, hs - {h});
      assert Named(name, hs) == Named(name, hs - {h}) + {(name, h)};
    }
  }

  lemma OneSidedMore(sha: Sha, a: Extensions, b: Extensions, names: set<bytes>, name: bytes)
    requires name !in names
    ensures |OneSided(sha, a, b, names + {name})| == |OneSided(sha, a, b, names)|
      + |HashesOf(sha, a, name) - HashesOf(sha, b, name)| + |HashesOf(sha, b, name) - HashesOf(sha, a, name)|
  {
    hide HashesOf;
    NamedSize(name, Sided(sha, a, b, name));
    assert OneSided(sha, a, b, names + {name}) == OneSided(sha, a, b, names) + Named(name, Sided(sha, a, b, name));
    assert OneSided(sha, a, b, names) !! Named(name, Sided(sha, a, b, name));
  }

  /** The number of payload hashes that one side only has, over all extensions; it is zero exactly when every extension
      has the same hash set. */
  method CompareExtensions(sha: Sha, a: Extensions, b: Extensions) returns (diffs: nat)
    ensures diffs == |OneSided(sha, a, b, a.Keys + b.Keys)|
    ensures diffs == 0 <==> forall name :: HashesOf(sha, a, name) == HashesOf(sha, b, name)
  {
    hide HashesOf, OneSided, Parted;
    diffs := 0;
    var rest := a.Keys + b.Keys;
    ghost var done: set<bytes> := {};
    NoneSided(sha, a, b);
    PartStart(a.Keys + b.Keys);
    while rest != {}
      invariant rest <= a.Keys + b.Keys
      invariant Parted(a.Keys + b.Keys, done, rest)
      invariant diffs == |OneSided(sha, a, b, done)|
      decreases |rest|
    {
      var name :| name in rest;
      PartOne(a.Keys + b.Keys, done, rest, name);
      OneSidedMore(sha, a, b, done, name);
      done := done + {name};
      rest := rest - {name};
      var more := CompareExtension(sha, a, b, name);
      diffs := diffs + more;
    }
    PartEnd(a.Keys + b.Keys, done);
    NoneIffSame(sha, a, b);
  }

  predicate Parted<T(==)>(all: set<T>, done: set<T>, rest: set<T>) {
    done + rest == all && done !! rest
  }

  lemma PartStart<T>(all: set<T>)
    ensures Parted(all, {}, all)
  {}

  lemma PartOne<T>(all: set<T>, done: set<T>, rest: set<T>, x: T)
    requires Parted(all, done, rest) && x in rest
    ensures Parted(all, done + {x}, rest - {x}) && x !in done
  {}

  lemma PartEnd<T>(all: set<T>, done: set<T>)
    requires Parted(all, done, {})
    ensures done == all
  {}

  lemma NoneIffSame(sha: Sha, a: Extensions, b: Extensions)
    ensures |OneSided(sha, a, b, a.Keys + b.Keys)| == 0 <==>
            forall name :: HashesOf(sha, a, name) == HashesOf(sha, b, name)
  {
    var all := OneSided(sha, a, b, a.Keys + b.Keys);
    if |all| == 0 {
      assert all == {};
      forall name ensures HashesOf(sha, a, name) == HashesOf(sha, b, name) {
        if name in a.Keys + b.Keys {
          forall h ensures h !in Sided(sha, a, b, name) {
            assert (name, h) !in all;
          }
          assert Sided(sha, a, b, name) == {};
          SidedNone(HashesOf(sha, a, name), HashesOf(sha, b, name));
        }
      }
    }
  }

  lemma SidedNone(x: set<Hash32>, y: set<Hash32>)
    ensures (forall h :: h !in (x - y) + (y - x)) ==> x == y
  {
    if forall h :: h !in (x - y) + (y - x) {
      forall h ensures h in x <==> h in y {
        assert h !in (x - y) + (y - x);
      }
    }
  }

  lemma NoneSided(sha: Sha, a: Extensions, b: Extensions)
    ensures OneSided(sha, a, b, {}) == {}
  {}

  lemma EmptyDifferences(a: set<Hash32>, b: set<Hash32>)
    ensures |a - b| + |b - a| == 0 <==> a == b
  {
    if |a - b| + |b - a| == 0 {
      assert a - b == {} && b - a == {};
      forall h ensures h in a <==> h in b {
        assert h !in a - b && h !in b - a;
      }
    }
  }
}
