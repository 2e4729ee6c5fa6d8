/** The round trip of a whole snapshot: stores and extensions of a target survive diffing against a base,
    writing, reading and patching. */
module SnapshotRoundTrip {
  import opened Bytes
  import opened IavlEncoding
  import opened DiffStream
  import opened SnapshotDiff
  import opened SnapshotVerify
  import opened ExtensionDiff

  lemma StartsWithSection(secs: seq<ExtSec>)
    ensures ExtDiffs(secs) == [] || ExtDiffs(secs)[0].ExtEnter?
  {}

  /** The rebuilt snapshot is equivalent to the target: no store difference is counted, and every extension
      has the target's payload hashes. */
  lemma RebuiltSnapshotIsEquivalent(bs: seq<Store>, ts: seq<Store>, sha: Sha, base: Extensions, target: Extensions,
                                    secs: seq<ExtSec>, name: bytes)
    requires WfStores(bs) && WfStores(ts) && SecsSay(sha, base, target, secs)
    ensures var r := Applied(bs, StoreDiffs(bs, ts) + ExtDiffs(secs));
            && r.Some? && StoresDelta(r.value.0, ts) == SAME
            && var changes := ReadExt(r.value.1);
               Hashes(sha, Rebuilt(sha, Payloads(base, name), ChangesFor(changes, name))) == HashesOf(sha, target, name)
  {
    StartsWithSection(secs);
    hide WfStores, StoreDiffs, Applied, StoresDelta, ExtDiffs, ReadExt, SecsSay, Rebuilt, Hashes;
    RebuiltIsEquivalent(bs, ts, ExtDiffs(secs));
    ExtensionsRoundTrip(sha, base, target, secs, name);
  }

  predicate ShortSec(s: ExtSec) {
    && Short(s.name) && (forall p :: p in s.removes ==> Short(p)) && (forall p :: p in s.adds ==> Short(p))
  }

  lemma {:induction false} PayloadsFit(removes: seq<bytes>, adds: seq<bytes>)
    requires (forall p :: p in removes ==> Short(p)) && (forall p :: p in adds ==> Short(p))
    ensures AllFit(PayloadRecords(removes, adds))
    decreases |removes| + |adds|
  {
    hide Short;
    if removes != [] {
      PayloadsFit(removes[1..], adds);
    } else if adds != [] {
      PayloadsFit(removes, adds[1..]);
    }
  }

  lemma {:induction false} SectionsFit(secs: seq<ExtSec>)
    requires forall s :: s in secs ==> ShortSec(s)
    ensures AllFit(ExtDiffs(secs))
  {
    if secs != [] {
      assert ShortSec(secs[0]);
      PayloadsFit(secs[0].removes, secs[0].adds);
      SectionsFit(secs[1..]);
      hide ShortSec, PayloadRecords, Short;
    }
  }

  /** Everything in the whole diff body fits the length prefixes, so that it can be written. */
  lemma DiffBodyFits(bs: seq<Store>, ts: seq<Store>, secs: seq<ExtSec>)
    requires WfStores(bs) && WfStores(ts) && forall s :: s in secs ==> ShortSec(s)
    ensures AllFit(StoreDiffs(bs, ts) + ExtDiffs(secs))
  {
    DiffsFit(bs, ts);
    SectionsFit(secs);
    hide WfStores, StoreDiffs, ExtDiffs, ShortSec, Fits;
  }

  predicate ShortExtensions(xs: Extensions) {
    forall name :: name in xs ==> Short(name) && forall p :: p in xs[name].payloads ==> Short(p)
  }

  lemma SectionsShort(sha: Sha, base: Extensions, target: Extensions, secs: seq<ExtSec>)
    requires SecsSay(sha, base, target, secs) && ShortExtensions(base) && ShortExtensions(target)
    ensures forall s :: s in secs ==> ShortSec(s)
  {
    hide ShortSec, ShortExtensions, SecSays, Proper, Less;
    forall s | s in secs ensures ShortSec(s) {
      var i :| 0 <= i < |secs| && secs[i] == s;
      SectionShort(sha, base, target, secs[i]);
    }
  }

  lemma SectionShort(sha: Sha, base: Extensions, target: Extensions, s: ExtSec)
    requires SecSays(sha, base, target, s) && Proper(base, target, s) && ShortExtensions(base)
      && ShortExtensions(target)
    ensures ShortSec(s)
  {
    hide Short, Hashes;
  }

  /** What the extension phase emits has the target's payload hashes under every name. */
  lemma EmittedHashes(sha: Sha, base: Extensions, target: Extensions, secs: seq<ExtSec>, out: Extensions, name: bytes)
    requires SecsSay(sha, base, target, secs)
    requires var changes := ReadExt(ExtDiffs(secs));
             && (forall x :: x in base || x in changes ==> AllPatched(sha, base, changes, out, x))
             && (forall x :: x in out ==> x in base || x in changes)
    ensures HashesOf(sha, out, name) == HashesOf(sha, target, name)
  {
    hide SecsSay, ReadExt, ExtDiffs, Rebuilt, Hashes, ReadBy;
    var changes := ReadExt(ExtDiffs(secs));
    if name in base || name in changes {
      ExtensionsRoundTrip(sha, base, target, secs, name);
      assert AllPatched(sha, base, changes, out, name);
    } else {
      assert ReadBy(secs, changes) by {
        DistinctSections(sha, base, target, secs);
        ReadsSections(secs);
      }
      SectionFor(sha, base, target, secs, changes, name);
    }
  }

  lemma DistinctSections(sha: Sha, base: Extensions, target: Extensions, secs: seq<ExtSec>)
    requires SecsSay(sha, base, target, secs)
    ensures forall i, j :: 0 <= i < j < |secs| ==> secs[i].name != secs[j].name
  {
    hide SecSays, Proper;
  }

  /** The diff of two snapshots, as the bytes of its body. */
  method Diff(sha: Sha, bs: seq<Store>, ts: seq<Store>, base: Extensions, target: Extensions)
    returns (body: bytes, ghost secs: seq<ExtSec>)
    requires WfStores(bs) && WfStores(ts) && ShortExtensions(base) && ShortExtensions(target)
    ensures SecsSay(sha, base, target, secs)
    ensures AllFit(StoreDiffs(bs, ts) + ExtDiffs(secs)) && body == Written(StoreDiffs(bs, ts) + ExtDiffs(secs))
  {
    hide WfStores, StoreDiffs, ExtDiffs, SecsSay, ShortExtensions, AllFit, Written, ShortSec;
    var baseReader := new SnapshotReader(bs);
    var targetReader := new SnapshotReader(ts);
    var stores := ComputeStream(baseReader, targetReader);
    var exts := DiffExtensions(sha, base, target);
    secs :| exts == ExtDiffs(secs) && SecsSay(sha, base, target, secs);
    SectionsShort(sha, base, target, secs);
    DiffBodyFits(bs, ts, secs);
    body := Written(stores + exts);
  }

  /** The snapshot that a base and the body of a diff give; None when the applier rejects the diff. */
  method Patch(sha: Sha, bs: seq<Store>, base: Extensions, body: bytes, ghost rs: seq<DiffRecord>)
    returns (out: Option<(seq<Store>, Extensions)>)
    requires AllFit(rs) && body == Written(rs)
    ensures out.None? <==> Applied(bs, rs).None?
    ensures out.Some? ==>
      var changes := ReadExt(Applied(bs, rs).value.1);
      && out.value.0 == Applied(bs, rs).value.0
      && (forall x :: x in base || x in changes ==> AllPatched(sha, base, changes, out.value.1, x))
      && (forall x :: x in out.value.1 ==> x in base || x in changes)
  {
    hide Applied, AllFit, Written, ReadExt, AllPatched;
    var baseReader := new SnapshotReader(bs);
    var dr := new DiffReader(body, rs);
    var stores := Apply(baseReader, dr);
    if stores.None? {
      return None;
    }
    var changes := ReadExtensions(dr);
    var exts := ApplyExtensions(sha, base, changes);
    out := Some((stores.value, exts));
  }

  /** The main theorem, as a run of the whole program: a target is diffed against a base, the diff is written to bytes,
      read back and applied to the base, and the result is compared with the target. The applier accepts the diff, and
      the comparison counts no difference in stores or extensions. */
  method RoundTrip(sha: Sha, bs: seq<Store>, ts: seq<Store>, base: Extensions, target: Extensions)
    returns (accepted: bool, d: Delta, e: nat)
    requires WfStores(bs) && WfStores(ts) && ShortExtensions(base) && ShortExtensions(target)
    ensures accepted && d == SAME && e == 0
  {
    hide WfStores, StoreDiffs, ExtDiffs, SecsSay, ShortExtensions, AllFit, Written, Applied, ReadExt, AllPatched,
      StoresDelta, HashesOf;
    var body;
    ghost var secs;
    body, secs := Diff(sha, bs, ts, base, target);
    StartsWithSection(secs);
    RebuiltIsEquivalent(bs, ts, ExtDiffs(secs));
    var out := Patch(sha, bs, base, body, StoreDiffs(bs, ts) + ExtDiffs(secs));
    accepted := out.Some?;
    var rebuilt := new SnapshotReader(out.value.0);
    var wanted := new SnapshotReader(ts);
    d := VerifyStores(rebuilt, wanted);
    e := CompareExtensions(sha, out.value.1, target);
    forall name ensures HashesOf(sha, out.value.1, name) == HashesOf(sha, target, name) {
      EmittedHashes(sha, base, target, secs, out.value.1, name);
    }
  }
}
