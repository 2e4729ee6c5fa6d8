/** The wave-parallel importer refines the sequential one: whatever the stream and the interleaving, a run that
    returns returns the same hash, a run that rejects does so for the same streams, and the database is the same but
    for keys that several nodes have. */
module WaveRefinement {
  import opened Bytes
  import opened IavlEncoding
  import opened IavlTree
  import opened WaveState
  import opened WaveInvariant
  import opened WavePlan
  import opened WaveProgress
  import WaveMain
  import WaveResults
  import WaveSafety
  import WaveSteps
  import ReadBack

  // ---------- the database when all frames are written ----------

  /** Off the node keys an import leaves the fast-storage entries alone. */
  lemma {:induction false} ImportedRest(sha: Sha, prefix: bytes, s: Stream, db: Entries, key: bytes)
    requires Parse(s).Some? && forall p: Stream :: p.Then? && IsPrefix(p, s) ==> KeyOf(prefix, p) != key
    ensures SameAt(Imported(sha, prefix, s, db), FastImported(prefix, s, db), key)
  {
    hide KeyOf, NodeBytes, FastKey, EncodeFast;
    if s.Then? {
      assert IsPrefix(s, s);
      forall p: Stream | p.Then? && IsPrefix(p, s.before) ensures KeyOf(prefix, p) != key {
        assert IsPrefix(p, s);
      }
      ImportedRest(sha, prefix, s.before, db, key);
    }
  }

  lemma {:induction false} PrefixIsUpto(p: Stream, s: Stream)
    requires IsPrefix(p, s)
    ensures Length(p) <= Length(s) && p == Upto(s, Length(p))
  {
    if p != s {
      PrefixIsUpto(p, s.before);
    }
  }

  /** Under the key of every item an import leaves the bytes of an item with that key. */
  lemma {:induction false} ImportedOneOf(sha: Sha, prefix: bytes, s: Stream, db: Entries, p: Stream)
    returns (q: Stream)
    requires Parse(s).Some? && p.Then? && IsPrefix(p, s)
    ensures q.Then? && IsPrefix(q, s) && Parse(q).Some? && KeyOf(prefix, q) == KeyOf(prefix, p)
    ensures var all := Imported(sha, prefix, s, db);
            KeyOf(prefix, p) in all && all[KeyOf(prefix, p)] == NodeBytes(sha, q)
  {
    assert KeyOf(prefix, p) != FastKey(prefix, s.item.key) by {
      KeySpacesDisjoint(prefix, p.item.version, Nonce(p), s.item.key, []);
    }
    hide KeyOf, NodeBytes, FastKey, EncodeFast;
    q := s;
    if p != s && KeyOf(prefix, p) != KeyOf(prefix, s) {
      q := ImportedOneOf(sha, prefix, s.before, db, p);
    }
  }

  lemma WrittenAt(c: Config, s: Stream, db: Entries, j: nat)
    requires Reads(c, s) && Parse(s).Some? && j < |PlanOf(c, s)|
    ensures var all := Imported(c.sha, c.prefix, s, db);
            KeyAt(c, j) in all && BytesOfKey(c, PlanOf(c, s), KeyAt(c, j), all[KeyAt(c, j)])
  {
    hide PlanOf, Number, NodeKey, Nonce, Parse, NodeBytes, Imported, RootHash, FastImported;
    PlanAt(c, s, j);
    PlanLength(c, s);
    UptoPrefix(s, j + 1, Length(s));
    var q := ImportedOneOf(c.sha, c.prefix, s, db, Upto(s, j + 1));
    PrefixIsUpto(q, s);
    ThenIsLong(q);
    PlanAt(c, s, Length(q) - 1);
    assert PlanOf(c, s)[Length(q) - 1].encoded == NodeBytes(c.sha, q);
  }

  lemma UnusedKey(c: Config, s: Stream, key: bytes, p: Stream)
    requires Reads(c, s) && Parse(s).Some? && !KeyUsed(c, Length(s), key) && p.Then? && IsPrefix(p, s)
    ensures KeyOf(c.prefix, p) != key
  {
    hide Number, NodeKey, Nonce, Parse;
    PrefixIsUpto(p, s);
    NumberAt(s, Length(p) - 1);
    assert KeyAt(c, Length(p) - 1) == KeyOf(c.prefix, p);
  }

  lemma RestAt(c: Config, s: Stream, key: bytes)
    requires Reads(c, s) && Parse(s).Some? && |PlanOf(c, s)| == Length(s) && !KeyUsed(c, Length(s), key)
    ensures SameAt(Imported(c.sha, c.prefix, s, c.before), FastBefore(c, PlanOf(c, s), Length(s)), key)
  {
    assert FastBefore(c, PlanOf(c, s), Length(s)) == FastImported(c.prefix, s, c.before) by {
      if s.Then? {
        hide PlanOf, Number, Parse, NodeBytes, RootHash, FastImported, Nonce;
        PlanAt(c, s, Length(s) - 1);
        assert Upto(s, Length(s)) == s;
      }
    }
    hide PlanOf, Number, FastBefore, Parse, KeyUsed, Reads, Imported, FastImported, SameAt;
    forall p: Stream | p.Then? && IsPrefix(p, s) ensures KeyOf(c.prefix, p) != key {
      UnusedKey(c, s, key, p);
    }
    ImportedRest(c.sha, c.prefix, s, c.before, key);
  }

  lemma SameEntries(a: Entries, b: Entries)
    requires forall key :: SameAt(a, b, key)
    ensures a == b
  {
    forall key ensures (key in a <==> key in b) && (key in a ==> a[key] == b[key]) {
      assert SameAt(a, b, key);
    }
  }

  /** The databases differ at most under a key that several items have, where each holds the bytes of one. */
  ghost predicate Alike(c: Config, plan: Plan, a: Entries, b: Entries) {
    forall key :: AlikeAt(c, plan, a, b, key)
  }

  ghost predicate AlikeAt(c: Config, plan: Plan, a: Entries, b: Entries, key: bytes) {
    SameAt(a, b, key) || (HoldsOne(c, plan, a, key) && HoldsOne(c, plan, b, key))
  }

  ghost predicate HoldsOne(c: Config, plan: Plan, a: Entries, key: bytes) {
    key in a && BytesOfKey(c, plan, key, a[key])
  }

  lemma AllWritten(c: Config, s: Stream, t: State)
    requires Reads(c, s) && Parse(s).Some? && |t.frames| == Length(s) == |PlanOf(c, s)|
    requires Stored(c, PlanOf(c, s), t) && AllProcessed(t) && t.writeQ == []
    ensures Alike(c, PlanOf(c, s), t.db, Imported(c.sha, c.prefix, s, c.before))
  {
    hide PlanOf, Number, FastBefore, Parse, Reads, Imported, KeyAt, SameAt, IsPrefix, BytesOfKey;
    var plan, all, n := PlanOf(c, s), Imported(c.sha, c.prefix, s, c.before), Length(s);
    forall key ensures AlikeAt(c, plan, t.db, all, key) {
      if KeyUsed(c, n, key) {
        var j: nat :| j < n && key == KeyAt(c, j);
        WrittenAt(c, s, c.before, j);
        assert Wrote(t.frames[j].life) && WrittenAs(c, plan, t, j);
      } else {
        RestAt(c, s, key);
        assert SameAt(t.db, FastBefore(c, plan, n), key);
        SameAtTrans(t.db, FastBefore(c, plan, n), all, key);
      }
    }
  }

  /** Writing the same entry to both keeps them alike. */
  lemma AlikeWrite(c: Config, plan: Plan, a: Entries, b: Entries, key: bytes, value: bytes)
    requires Alike(c, plan, a, b)
    ensures Alike(c, plan, a[key := value], b[key := value])
  {
    hide BytesOfKey;
    var a', b' := a[key := value], b[key := value];
    forall k ensures AlikeAt(c, plan, a', b', k) {
      assert AlikeAt(c, plan, a, b, k);
    }
  }

  lemma AlikeClosed(c: Config, plan: Plan, version: int64, root: bytes, a: Entries, b: Entries)
    requires Alike(c, plan, a, b)
    ensures Alike(c, plan, Closed(c.prefix, c.height, version, root, a),
                  Closed(c.prefix, c.height, version, root, b))
  {
    hide Alike, NodeKey, Redirect, MetaKey, Decimal;
    var (key, redirect) := (NodeKey(c.prefix, version, 1), NodeKey(c.prefix, c.height, 1));
    AlikeWrite(c, plan, a, b, key, root);
    var (a, b) := (a[key := root], b[key := root]);
    AlikeWrite(c, plan, a, b, redirect, Redirect(version));
    var mark := MarkWrite(c.prefix, c.height);
    AlikeWrite(c, plan, a, b, mark.0, mark.1);
    AlikeWrite(c, plan, a[redirect := Redirect(version)], b[redirect := Redirect(version)], mark.0, mark.1);
  }

  /** When no two items have the same key there is no difference. */
  lemma AlikeIsEqual(c: Config, plan: Plan, a: Entries, b: Entries)
    requires Alike(c, plan, a, b) && KeysApart(c, plan)
    ensures a == b
  {
    hide KeyAt;
    forall key ensures SameAt(a, b, key) {
      assert AlikeAt(c, plan, a, b, key);
    }
    SameEntries(a, b);
  }

  lemma SameAtTrans(a: Entries, b: Entries, d: Entries, key: bytes)
    requires SameAt(a, b, key) && SameAt(d, b, key)
    ensures SameAt(a, d, key)
  {}

  // ---------- what main returns ----------

  /** A run has left the database of the sequential importer. When nonces collide, the two may differ under the
      keys that several nodes then have, and only there. */
  ghost predicate LeftAs(c: Config, s: Stream, db: Entries, sequential: Entries) {
    && Alike(c, PlanOf(c, s), db, sequential)
    && (Distinct(s) ==> db == sequential)
  }

  /** The result of a run is that of the sequential importer: hash and database, or a rejection. */
  ghost predicate Agrees(c: Config, s: Stream, t: State) {
    var r := Finished(c.sha, c.prefix, c.height, s, c.before);
    match t.main
    case Returned(Some(hash)) => r.Some? && r.value.0 == hash && LeftAs(c, s, t.db, r.value.1)
    case Returned(None) => r == None
    case Failed => Parse(s) == None
    case _ => true
  }

  /** What main finds when it finalizes. */
  lemma Finale(c: Config, s: Stream, t: State)
    requires Reads(c, s) && Inv(c, PlanOf(c, s), t) && t.main == Finalizing
    ensures Parse(s).Some? && Alike(c, PlanOf(c, s), t.db, Imported(c.sha, c.prefix, s, c.before))
    ensures |t.frames| == Length(s) == |PlanOf(c, s)| && StackOk(PlanOf(c, s), t.parStack, Length(s))
    ensures s.Then? ==>
      var j, plan := Length(s) - 1, PlanOf(c, s);
      && F(t, j).hash == plan[j].hash
      && (plan[j].lo == 0 ==> t.rootEncoded == Some(plan[j].encoded))
  {
    PlanLength(c, s);
    var plan := PlanOf(c, s);
    hide PlanOf, Parse, Number, Length, StackOk, Rendezvous, Owners, Tally, Stored, Imported;
    if s.Then? {
      ThenIsLong(s);
    }
    AllWritten(c, s, t);
  }

  lemma ThenIsLong(s: Stream)
    ensures s.Then? <==> Length(s) > 0
  {}

  /** The last cell is the top tree; the stack has one element when nothing lies below it. */
  lemma LastCell(c: Config, s: Stream)
    requires Reads(c, s) && Parse(s).Some? && |PlanOf(c, s)| == Length(s) && s.Then?
    ensures Length(s) > 0
    ensures var p := PlanOf(c, s)[Length(s) - 1];
            && p.hash == RootHash(c.sha, TopTree(s)) && p.encoded == NodeBytes(c.sha, s)
            && (p.lo > 0 <==> Parse(s).value.rest.Snoc?)
            && Item(c, Length(s) - 1).node == s.item
  {
    ThenIsLong(s);
    hide PlanOf, Number, Parse, NodeBytes, RootHash, FastImported, Nonce;
    PlanAt(c, s, Length(s) - 1);
    TopHeights(s);
  }

  lemma FinishedCases(c: Config, s: Stream)
    requires Parse(s).Some?
    ensures var r := Finished(c.sha, c.prefix, c.height, s, c.before);
            if s.Start? then r == Some((c.sha([]), ClosedEmpty(c.prefix, c.height, c.before)))
            else if Parse(s).value.rest.Snoc? then r == None
            else r == Some((RootHash(c.sha, TopTree(s)),
                            Closed(c.prefix, c.height, s.item.version, NodeBytes(c.sha, s),
                              Imported(c.sha, c.prefix, s, c.before))))
  {
    hide Imported, RootHash, NodeBytes, Closed, ClosedEmpty;
    ParseEmpty(s);
  }

  lemma FinalizeAgrees(c: Config, s: Stream, t: State)
    requires Reads(c, s) && Inv(c, PlanOf(c, s), t) && t.main == Finalizing
    ensures Agrees(c, s, MainFinalize(c, t))
  {
    hide PlanOf, Parse, Number, StackOk, Inv, RootHash, NodeBytes, Closed, ClosedEmpty, Reads, LeftAs, Alike, Finished,
      TopTree, Item, Length;
    Finale(c, s, t);
    WaveMain.StackTop(c, PlanOf(c, s), t.parStack, Length(s));
    ThenIsLong(s);
    FinishedCases(c, s);
    var r := Finished(c.sha, c.prefix, c.height, s, c.before);
    if s.Then? {
      LastCell(c, s);
      AlikeClosed(c, PlanOf(c, s), s.item.version, NodeBytes(c.sha, s), t.db,
                  Imported(c.sha, c.prefix, s, c.before));
      if r.Some? {
        AlikeIsLeft(c, s, Closed(c.prefix, c.height, s.item.version, NodeBytes(c.sha, s), t.db), r.value.1);
      }
    } else {
      assert Imported(c.sha, c.prefix, s, c.before) == c.before;
      AlikeEmpty(c, PlanOf(c, s), t.db, c.before);
      AlikeIsLeft(c, s, ClosedEmpty(c.prefix, c.height, t.db), r.value.1);
    }
  }

  lemma AlikeEmpty(c: Config, plan: Plan, a: Entries, b: Entries)
    requires Alike(c, plan, a, b)
    ensures Alike(c, plan, ClosedEmpty(c.prefix, c.height, a), ClosedEmpty(c.prefix, c.height, b))
  {
    hide Alike, NodeKey, MetaKey, Decimal;
    var key, mark := NodeKey(c.prefix, c.height, 1), MarkWrite(c.prefix, c.height);
    AlikeWrite(c, plan, a, b, key, []);
    AlikeWrite(c, plan, a[key := []], b[key := []], mark.0, mark.1);
  }

  lemma AlikeIsLeft(c: Config, s: Stream, db: Entries, sequential: Entries)
    requires Reads(c, s) && Alike(c, PlanOf(c, s), db, sequential)
    ensures LeftAs(c, s, db, sequential)
  {
    hide Alike, PlanOf, Reads, Distinct, KeysApart;
    if Distinct(s) {
      DistinctApart(c, s);
      AlikeIsEqual(c, PlanOf(c, s), db, sequential);
    }
  }

  lemma ParseEmpty(s: Stream)
    requires Parse(s).Some?
    ensures s.Start? <==> Parse(s).value.Empty?
    ensures s.Start? ==> s == Start
  {}

  /** Once main has returned nothing writes any more. */
  lemma StepAgrees(c: Config, s: Stream, t: State, a: Action)
    requires Reads(c, s) && Inv(c, PlanOf(c, s), t) && Enabled(c, t, a)
    requires t.main.Returned? ==> Agrees(c, s, t)
    ensures Do(c, t, a).main.Returned? ==> Agrees(c, s, Do(c, t, a))
  {
    var u := Do(c, t, a);
    if t.main == Finalizing && a.MainActs? {
      FinalizeAgrees(c, s, t);
    } else if t.main.Returned? {
      ReturnedIsLast(c, PlanOf(c, s), t, a);
      assert false;
    } else {
      NotYet(c, t, a);
    }
  }

  lemma ReturnedIsLast(c: Config, plan: Plan, t: State, a: Action)
    requires Inv(c, plan, t) && t.main.Returned?
    ensures !Enabled(c, t, a)
  {
    hide Stacked, Rendezvous, Owners, Tally, HashesPlanned, RootWritten, Stored;
  }

  lemma NotYet(c: Config, t: State, a: Action)
    requires !t.main.Returned? && Enabled(c, t, a) && !(t.main == Finalizing && a.MainActs?)
    ensures !Do(c, t, a).main.Returned?
  {
    hide WorkerDo, MainNext, MainOn;
    if a.WorkerActs? {
      WaveSafety.WorkerFrame(c, t, a.w);
    } else if a.MainActs? {
      if t.main.On? {
        WaveSafety.MainOnLinks(c, t, t.main.f, t.main.m);
      } else if t.main == Next {
        NextPc(c, t);
      }
    }
  }

  lemma NextPc(c: Config, t: State)
    requires t.main == Next
    ensures !MainNext(c, t).main.Returned?
  {}

  lemma {:induction false} RunAgrees(c: Config, s: Stream, schedule: Schedule)
    requires Reads(c, s) && Run(c, schedule).Some?
    ensures Run(c, schedule).value.main.Returned? ==> Agrees(c, s, Run(c, schedule).value)
  {
    hide Inv, Init, Do, Enabled, PlanOf, Reads, Agrees;
    match schedule {
      case Begin =>
        StartsAtNext(c);
      case After(earlier, a) =>
        PlanOk(c, s);
        WaveSafety.RunSafe(c, PlanOf(c, s), earlier);
        RunAgrees(c, s, earlier);
        StepAgrees(c, s, Run(c, earlier).value, a);
    }
  }

  lemma StartsAtNext(c: Config)
    ensures Init(c).main == Next
  {}

  /** The main theorem. Every run over any stream, under any interleaving of main, dispatcher, workers and
      writer, that returns a hash returns that of the sequential importer and has left its database, up to the
      bytes under keys that several nodes have; a run that returns or fails without a hash does so only where
      the sequential importer rejects the stream. */
  lemma WaveRefinesSequential(c: Config, s: Stream, schedule: Schedule)
    requires Reads(c, s) && Run(c, schedule).Some?
    ensures Agrees(c, s, Run(c, schedule).value)
  {
    var t := Run(c, schedule).value;
    RunAgrees(c, s, schedule);
    PlanOk(c, s);
    WaveSafety.RunSafe(c, PlanOf(c, s), schedule);
    PlanLength(c, s);
    assert t.main == Failed ==> Parse(s) == None by {
      hide Parse, PlanOf, Stacked, Rendezvous, Owners, Tally, HashesPlanned, RootWritten, Stored, Run, Finished;
    }
    hide Parse, PlanOf, Inv, Run, Finished;
  }

  /** The hash that any run returns for a store with nodes is a hash of the stream's tree, node by node. */
  lemma ReturnsMerkleRoot(c: Config, s: Stream, schedule: Schedule)
    requires Reads(c, s) && Run(c, schedule).Some? && s.Then?
    requires var m := Run(c, schedule).value.main; m.Returned? && m.r.Some?
    ensures Parse(s).Some? && Parse(s).value.rest == Empty
    ensures ShortKeys(TopTree(s)) ==> MerkleRoot(c.sha, TopTree(s), Run(c, schedule).value.main.r.value)
  {
    WaveRefinesSequential(c, s, schedule);
    var r := Finished(c.sha, c.prefix, c.height, s, c.before);
    assert r.Some? && r.value.0 == Run(c, schedule).value.main.r.value;
    hide Run, MerkleRoot, ShortKeys, Imported, Closed, ClosedEmpty;
    ParsedIfFinished(c, s);
    FinishedCases(c, s);
    if ShortKeys(TopTree(s)) {
      RootHashIsMerkle(c.sha, TopTree(s));
    }
  }

  lemma ParsedIfFinished(c: Config, s: Stream)
    requires Finished(c.sha, c.prefix, c.height, s, c.before).Some?
    ensures Parse(s).Some?
  {}

  ghost predicate Halted(c: Config, t: State) {
    forall a: Action :: !Enabled(c, t, a)
  }

  lemma HaltedHasEnded(c: Config, plan: Plan, t: State)
    requires Runnable(c) && WfPlan(c, plan) && Inv(c, plan, t) && Halted(c, t)
    ensures t.main.Returned? || t.main == Failed
  {
    hide Inv, Runnable, WfPlan, Enabled;
    if !t.main.Returned? && t.main != Failed {
      var a := NeverStuck(c, plan, t);
      assert false;
    }
  }

  /** A run that can go no further has ended: it returned, or it rejected the stream. Since runs are finite
      (RunsAreFinite), every run that is continued while a step is enabled gets there. */
  lemma MaximalRunsEnd(c: Config, s: Stream, schedule: Schedule)
    requires Runnable(c) && Reads(c, s) && Run(c, schedule).Some? && Halted(c, Run(c, schedule).value)
    ensures var t := Run(c, schedule).value;
            var r := Finished(c.sha, c.prefix, c.height, s, c.before);
            if Parse(s).None? then t.main == Failed
            else if r.None? then t.main == Returned(None)
            else t.main == Returned(Some(r.value.0)) && LeftAs(c, s, t.db, r.value.1)
  {
    hide Parse, PlanOf, Inv, Run, Halted, Runnable, Reads, LeftAs, WfPlan, Finished;
    var t := Run(c, schedule).value;
    WaveRefinesSequential(c, s, schedule);
    PlanOk(c, s);
    WaveSafety.RunSafe(c, PlanOf(c, s), schedule);
    ParsedNeverFails(c, s, t);
    HaltedHasEnded(c, PlanOf(c, s), t);
  }

  lemma ParsedNeverFails(c: Config, s: Stream, t: State)
    requires Reads(c, s) && Inv(c, PlanOf(c, s), t)
    ensures t.main.Returned? ==> Parse(s).Some?
    ensures t.main == Failed ==> Parse(s).None?
  {
    PlanLength(c, s);
    hide Parse, PlanOf, Owners, Tally, HashesPlanned, RootWritten, Stored, Number, StackOk, FrameOk;
  }

  // ---------- what holds in every reachable state ----------

  /** A frame's life never goes back. */
  lemma NeverYounger(c: Config, plan: Plan, s: State, a: Action, j: nat)
    requires WfPlan(c, plan) && Inv(c, plan, s) && Enabled(c, s, a) && j < |s.frames|
    ensures var t := Do(c, s, a); j < |t.frames| && Age(s.frames[j].life) <= Age(t.frames[j].life)
  {
    hide EndsWell, Cells, Parents, FastApart, Stacked, Rendezvous, Tally, HashesPlanned, RootWritten, Stored, Phases,
      WorkerOn, MainOn, WakeOk, Line;
    match a {
      case MainActs =>
        if s.main.On? {
          assert s.main.f + 1 == |s.frames| by { StackedTop(c, plan, s); }
          MainOnAges(c, plan, s, s.main.f, s.main.m);
        }
      case WorkerActs(w) =>
        if s.workers[w].Working? {
          WaveSteps.WorkerHolds(c, plan, s, w);
          var f := s.workers[w].f;
          var at := F(s, f).life.at;
          if WaveSteps.Solo(at) {
            SoloAges(c, s, w, f, at);
          } else {
            PairSpends(c, s, w, f, at.p, at);
          }
        } else if s.ready != [] {
          assert At(s, s.ready[0]) == InChannel by { OwnersAt(s); }
        }
      case DispatcherActs =>
        OwnersAt(s);
      case WriterActs => {}
    }
  }

  lemma StackedTop(c: Config, plan: Plan, s: State)
    requires Stacked(c, plan, s) && s.main.On?
    ensures s.main.f + 1 == |s.frames|
  {
    hide StackOk;
  }

  lemma OwnersAt(s: State)
    requires Owners(s)
    ensures s.ready != [] ==> At(s, s.ready[0]) == InChannel
    ensures s.queue != [] ==> At(s, s.queue[0]) == InQueue
    ensures s.dispatcher.Holding? ==> At(s, s.dispatcher.f) == InHand
  {
    hide At;
  }

  lemma SoloAges(c: Config, s: State, w: nat, f: nat, at: WorkerStep)
    requires w < |s.workers| && f < |s.frames| && F(s, f).life == Busy(w, at) && WaveSteps.Solo(at)
    ensures var t := WorkerOn(c, s, w, f, at);
            t.frames == s.frames[f := F(t, f)] && Age(F(t, f).life) >= Age(F(s, f).life)
  {
    hide HashOf, BytesOf, KeyAt;
    match at {
      case Hash => {}
      case DoneGroup => {}
      case AddEvent => {}
      case TakeParent => {}
      case PushWrite => {}
      case _ => {}
    }
  }

  /** In every reachable state an inner frame that has been submitted has two hashed children. */
  lemma SubmittedAfterChildren(c: Config, s: Stream, schedule: Schedule, j: nat)
    requires Reads(c, s) && Run(c, schedule).Some?
    requires var t := Run(c, schedule).value;
             j < |t.frames| && !IsLeaf(c, j) && !t.frames[j].life.Unsubmitted?
    ensures var t := Run(c, schedule).value;
            var l, r := t.frames[j].left, t.frames[j].right;
            && l < r < j < |PlanOf(c, s)|
            && Fired(t.frames[l].life) && Fired(t.frames[r].life)
            && t.frames[l].hash == PlanOf(c, s)[l].hash && t.frames[r].hash == PlanOf(c, s)[r].hash
  {
    var t := Run(c, schedule).value;
    PlanOk(c, s);
    WaveSafety.RunSafe(c, PlanOf(c, s), schedule);
    hide PlanOf, Run, Stacked, Owners, Tally, RootWritten, Stored, Phases, Cells, EndsWell, FastApart, Reads,
      IsLeaf;
    WaveResults.ChildrenDropped(c, PlanOf(c, s), t, j);
    hide Rendezvous, Parents;
  }

  /** Main is between building frame j and claiming it, or a worker has seen its counter drop to zero. */
  ghost predicate AboutToSubmit(t: State, j: nat) {
    || t.main == On(j, LoadPending) || t.main == On(j, MainCas)
    || exists i: nat, w: nat :: i < |t.frames| && w < |t.workers| && t.workers[w] == Working(i)
         && (t.frames[i].life == Busy(w, LoadBuilt(j)) || t.frames[i].life == Busy(w, CasSubmitted(j)))
  }

  /** No wake-up is lost: in every reachable state an inner frame that is built and waits for no child, but is
      not submitted, is about to be looked at by main or by the worker of one of its children. */
  lemma NoLostWakeUp(c: Config, s: Stream, schedule: Schedule, j: nat)
    requires Reads(c, s) && Run(c, schedule).Some?
    requires var t := Run(c, schedule).value;
             j < |t.frames| && !IsLeaf(c, j)
             && t.frames[j].life.Unsubmitted? && t.frames[j].built && t.frames[j].pending == 0
    ensures AboutToSubmit(Run(c, schedule).value, j)
  {
    hide PlanOf, Run, Reads, IsLeaf, WfPlan, Inv, AboutToSubmit;
    PlanOk(c, s);
    WaveSafety.RunSafe(c, PlanOf(c, s), schedule);
    WakerExists(c, PlanOf(c, s), Run(c, schedule).value, j);
  }

  lemma WakerExists(c: Config, plan: Plan, t: State, j: nat)
    requires WfPlan(c, plan) && Inv(c, plan, t)
    requires j < |t.frames| && !IsLeaf(c, j)
    requires t.frames[j].life.Unsubmitted? && t.frames[j].built && t.frames[j].pending == 0
    ensures AboutToSubmit(t, j)
  {
    hide Stacked, Tally, HashesPlanned, RootWritten, Stored, Phases, Cells, EndsWell, FastApart, IsLeaf, Line;
    assert FrameOk(c, plan, t, j) && ParentOk(c, plan, j);
    var fr := t.frames[j];
    if Pos(t, j) > 8 {
      var i := if Waking(t.frames[fr.left].life) then fr.left else fr.right;
      WakerHolds(c, plan, t, i, j);
    }
    hide FrameOk, Rendezvous, Parents, Owners;
  }

  lemma WakerHolds(c: Config, plan: Plan, t: State, i: nat, j: nat)
    requires WfPlan(c, plan) && Inv(c, plan, t) && i < |t.frames| && Waking(t.frames[i].life) && plan[i].up == Some(j)
    ensures var w := t.frames[i].life.w;
            && w < |t.workers| && t.workers[w] == Working(i)
            && (t.frames[i].life == Busy(w, LoadBuilt(j)) || t.frames[i].life == Busy(w, CasSubmitted(j)))
  {
    hide Stacked, Tally, HashesPlanned, RootWritten, Stored, Phases, Cells, EndsWell, FastApart, IsLeaf, Line,
      InnerOk, LeafOk;
    assert FrameOk(c, plan, t, i);
    assert At(t, i) == AtWorker(t.frames[i].life.w);
  }
}
