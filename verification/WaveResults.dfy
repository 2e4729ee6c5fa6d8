/** Hashes, stored bytes, the root's bytes and the database are those of the plan in every reachable state. */
module WaveResults {
  import opened Bytes
  import opened IavlEncoding
  import opened IavlTree
  import opened WaveState
  import opened WaveInvariant
  import opened WaveWorkers
  import opened WaveMain
  import opened WaveSteps

  /** The frames that a submitted frame depends on. */
  lemma ChildrenDropped(c: Config, plan: Plan, s: State, j: nat)
    requires Parents(c, plan) && Rendezvous(c, plan, s) && j < |s.frames| && !IsLeaf(c, j)
    requires !s.frames[j].life.Unsubmitted?
    ensures plan[j].left < plan[j].right < j
    ensures Fired(s.frames[plan[j].left].life) && Fired(s.frames[plan[j].right].life)
    ensures s.frames[j].left == plan[j].left && s.frames[j].right == plan[j].right && s.frames[j].size == plan[j].size
  {
    assert FrameOk(c, plan, s, j) && ParentOk(c, plan, j);
    hide LinkOf, LinkOk, Pos;
  }

  lemma LeafCell(c: Config, plan: Plan, j: nat)
    requires Cells(c, plan) && j < |plan| && IsLeaf(c, j)
    ensures WfLeaf(c, plan, j)
  {
    assert WfCell(c, plan, j);
    hide WfLeaf, FastEntry;
  }

  lemma InnerResult(c: Config, plan: Plan, j: nat)
    requires Cells(c, plan) && j < |plan| && !IsLeaf(c, j)
    ensures WfInner(c, plan, j)
  {
    assert WfCell(c, plan, j);
    hide WfInner, FastEntry;
  }

  /** When a frame has been submitted, every worker in its subtree is past its event. */
  lemma {:induction false} SubtreeFired(c: Config, plan: Plan, s: State, j: nat, i: nat)
    requires Cells(c, plan) && Parents(c, plan) && Rendezvous(c, plan, s) && j < |s.frames|
    requires !s.frames[j].life.Unsubmitted? && plan[j].lo <= i < j
    ensures Fired(s.frames[i].life)
    decreases j
  {
    assert |s.frames| <= |plan|;
    if IsLeaf(c, j) {
      hide Rendezvous, Parents, LeafHash, EncodeLeaf;
      LeafCell(c, plan, j);
      assert false;
    } else {
      hide Rendezvous, Parents, Cells, IsLeaf;
      InnerCell(c, plan, j);
      ChildrenDropped(c, plan, s, j);
      if i > plan[j].left && i != plan[j].right {
        SubtreeFired(c, plan, s, plan[j].right, i);
      } else if i < plan[j].left {
        SubtreeFired(c, plan, s, plan[j].left, i);
      }
    }
  }

  // ---------- hashes ----------

  /** A worker computes the hash and the bytes of the plan: both children are hashed by then. */
  lemma HashIsPlanned(c: Config, plan: Plan, s: State, f: nat)
    requires Cells(c, plan) && Parents(c, plan) && Rendezvous(c, plan, s) && HashesPlanned(plan, s)
    requires f < |s.frames| && !s.frames[f].life.Unsubmitted?
    ensures HashOf(c, s, f) == plan[f].hash && BytesOf(c, s, f) == plan[f].encoded
  {
    if IsLeaf(c, f) {
      LeafCell(c, plan, f);
      hide Cells, Parents, Rendezvous, HashesPlanned, LeafHash, EncodeLeaf;
    } else {
      ChildrenDropped(c, plan, s, f);
      InnerResult(c, plan, f);
      hide Cells, Parents, Rendezvous, InnerHash, EncodeInner, Wrap64;
    }
  }

  predicate SameResults(s: State, t: State) {
    && |s.frames| == |t.frames|
    && (forall j: nat :: j < |s.frames| ==>
        && (IsHashed(t.frames[j].life) ==> IsHashed(s.frames[j].life))
        && t.frames[j].hash == s.frames[j].hash && t.frames[j].encoded == s.frames[j].encoded)
  }

  lemma HashesSame(plan: Plan, s: State, t: State)
    requires HashesPlanned(plan, s) && SameResults(s, t)
    ensures HashesPlanned(plan, t)
  {
    hide IsHashed;
  }

  lemma WorkerHashes(c: Config, plan: Plan, s: State, w: nat, f: nat, at: WorkerStep)
    requires Cells(c, plan) && Parents(c, plan) && Rendezvous(c, plan, s) && HashesPlanned(plan, s)
    requires w < |s.workers| && f < |s.frames| && F(s, f).life == Busy(w, at)
    requires 12 <= StepOrder(at) <= 16 ==> f < at.p < |s.frames| && WakeOk(F(s, at.p), at.p, f, F(s, f).life)
    ensures HashesPlanned(plan, WorkerOn(c, s, w, f, at))
  {
    if at.Hash? {
      HashIsPlanned(c, plan, s, f);
      hide Cells, Parents, Rendezvous, HashOf, BytesOf;
    } else {
      hide Cells, Parents, Rendezvous, HashOf, BytesOf, KeyAt, HashesPlanned;
      HashesSame(plan, s, WorkerOn(c, s, w, f, at));
    }
  }

  // ---------- the root's bytes ----------

  lemma RootSame(plan: Plan, s: State, t: State)
    requires RootWritten(plan, s) && |t.frames| == |s.frames| && t.rootEncoded == s.rootEncoded
    requires |s.frames| > 0 ==> PastRoot(t.frames[|s.frames| - 1].life) ==> PastRoot(s.frames[|s.frames| - 1].life)
    ensures RootWritten(plan, t)
  {}

  /** A worker never skips the root test on the last frame: it has no parent yet. */
  lemma LastHasNoParent(c: Config, plan: Plan, s: State, f: nat)
    requires Parents(c, plan) && Rendezvous(c, plan, s) && f + 1 == |s.frames| && Age(s.frames[f].life) <= 11
    ensures s.frames[f].parent == None
  {
    assert FrameOk(c, plan, s, f);
    NoParentYet(c, plan, s, f);
    hide InnerOk, LeafOk, Parents, LinkOf;
  }

  /** A frame that is not the last one writes rootEncoded only before the root of the stream does. */
  lemma WriteRootInOrder(c: Config, plan: Plan, s: State, w: nat, f: nat)
    requires Cells(c, plan) && Parents(c, plan) && Rendezvous(c, plan, s) && HashesPlanned(plan, s)
      && RootWritten(plan, s)
    requires w < |s.workers| && f < |s.frames| && F(s, f).life == Busy(w, WriteRoot)
    ensures RootWritten(plan, WorkerOn(c, s, w, f, WriteRoot))
  {
    var n := |s.frames|;
    if f < n - 1 && plan[n - 1].lo == 0 && PastRoot(s.frames[n - 1].life) {
      SubtreeFired(c, plan, s, n - 1, f);
    }
    hide Cells, Parents, Rendezvous, HashOf, BytesOf;
  }

  lemma WorkerRoot(c: Config, plan: Plan, s: State, w: nat, f: nat, at: WorkerStep)
    requires Cells(c, plan) && Parents(c, plan) && Rendezvous(c, plan, s) && HashesPlanned(plan, s)
      && RootWritten(plan, s)
    requires w < |s.workers| && f < |s.frames| && F(s, f).life == Busy(w, at)
    requires 12 <= StepOrder(at) <= 16 ==> f < at.p < |s.frames| && WakeOk(F(s, at.p), at.p, f, F(s, f).life)
    ensures RootWritten(plan, WorkerOn(c, s, w, f, at))
  {
    if at.WriteRoot? {
      WriteRootInOrder(c, plan, s, w, f);
    } else {
      if f + 1 == |s.frames| && Age(s.frames[f].life) <= 11 {
        LastHasNoParent(c, plan, s, f);
      }
      hide Cells, Parents, Rendezvous, HashOf, BytesOf, KeyAt, HashesPlanned, RootWritten;
      RootSame(plan, s, WorkerOn(c, s, w, f, at));
    }
  }

  // ---------- the database ----------

  lemma StoredSame(c: Config, plan: Plan, s: State, t: State)
    requires Stored(c, plan, s) && |t.frames| == |s.frames| && t.db == s.db && t.writeQ == s.writeQ
    requires forall j: nat :: j < |s.frames| && Wrote(t.frames[j].life) ==> Wrote(s.frames[j].life)
    ensures Stored(c, plan, t)
  {
    hide Wrote, KeyAt, KeyUsed, SameAt;
  }

  lemma WrittenGrows(c: Config, plan: Plan, s: State, t: State, j: nat)
    requires WrittenAs(c, plan, s, j) && t.db == s.db && s.writeQ <= t.writeQ
    ensures WrittenAs(c, plan, t, j)
  {
    hide KeyAt, BytesOfKey;
    if k: nat :| k < |s.writeQ| && s.writeQ[k].key == KeyAt(c, j) {
      assert t.writeQ[k].key == KeyAt(c, j);
    }
  }

  /** A worker queues the entry of its frame. */
  lemma StoredPush(c: Config, plan: Plan, s: State, t: State, f: nat)
    requires Stored(c, plan, s) && HashesPlanned(plan, s) && f < |s.frames| && IsHashed(s.frames[f].life)
    requires |t.frames| == |s.frames| && t.db == s.db
    requires t.writeQ == s.writeQ + [WriteEnt(KeyAt(c, f), s.frames[f].encoded, f)]
    requires forall j: nat :: j < |s.frames| && j != f && Wrote(t.frames[j].life) ==> Wrote(s.frames[j].life)
    ensures Stored(c, plan, t)
  {
    hide Wrote, KeyAt, KeyUsed, SameAt, IsHashed, BytesOfKey;
    forall j: nat | j < |t.frames| && Wrote(t.frames[j].life)
      ensures WrittenAs(c, plan, t, j)
    {
      if j == f {
        assert t.writeQ[|s.writeQ|].key == KeyAt(c, j);
      } else {
        WrittenGrows(c, plan, s, t, j);
      }
    }
  }

  lemma WrittenDrains(c: Config, plan: Plan, s: State, j: nat)
    requires WrittenAs(c, plan, s, j) && s.writeQ != []
    requires BytesOfKey(c, plan, s.writeQ[0].key, s.writeQ[0].encoded)
    ensures WrittenAs(c, plan, WriterDo(s), j)
  {
    hide KeyAt, BytesOfKey;
    var t := WriterDo(s);
    if k: nat :| k < |s.writeQ| && s.writeQ[k].key == KeyAt(c, j) {
      if k > 0 {
        assert t.writeQ[k - 1].key == KeyAt(c, j);
      }
    }
  }

  /** The writer moves the oldest entry to the database, over the entry of another frame if it has its key. */
  lemma StoredWriter(c: Config, plan: Plan, s: State)
    requires Stored(c, plan, s)
    ensures Stored(c, plan, WriterDo(s))
  {
    hide Wrote, KeyAt, FastKey;
    if s.writeQ != [] {
      var e, t := s.writeQ[0], WriterDo(s);
      forall j: nat | j < |t.frames| && Wrote(t.frames[j].life)
        ensures WrittenAs(c, plan, t, j)
      {
        WrittenDrains(c, plan, s, j);
      }
      var n := |s.frames|;
      forall key | !KeyUsed(c, n, key) ensures SameAt(t.db, FastBefore(c, plan, n), key) {
        assert key != KeyAt(c, e.from);
        assert SameAt(s.db, FastBefore(c, plan, n), key);
      }
    }
  }

  lemma WorkerStored(c: Config, plan: Plan, s: State, w: nat, f: nat, at: WorkerStep)
    requires Stored(c, plan, s) && HashesPlanned(plan, s)
    requires w < |s.workers| && f < |s.frames| && F(s, f).life == Busy(w, at)
    requires 12 <= StepOrder(at) <= 16 ==> f < at.p < |s.frames| && WakeOk(F(s, at.p), at.p, f, F(s, f).life)
    ensures Stored(c, plan, WorkerOn(c, s, w, f, at))
  {
    hide HashOf, BytesOf, KeyAt, Stored, HashesPlanned;
    if at.PushWrite? {
      StoredPush(c, plan, s, WorkerOn(c, s, w, f, at), f);
    } else {
      StoredSame(c, plan, s, WorkerOn(c, s, w, f, at));
    }
  }

  lemma GrowsRest(c: Config, plan: Plan, s: State, t: State)
    requires Cells(c, plan) && Grows(c, plan, s, t) && RestOk(c, plan, s)
    requires t.db == FastEntry(c.prefix, Item(c, |s.frames|).node, s.db)
    ensures RestOk(c, plan, t)
  {
    var k, n := |s.frames|, |t.frames|;
    assert plan[k].fast == FastEntry(c.prefix, Item(c, k).node, FastBefore(c, plan, k)) by {
      assert WfCell(c, plan, k);
      hide FastEntry, WfLeaf, WfInner, FastBefore;
    }
    hide Cells, KeyAt, FastKey, Item, EncodeFast;
    forall key | !KeyUsed(c, n, key) ensures SameAt(t.db, FastBefore(c, plan, n), key) {
      assert !KeyUsed(c, k, key);
      assert SameAt(s.db, FastBefore(c, plan, k), key);
    }
  }

  /** A new frame: a leaf's fast-storage entry goes to the database at once. */
  lemma GrowsStored(c: Config, plan: Plan, s: State, t: State)
    requires Cells(c, plan) && FastApart(c, plan) && Stored(c, plan, s) && Grows(c, plan, s, t)
    requires t.db == FastEntry(c.prefix, Item(c, |s.frames|).node, s.db) && t.writeQ == s.writeQ
    ensures Stored(c, plan, t)
  {
    hide Cells, KeyAt, FastKey, Item, EncodeFast, RestOk, Wrote;
    GrowsRest(c, plan, s, t);
    var k := |s.frames|;
    forall j: nat | j < |t.frames| && Wrote(t.frames[j].life) ensures WrittenAs(c, plan, t, j) {
      assert j < k by {
        assert t.frames[k].life == Unsubmitted;
        NewUnwritten();
      }
      assert KeyAt(c, j) != FastKey(c.prefix, Item(c, k).node.key);
    }
  }

  lemma NewUnwritten()
    ensures !Wrote(Unsubmitted)
  {}
}
