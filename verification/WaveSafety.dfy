/** Every run of the wave-parallel importer, under every interleaving, keeps the invariant. */
module WaveSafety {
  import opened Bytes
  import opened IavlEncoding
  import opened IavlTree
  import opened WaveState
  import opened WaveInvariant
  import opened WaveWorkers
  import opened WaveMain
  import opened WaveOwners
  import opened WaveSteps
  import opened WaveResults

  // ---------- workers ----------

  /** What a worker's step does not touch. */
  predicate Framed(s: State, t: State) {
    && t.main == s.main && t.parStack == s.parStack && |t.frames| == |s.frames|
    && t.closed == s.closed && t.dispatcher == s.dispatcher
  }

  lemma WorkerOnFramed(c: Config, s: State, w: nat, f: nat, at: WorkerStep)
    requires w < |s.workers|
    ensures var t := WorkerOn(c, s, w, f, at);
            Framed(s, t) && (t.workers == s.workers || t.workers == s.workers[w := Idle])
  {
    hide HashOf, BytesOf, KeyAt, F;
    match at {
      case Hash => {}
      case AddEvent => {}
      case TakeParent => {}
      case DecPending(p) => {}
      case CasSubmitted(p) => {}
      case AddGroup(p) => {}
      case Enqueue(p) => {}
      case _ => {}
    }
  }

  lemma WorkerFrame(c: Config, s: State, w: nat)
    requires w < |s.workers|
    ensures var t := WorkerDo(c, s, w);
            && Framed(s, t)
            && |t.workers| == |s.workers|
            && forall v: nat :: v < |s.workers| ==>
               t.workers[v] == s.workers[v]
               || (v == w && (t.workers[w] == Idle || t.workers[w].Working? || (s.workers[w] == Idle && s.ready == [])))
  {
    hide WorkerOn, F;
    if s.workers[w].Working? {
      var f := s.workers[w].f;
      WorkerOnFramed(c, s, w, f, if F(s, f).life.Busy? then F(s, f).life.at else DoneGroup);
    }
  }

  lemma WorkerStage(c: Config, plan: Plan, s: State, w: nat)
    requires Phases(c, plan, s) && Owners(s) && WorkerEnabled(c, s, w)
    requires s.workers[w].Working? ==> s.workers[w].f < |s.frames|
    ensures Stage(s.main) < 2 || (s.workers[w] == Idle && s.ready == [] && Stage(s.main) < 5)
  {
    if s.workers[w].Working? {
      assert At(s, s.workers[w].f) == AtWorker(w);
    } else if s.ready != [] {
      assert At(s, s.ready[0]) == InChannel;
    }
    hide Owners, Line;
  }

  lemma WorkerPhases(c: Config, plan: Plan, s: State, w: nat)
    requires Phases(c, plan, s) && Owners(s) && WorkerEnabled(c, s, w)
    requires s.workers[w].Working? ==> s.workers[w].f < |s.frames|
    ensures Phases(c, plan, WorkerDo(c, s, w))
  {
    WorkerStage(c, plan, s, w);
    var t := WorkerDo(c, s, w);
    if Stage(s.main) >= 2 {
      assert t.frames == s.frames && t.writeQ == s.writeQ;
    }
    hide Owners, WorkerDo;
    WorkerFrame(c, s, w);
  }

  lemma StackedSame(c: Config, plan: Plan, s: State, t: State)
    requires Stacked(c, plan, s) && t.main == s.main && t.parStack == s.parStack && |t.frames| == |s.frames|
    ensures Stacked(c, plan, t)
  {}

  /** Nothing is computed or written by a step that only passes frame f on. */
  lemma PassOnResults(c: Config, plan: Plan, s: State, t: State, f: nat)
    requires HashesPlanned(plan, s) && RootWritten(plan, s) && (!s.main.Returned? ==> Stored(c, plan, s))
    requires f < |s.frames| ==> t.frames == s.frames[f := F(s, f).(life := F(t, f).life)] && Age(F(t, f).life) <= 6
    requires f >= |s.frames| ==> t.frames == s.frames
    requires t.main == s.main && t.db == s.db && t.writeQ == s.writeQ && t.rootEncoded == s.rootEncoded
    ensures HashesPlanned(plan, t) && RootWritten(plan, t) && (!t.main.Returned? ==> Stored(c, plan, t))
  {
    hide HashesPlanned, RootWritten, Stored;
    HashesSame(plan, s, t);
    RootSame(plan, s, t);
    if !t.main.Returned? {
      StoredSame(c, plan, s, t);
    }
  }

  lemma IdleResults(c: Config, plan: Plan, s: State, w: nat)
    requires Owners(s) && HashesPlanned(plan, s) && RootWritten(plan, s) && (!s.main.Returned? ==> Stored(c, plan, s))
    requires WorkerEnabled(c, s, w) && s.workers[w] == Idle
    ensures var t := WorkerDo(c, s, w);
            HashesPlanned(plan, t) && RootWritten(plan, t) && (!t.main.Returned? ==> Stored(c, plan, t))
  {
    var t := WorkerDo(c, s, w);
    if s.ready != [] {
      assert At(s, s.ready[0]) == InChannel;
    }
    hide Owners, HashesPlanned, RootWritten, Stored;
    PassOnResults(c, plan, s, t, if s.ready != [] then s.ready[0] else |s.frames|);
  }

  lemma BusyResults(c: Config, plan: Plan, s: State, w: nat)
    requires WfPlan(c, plan) && Inv(c, plan, s) && WorkerEnabled(c, s, w) && s.workers[w].Working?
    ensures var t := WorkerDo(c, s, w);
            && Rendezvous(c, plan, t) && HashesPlanned(plan, t) && RootWritten(plan, t)
            && (!t.main.Returned? ==> Stored(c, plan, t))
  {
    hide EndsWell, Cells, Parents, FastApart, Stacked, Rendezvous, Owners, Tally, HashesPlanned, RootWritten, Stored,
      Phases, WorkerOn, WakeOk;
    WorkerHolds(c, plan, s, w);
    var f := s.workers[w].f;
    var at := F(s, f).life.at;
    WorkerKeeps(c, plan, s, w, f, at);
    WorkerHashes(c, plan, s, w, f, at);
    WorkerRoot(c, plan, s, w, f, at);
    if !s.main.Returned? {
      WorkerStored(c, plan, s, w, f, at);
    }
    WorkerFrame(c, s, w);
  }

  lemma WorkerSafe(c: Config, plan: Plan, s: State, w: nat)
    requires WfPlan(c, plan) && Inv(c, plan, s) && WorkerEnabled(c, s, w)
    ensures Inv(c, plan, WorkerDo(c, s, w))
  {
    hide EndsWell, Cells, Parents, FastApart, Stacked, Rendezvous, Owners, Tally, HashesPlanned, RootWritten, Stored,
      Phases, WorkerDo, WakeOk;
    if s.workers[w].Working? {
      WorkerHolds(c, plan, s, w);
      BusyResults(c, plan, s, w);
      WorkerTally(c, plan, s, w);
      WorkerOwners(c, plan, s, w);
    } else {
      IdleKeeps(c, plan, s, w);
      IdleResults(c, plan, s, w);
    }
    WorkerPhases(c, plan, s, w);
    WorkerFrame(c, s, w);
    StackedSame(c, plan, s, WorkerDo(c, s, w));
  }

  // ---------- dispatcher and writer ----------

  lemma DispatcherResults(c: Config, plan: Plan, s: State)
    requires Owners(s) && HashesPlanned(plan, s) && RootWritten(plan, s) && (!s.main.Returned? ==> Stored(c, plan, s))
    requires DispatcherEnabled(c, s)
    ensures var t := DispatcherDo(c, s);
            HashesPlanned(plan, t) && RootWritten(plan, t) && (!t.main.Returned? ==> Stored(c, plan, t))
  {
    var t := DispatcherDo(c, s);
    if s.dispatcher.Holding? {
      assert At(s, s.dispatcher.f) == InHand;
    } else if s.queue != [] {
      assert At(s, s.queue[0]) == InQueue;
    }
    hide Owners, HashesPlanned, RootWritten, Stored;
    PassOnResults(c, plan, s, t,
                  if s.dispatcher.Holding? then s.dispatcher.f else if s.queue != [] then s.queue[0] else |s.frames|);
  }

  lemma DispatcherPhases(c: Config, plan: Plan, s: State)
    requires Phases(c, plan, s) && Owners(s) && DispatcherEnabled(c, s)
    ensures Phases(c, plan, DispatcherDo(c, s))
    ensures var t := DispatcherDo(c, s); t.main == s.main && t.parStack == s.parStack && |t.frames| == |s.frames|
  {
    if s.dispatcher.Holding? {
      assert At(s, s.dispatcher.f) == InHand;
    } else if s.queue != [] {
      assert At(s, s.queue[0]) == InQueue;
    }
    hide Owners;
  }

  lemma DispatcherSafe(c: Config, plan: Plan, s: State)
    requires WfPlan(c, plan) && Inv(c, plan, s) && DispatcherEnabled(c, s)
    ensures Inv(c, plan, DispatcherDo(c, s))
  {
    hide EndsWell, Cells, Parents, FastApart, Stacked, Rendezvous, Owners, Tally, HashesPlanned, RootWritten, Stored,
      Phases, DispatcherDo;
    DispatcherKeeps(c, plan, s);
    DispatcherResults(c, plan, s);
    DispatcherPhases(c, plan, s);
    StackedSame(c, plan, s, DispatcherDo(c, s));
  }

  lemma WriterSafe(c: Config, plan: Plan, s: State)
    requires WfPlan(c, plan) && Inv(c, plan, s) && WriterEnabled(s)
    ensures Inv(c, plan, WriterDo(s))
  {
    WriterFrame(c, plan, s);
    hide EndsWell, Cells, Parents, FastApart, Stacked, Rendezvous, Owners, Tally, HashesPlanned, RootWritten, Stored,
      Phases, WriterDo;
    WriterKeeps(c, plan, s);
    StackedSame(c, plan, s, WriterDo(s));
    if !s.main.Returned? {
      StoredWriter(c, plan, s);
    }
  }

  lemma WriterFrame(c: Config, plan: Plan, s: State)
    requires HashesPlanned(plan, s) && RootWritten(plan, s) && Phases(c, plan, s)
    ensures var t := WriterDo(s);
            && HashesPlanned(plan, t) && RootWritten(plan, t) && Phases(c, plan, t)
            && t.main == s.main && t.parStack == s.parStack && |t.frames| == |s.frames|
  {}

  // ---------- main on a frame ----------

  /** Main computes and writes nothing while it links and submits a frame. */
  predicate Linking(s: State, t: State) {
    && |t.frames| == |s.frames|
    && (forall j: nat :: j < |s.frames| ==>
        && t.frames[j].hash == s.frames[j].hash && t.frames[j].encoded == s.frames[j].encoded
        && (t.frames[j].life == s.frames[j].life || Age(t.frames[j].life) <= 3))
    && t.db == s.db && t.writeQ == s.writeQ && t.rootEncoded == s.rootEncoded
    && t.closed == s.closed && t.dispatcher == s.dispatcher && t.workers == s.workers
  }

  lemma LinkingResults(c: Config, plan: Plan, s: State, t: State)
    requires Linking(s, t) && Stage(s.main) == 0 && Stage(t.main) == 0 && t.main != Failed
    requires HashesPlanned(plan, s) && RootWritten(plan, s) && Stored(c, plan, s) && Phases(c, plan, s)
    ensures HashesPlanned(plan, t) && RootWritten(plan, t) && Stored(c, plan, t) && Phases(c, plan, t)
  {
    assert Phases(c, plan, t) by {
      hide Stored, HashesPlanned, RootWritten, Age;
    }
    hide HashesPlanned, RootWritten, Stored, Phases;
    HashesSame(plan, s, t);
    RootSame(plan, s, t);
    StoredSame(c, plan, s, t);
  }

  lemma SetParentLinks(s: State, i: nat, p: nat, next: MainStep)
    ensures Linking(s, MainSetParent(s, i, p, next))
  {}

  lemma EventLinks(s: State, i: nat, p: nat, second: MainStep, first: MainStep)
    ensures Linking(s, MainEvent(s, i, p, second, first))
  {}

  lemma DecLinks(s: State, p: nat, next: MainStep)
    ensures Linking(s, MainDec(s, p, next))
  {}

  lemma SetLifeLinks(s: State, f: nat, l: Life)
    requires Age(l) <= 3
    ensures Linking(s, SetLife(s, f, l))
  {}

  lemma BuiltLinks(s: State, f: nat)
    ensures Linking(s, Put(s, f, F(s, f).(built := true)))
  {}

  lemma MainSubmits(c: Config, s: State, f: nat, m: MainStep)
    requires Submits(m) || m == StoreBuilt
    ensures Linking(s, MainOn(c, s, f, m))
  {
    SetLifeLinks(s, f, Claimed(ByMain));
    SetLifeLinks(s, f, Counted(ByMain));
    SetLifeLinks(s, f, Queued);
    BuiltLinks(s, f);
    hide SetLife, Put, F, Age, Item;
  }

  lemma MainOnLinks(c: Config, s: State, f: nat, m: MainStep)
    ensures var t := MainOn(c, s, f, m); Linking(s, t) && (t.main == Next || (t.main.On? && t.main.f == f))
  {
    hide F, Put, SetLife;
    match m {
      case SetLeft => SetParentLinks(s, F(s, f).left, f, SetRight);
      case SetRight => SetParentLinks(s, F(s, f).right, f, EventLeft);
      case EventLeft => EventLinks(s, F(s, f).left, f, DecLeft, EventRight);
      case EventRight => EventLinks(s, F(s, f).right, f, DecRight, StoreBuilt);
      case DecLeft => DecLinks(s, f, EventRight);
      case DecRight => DecLinks(s, f, StoreBuilt);
      case LoadPending => {}
      case PushStack => {}
      case _ => MainSubmits(c, s, f, m);
    }
  }

  /** An inner frame is on the stack once main is done with it, a leaf from the start. */
  lemma MainOnStacked(c: Config, plan: Plan, s: State, f: nat, m: MainStep)
    requires Stacked(c, plan, s) && s.main == On(f, m) && f + 1 == |s.frames|
    requires IsLeaf(c, f) ==> m in {MainCas, MainAdd, MainEnqueue}
    requires IsLeaf(c, f) && m == MainCas ==> F(s, f).life.Unsubmitted?
    ensures Stacked(c, plan, MainOn(c, s, f, m))
  {
    MainOnLinks(c, s, f, m);
    if m == PushStack {
      StackPush(plan, s.parStack, f);
    }
    hide StackOk;
  }

  lemma MainOnSafe(c: Config, plan: Plan, s: State, f: nat, m: MainStep)
    requires WfPlan(c, plan) && Inv(c, plan, s) && s.main == On(f, m)
    ensures Inv(c, plan, MainOn(c, s, f, m))
  {
    assert f + 1 == |s.frames| && Stage(s.main) == 0 by {
      hide StackOk, Phases;
    }
    hide EndsWell, Cells, Parents, FastApart, Stacked, Rendezvous, Owners, Tally, HashesPlanned, RootWritten, Stored,
      Phases, MainOn, LinkOk, InnerOk;
    InnerNow(c, plan, s, f);
    var t := MainOn(c, s, f, m);
    MainOnLinks(c, s, f, m);
    MainOnKeeps(c, plan, s, f, m);
    MainOnStacked(c, plan, s, f, m);
    LinkingResults(c, plan, s, t);
    if Submits(m) {
      MainSubmitCounts(c, plan, s, f, m);
    } else {
      MainOnLives(c, s, f, m);
      LivesSameCounts(s, t);
    }
  }

  // ---------- main between frames ----------

  lemma GrowsResults(c: Config, plan: Plan, s: State, t: State)
    requires HashesPlanned(plan, s) && Phases(c, plan, s) && EndsWell(c, plan) && Grows(c, plan, s, t)
    requires t.closed == s.closed && t.dispatcher == s.dispatcher && t.workers == s.workers
    ensures HashesPlanned(plan, t) && RootWritten(plan, t) && Phases(c, plan, t)
  {
    hide StackOk, IsLeaf;
  }

  /** The rest of the state after main has created a frame. */
  lemma NextRest(c: Config, s: State)
    requires s.main == Next
    ensures var t := MainNext(c, s);
            && t.queue == s.queue && t.ready == s.ready && t.dispatcher == s.dispatcher && t.workers == s.workers
            && t.hashWg == s.hashWg && t.closed == s.closed && t.writeQ == s.writeQ && t.rootEncoded == s.rootEncoded
            && (t.main.On? ==> t.db == FastEntry(c.prefix, Item(c, |s.frames|).node, s.db))
  {
    hide FastKey, EncodeFast, ClosesPairPar, F, Wrap64;
  }

  lemma NextSafe(c: Config, plan: Plan, s: State)
    requires WfPlan(c, plan) && Inv(c, plan, s) && s.main == Next && |s.frames| < |plan|
    ensures Inv(c, plan, MainNext(c, s))
  {
    var t := MainNext(c, s);
    hide EndsWell, Cells, Parents, FastApart, Stacked, Rendezvous, Owners, Tally, HashesPlanned, RootWritten, Stored,
      Phases, MainNext, FastEntry;
    if IsLeaf(c, |s.frames|) {
      NextLeaf(c, plan, s);
    } else {
      NextInner(c, plan, s);
    }
    NextRest(c, s);
    GrowsKeeps(c, plan, s, t);
    GrowsCounts(c, plan, s, t);
    GrowsResults(c, plan, s, t);
    GrowsStored(c, plan, s, t);
  }

  /** A step of main that only moves its program counter, away from any frame. */
  lemma StageSafe(c: Config, plan: Plan, s: State, t: State)
    requires Inv(c, plan, s) && !s.main.On? && !t.main.On? && (s.main.Returned? ==> t.main.Returned?)
    requires t.frames == s.frames && t.parStack == s.parStack && t.queue == s.queue && t.ready == s.ready
    requires t.dispatcher == s.dispatcher && t.workers == s.workers && t.hashWg == s.hashWg
    requires t.rootEncoded == s.rootEncoded && t.writeQ == s.writeQ
    requires !t.main.Returned? ==> t.db == s.db
    requires Phases(c, plan, t)
    ensures Inv(c, plan, t)
  {
    assert Stacked(c, plan, t) by { hide Phases, Stored, Rendezvous, Owners, Tally, HashesPlanned; }
    assert HashesPlanned(plan, t) && RootWritten(plan, t) && Tally(t) by { hide Phases, Stored, Rendezvous, Owners; }
    hide Stacked, Rendezvous, Owners, Tally, HashesPlanned, RootWritten, Stored, Phases;
    RendezvousSame(c, plan, s, t);
    OwnersQuiet(s, t);
    if !t.main.Returned? {
      StoredSame(c, plan, s, t);
    }
  }

  /** A zero wait-group after the last item means that every frame has been hashed and written. */
  lemma {:induction false} DrainedFrame(c: Config, plan: Plan, s: State, j: nat)
    requires Parents(c, plan) && Rendezvous(c, plan, s) && Tally(s) && !s.main.On? && s.hashWg == 0
    requires j < |s.frames|
    ensures s.frames[j].life == Processed
    decreases j
  {
    TotalBound(s.frames, ActiveOne, j);
    assert FrameOk(c, plan, s, j);
    if !IsLeaf(c, j) {
      assert ParentOk(c, plan, j);
      DrainedFrame(c, plan, s, plan[j].left);
      DrainedFrame(c, plan, s, plan[j].right);
    }
    hide LinkOk, Parents;
  }

  lemma Drained(c: Config, plan: Plan, s: State)
    requires Parents(c, plan) && Rendezvous(c, plan, s) && Tally(s) && !s.main.On? && s.hashWg == 0
    ensures AllProcessed(s)
  {
    hide Parents, Rendezvous, Tally;
    forall j: nat | j < |s.frames| ensures s.frames[j].life == Processed {
      DrainedFrame(c, plan, s, j);
    }
  }

  lemma ShutdownPhases(c: Config, plan: Plan, s: State)
    requires Phases(c, plan, s) && MainEnabled(c, s) && !s.main.On? && s.main != Next
    requires s.main == WaitHash ==> AllProcessed(s)
    ensures var t := MainDo(c, s);
            && Phases(c, plan, t) && !t.main.On?
            && t.frames == s.frames && t.parStack == s.parStack && t.queue == s.queue && t.ready == s.ready
            && t.dispatcher == s.dispatcher && t.workers == s.workers && t.hashWg == s.hashWg
            && t.rootEncoded == s.rootEncoded && t.writeQ == s.writeQ
            && (s.main.Returned? ==> t.main.Returned?)
            && (!t.main.Returned? ==> t.db == s.db)
  {
    hide Closed, ClosedEmpty, F, Item;
  }

  lemma ShutdownSafe(c: Config, plan: Plan, s: State)
    requires WfPlan(c, plan) && Inv(c, plan, s) && MainEnabled(c, s) && !s.main.On? && s.main != Next
    ensures Inv(c, plan, MainDo(c, s))
  {
    if s.main == WaitHash {
      hide EndsWell, Cells, FastApart, Owners, Stored;
      Drained(c, plan, s);
    }
    hide EndsWell, Cells, Parents, FastApart, Stacked, Rendezvous, Owners, Tally, HashesPlanned, RootWritten, Stored,
      Phases, MainDo;
    ShutdownPhases(c, plan, s);
    StageSafe(c, plan, s, MainDo(c, s));
  }

  lemma EndsPhases(c: Config, plan: Plan, s: State, t: State)
    requires EndsWell(c, plan) && Phases(c, plan, s) && s.main == Next && |s.frames| == |plan|
    requires t == if |plan| == |c.items| then s.(main := WaitHash) else s.(main := Failed)
    ensures Phases(c, plan, t)
  {
    hide IsLeaf, Item;
  }

  lemma EndsSafe(c: Config, plan: Plan, s: State)
    requires WfPlan(c, plan) && Inv(c, plan, s) && s.main == Next && |s.frames| == |plan|
    ensures Inv(c, plan, MainNext(c, s))
  {
    hide EndsWell, Cells, Parents, FastApart, Stacked, Rendezvous, Owners, Tally, HashesPlanned, RootWritten, Stored,
      Phases, MainNext;
    NextEnds(c, plan, s);
    var t := MainNext(c, s);
    EndsPhases(c, plan, s, t);
    StageSafe(c, plan, s, t);
  }

  lemma MainSafe(c: Config, plan: Plan, s: State)
    requires WfPlan(c, plan) && Inv(c, plan, s) && MainEnabled(c, s)
    ensures Inv(c, plan, MainDo(c, s))
  {
    assert |s.frames| <= |plan| by { hide Stacked, Owners, Tally, Stored, Phases; }
    hide WfPlan, Stacked, Rendezvous, Owners, Tally, HashesPlanned, RootWritten, Stored, Phases, MainOn, MainNext;
    if s.main.On? {
      MainOnSafe(c, plan, s, s.main.f, s.main.m);
    } else if s.main == Next {
      if |s.frames| < |plan| {
        NextSafe(c, plan, s);
      } else {
        EndsSafe(c, plan, s);
      }
    } else {
      ShutdownSafe(c, plan, s);
    }
  }

  // ---------- runs ----------

  /** Every enabled step of every thread keeps the invariant. */
  lemma StepSafe(c: Config, plan: Plan, s: State, a: Action)
    requires WfPlan(c, plan) && Inv(c, plan, s) && Enabled(c, s, a)
    ensures Inv(c, plan, Do(c, s, a))
  {
    hide WfPlan, Inv, MainDo, DispatcherDo, WriterDo, WorkerDo, MainEnabled, DispatcherEnabled, WriterEnabled;
    match a {
      case MainActs => MainSafe(c, plan, s);
      case DispatcherActs => DispatcherSafe(c, plan, s);
      case WriterActs => WriterSafe(c, plan, s);
      case WorkerActs(w) => WorkerSafe(c, plan, s, w);
    }
  }

  lemma InitSafe(c: Config, plan: Plan)
    requires WfPlan(c, plan)
    ensures Inv(c, plan, Init(c))
  {}

  /** Whatever the schedule, the invariant holds in the state it leads to. */
  lemma {:induction false} RunSafe(c: Config, plan: Plan, schedule: Schedule)
    requires WfPlan(c, plan)
    ensures Run(c, schedule).Some? ==> Inv(c, plan, Run(c, schedule).value)
  {
    hide WfPlan, Inv, Init, Do;
    match schedule {
      case Begin => InitSafe(c, plan);
      case After(earlier, a) =>
        RunSafe(c, plan, earlier);
        if Run(c, schedule).Some? {
          StepSafe(c, plan, Run(c, earlier).value, a);
        }
    }
  }
}
