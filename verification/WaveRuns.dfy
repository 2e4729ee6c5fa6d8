/** What happens over whole runs of the wave-parallel importer: how often a frame goes through a step, which frames
    write rootEncoded, and which of them is the last to. */
module WaveRuns {
  import opened Bytes
  import opened IavlEncoding
  import opened IavlTree
  import opened WaveState
  import opened WaveInvariant
  import opened WavePlan
  import WaveMain
  import WaveProgress
  import WaveRefinement
  import WaveResults
  import WaveSafety
  import WaveSteps

  /** The frame that a worker's action is about. */
  function Actor(s: State, a: Action): Option<nat> {
    if a.WorkerActs? && a.w < |s.workers| && s.workers[a.w].Working? then Some(s.workers[a.w].f) else None
  }

  /** The action takes the worker of frame j through one step. */
  predicate Performs(s: State, a: Action, j: nat, at: WorkerStep) {
    Actor(s, a) == Some(j) && F(s, j).life == Busy(a.w, at)
  }

  /** The action sets the submitted flag of frame j. */
  predicate Submits(s: State, t: State, j: nat) {
    j < |s.frames| && F(s, j).life.Unsubmitted? && !F(t, j).life.Unsubmitted?
  }

  // ---------- how often ----------

  /** The number of times that a run takes a worker through a step with frame j. */
  function Times(c: Config, schedule: Schedule, j: nat, at: WorkerStep): nat {
    match schedule
    case Begin => 0
    case After(earlier, a) =>
      Times(c, earlier, j, at) +
      match Run(c, earlier)
      case None => 0
      case Some(s) => if Performs(s, a, j, at) then 1 else 0
  }

  /** The number of times that a run submits frame j. */
  function Submissions(c: Config, schedule: Schedule, j: nat): nat {
    match schedule
    case Begin => 0
    case After(earlier, a) =>
      Submissions(c, earlier, j) +
      if Run(c, earlier).Some? && Run(c, schedule).Some?
        && Submits(Run(c, earlier).value, Run(c, schedule).value, j) then 1 else 0
  }

  predicate Past(s: State, j: nat, age: nat) {
    j < |s.frames| && Age(s.frames[j].life) > age
  }

  /** A step takes its frame past itself. */
  lemma PerformAges(c: Config, plan: Plan, s: State, a: Action, j: nat, at: WorkerStep)
    requires WfPlan(c, plan) && Inv(c, plan, s) && Enabled(c, s, a) && Performs(s, a, j, at)
    ensures j < |s.frames| && Age(s.frames[j].life) == StepOrder(at) && Past(Do(c, s, a), j, StepOrder(at))
  {
    hide EndsWell, Cells, Parents, FastApart, Stacked, Rendezvous, Owners, Tally, HashesPlanned, RootWritten, Stored,
      Phases, WorkerOn, WakeOk;
    WaveSteps.WorkerHolds(c, plan, s, a.w);
    if WaveSteps.Solo(at) {
      SoloLater(c, s, a.w, j, at);
    } else {
      WaveProgress.PairSpends(c, s, a.w, j, at.p, at);
    }
  }

  lemma SoloLater(c: Config, s: State, w: nat, f: nat, at: WorkerStep)
    requires w < |s.workers| && f < |s.frames| && F(s, f).life == Busy(w, at) && WaveSteps.Solo(at)
    ensures var t := WorkerOn(c, s, w, f, at); |t.frames| == |s.frames| && Age(t.frames[f].life) > StepOrder(at)
  {
    hide HashOf, BytesOf, KeyAt;
    match at {
      case Hash => {}
      case DoneGroup => {}
      case AddEvent => {}
      case TakeParent => {}
      case PushWrite => {}
      case _ => {}
    }
  }

  lemma StepTo(c: Config, s: Stream, earlier: Schedule, a: Action) returns (u: State, t: State)
    requires Reads(c, s) && Run(c, After(earlier, a)).Some?
    ensures Run(c, earlier) == Some(u) && Run(c, After(earlier, a)) == Some(t) && Enabled(c, u, a) && t == Do(c, u, a)
    ensures WfPlan(c, PlanOf(c, s)) && Inv(c, PlanOf(c, s), u)
  {
    hide PlanOf, Inv, WfPlan, Reads, Do, Enabled;
    PlanOk(c, s);
    WaveSafety.RunSafe(c, PlanOf(c, s), earlier);
    u, t := Run(c, earlier).value, Run(c, After(earlier, a)).value;
  }

  lemma {:induction false} TimesPast(c: Config, s: Stream, schedule: Schedule, j: nat, at: WorkerStep)
    requires Reads(c, s) && Run(c, schedule).Some?
    ensures Times(c, schedule, j, at) <= if Past(Run(c, schedule).value, j, StepOrder(at)) then 1 else 0
  {
    hide PlanOf, Inv, WfPlan, Reads, Do, Enabled, Init, Performs;
    if schedule.After? {
      var u, t := StepTo(c, s, schedule.earlier, schedule.a);
      TimesPast(c, s, schedule.earlier, j, at);
      if j < |u.frames| {
        WaveRefinement.NeverYounger(c, PlanOf(c, s), u, schedule.a, j);
      }
      if Performs(u, schedule.a, j, at) {
        PerformAges(c, PlanOf(c, s), u, schedule.a, j, at);
      }
    }
  }

  lemma {:induction false} SubmissionsPast(c: Config, s: Stream, schedule: Schedule, j: nat)
    requires Reads(c, s) && Run(c, schedule).Some?
    ensures Submissions(c, schedule, j) <= if Past(Run(c, schedule).value, j, 0) then 1 else 0
  {
    hide PlanOf, Inv, WfPlan, Reads, Do, Enabled, Init;
    if schedule.After? {
      var u, t := StepTo(c, s, schedule.earlier, schedule.a);
      SubmissionsPast(c, s, schedule.earlier, j);
      if j < |u.frames| {
        WaveRefinement.NeverYounger(c, PlanOf(c, s), u, schedule.a, j);
      }
    }
  }

  /** Over any run a frame is submitted at most once, and its worker goes through each step at most once: it is hashed
      once, its entry is written once, its event is added once. */
  lemma AtMostOnce(c: Config, s: Stream, schedule: Schedule, j: nat, at: WorkerStep)
    requires Reads(c, s) && Run(c, schedule).Some?
    ensures Submissions(c, schedule, j) <= 1 && Times(c, schedule, j, at) <= 1
  {
    SubmissionsPast(c, s, schedule, j);
    TimesPast(c, s, schedule, j, at);
  }

  // ---------- who writes rootEncoded ----------

  /** In every reachable state, a worker at the parent test writes rootEncoded exactly when main has not yet linked its
      frame: there is no parent, or main has still to set the pointer. */
  lemma WritesRootIff(c: Config, s: Stream, schedule: Schedule, w: nat, f: nat)
    requires Reads(c, s) && Run(c, schedule).Some?
    requires Performs(Run(c, schedule).value, WorkerActs(w), f, ReadParent)
    ensures Performs(WorkerDo(c, Run(c, schedule).value, w), WorkerActs(w), f, WriteRoot) <==>
            LinkOf(PlanOf(c, s), Run(c, schedule).value, f).Unset?
  {
    hide PlanOf, Run, Reads, Stacked, Owners, Tally, HashesPlanned, RootWritten, Stored, Phases, Cells,
      EndsWell, FastApart, Parents;
    var t := Run(c, schedule).value;
    PlanOk(c, s);
    WaveSafety.RunSafe(c, PlanOf(c, s), schedule);
    assert FrameOk(c, PlanOf(c, s), t, f);
    hide InnerOk, LeafOk, Rendezvous;
  }

  /** Two leaves and the inner item over them. */
  function SmallStream(): Stream {
    Then(Then(Then(Start, ExportNode(0, 1, [1], [])), ExportNode(0, 1, [2], [])), ExportNode(1, 1, [2], []))
  }

  function SmallConfig(sha: Sha): Config {
    Config(sha, [], 1, [Numbered(ExportNode(0, 1, [1], []), 2), Numbered(ExportNode(0, 1, [2], []), 3),
      Numbered(ExportNode(1, 1, [2], []), 4)],
           map[], 1, 1, 1, 1)
  }

  function MainSteps(n: nat): Schedule {
    if n == 0 then Begin else After(MainSteps(n - 1), MainActs)
  }

  /** Main submits the first leaf, the dispatcher hands it over, and the worker hashes it and reads its parent. */
  function EarlyLeaf(): Schedule {
    var handed := After(After(MainSteps(4), DispatcherActs), DispatcherActs);
    After(After(After(handed, WorkerActs(0)), WorkerActs(0)), WorkerActs(0))
  }

  /** The first leaf of a three-item stream is not the root, and it writes rootEncoded in this run. */
  lemma NonRootWrites(sha: Sha)
    ensures var c, s := SmallConfig(sha), SmallStream();
            && Runnable(c) && Reads(c, s) && Distinct(s) && Parse(s).Some? && Parse(s).value.rest.Empty?
    ensures var c := SmallConfig(sha);
            && Run(c, EarlyLeaf()).Some? && Performs(Run(c, EarlyLeaf()).value, WorkerActs(0), 0, WriteRoot)
            && Run(c, After(EarlyLeaf(), WorkerActs(0))).Some?
            && Run(c, After(EarlyLeaf(), WorkerActs(0))).value.rootEncoded == Some(EncodeLeaf([1], []))
  {
    SmallReads(sha);
    SmallRun(sha);
  }

  lemma SmallReads(sha: Sha)
    ensures var c, s := SmallConfig(sha), SmallStream();
            && Runnable(c) && Reads(c, s) && Distinct(s) && Parse(s).Some? && Parse(s).value.rest.Empty?
  {
    var a := Then(Start, ExportNode(0, 1, [1], []));
    var b := Then(a, ExportNode(0, 1, [2], []));
    var s := SmallStream();
    assert CacheAfter(a) == Cache(map[], 1, 2) && CacheAfter(b) == Cache(map[], 1, 3);
    assert Nonce(a) == 2 && Nonce(b) == 3 && Nonce(s) == 4;
    assert Number(a) == [Numbered(ExportNode(0, 1, [1], []), 2)];
    assert Number(b) == Number(a) + [Numbered(ExportNode(0, 1, [2], []), 3)];
    assert Number(s) == Number(b) + [Numbered(ExportNode(1, 1, [2], []), 4)];
    assert Parse(a) == Some(Snoc(Empty, Leaf(1, [1], [])));
    assert Parse(b) == Some(Snoc(Snoc(Empty, Leaf(1, [1], [])), Leaf(1, [2], [])));
  }

  lemma OneStep(c: Config, schedule: Schedule, s: State, a: Action)
    requires Run(c, schedule) == Some(s) && Enabled(c, s, a)
    ensures Run(c, After(schedule, a)) == Some(Do(c, s, a))
  {}

  /** The state after main has taken the first leaf as far as its life says. */
  function FirstLeaf(c: Config, life: Life, main: MainPc, queue: seq<nat>, dispatcher: Dispatcher, ready: seq<nat>,
                     worker: Worker): State {
    State(main, [0], [ParFrame(0, 0, 1, 0, 0, false, None, ZERO_HASH, [], life)], queue, false, dispatcher, ready,
      [worker],
          if life.Claimed? || life.Unsubmitted? then 0 else 1, None, [], FastEntry(c.prefix, Item(c, 0).node, map[]))
  }

  lemma SmallMain(sha: Sha)
    ensures var c := SmallConfig(sha); Run(c, MainSteps(4)) == Some(FirstLeaf(c, Queued, Next, [0], Looking, [], Idle))
  {
    hide MainOn, MainNext, FirstLeaf, Init, SmallConfig;
    var c := SmallConfig(sha);
    SmallStarts(sha);
    SmallSubmits(sha);
    assert Run(c, MainSteps(0)) == Some(Init(c));
    OneStep(c, MainSteps(0), Init(c), MainActs);
    OneStep(c, MainSteps(1), FirstLeaf(c, Unsubmitted, On(0, MainCas), [], Looking, [], Idle), MainActs);
    OneStep(c, MainSteps(2), FirstLeaf(c, Claimed(ByMain), On(0, MainAdd), [], Looking, [], Idle), MainActs);
    OneStep(c, MainSteps(3), FirstLeaf(c, Counted(ByMain), On(0, MainEnqueue), [], Looking, [], Idle), MainActs);
  }

  lemma SmallStarts(sha: Sha)
    ensures var c := SmallConfig(sha);
            && MainEnabled(c, Init(c))
            && MainDo(c, Init(c)) == FirstLeaf(c, Unsubmitted, On(0, MainCas), [], Looking, [], Idle)
  {
    hide FastEntry;
    var c := SmallConfig(sha);
    assert Init(c).workers == [Idle];
  }

  lemma SmallSubmits(sha: Sha)
    ensures var c := SmallConfig(sha);
            var s1 := FirstLeaf(c, Unsubmitted, On(0, MainCas), [], Looking, [], Idle);
            var s2 := FirstLeaf(c, Claimed(ByMain), On(0, MainAdd), [], Looking, [], Idle);
            var s3 := FirstLeaf(c, Counted(ByMain), On(0, MainEnqueue), [], Looking, [], Idle);
            && MainEnabled(c, s1) && MainDo(c, s1) == s2 && MainEnabled(c, s2) && MainDo(c, s2) == s3
            && MainEnabled(c, s3) && MainDo(c, s3) == FirstLeaf(c, Queued, Next, [0], Looking, [], Idle)
  {
    hide FastEntry;
  }

  lemma SmallRun(sha: Sha)
    ensures var c := SmallConfig(sha);
            && Run(c, EarlyLeaf()).Some? && Performs(Run(c, EarlyLeaf()).value, WorkerActs(0), 0, WriteRoot)
            && Run(c, After(EarlyLeaf(), WorkerActs(0))).Some?
            && Run(c, After(EarlyLeaf(), WorkerActs(0))).value.rootEncoded == Some(EncodeLeaf([1], []))
  {
    hide FirstLeaf, DispatcherDo, WorkerDo, EncodeLeaf, SmallConfig, MainSteps;
    var c := SmallConfig(sha);
    SmallMain(sha);
    SmallHandsOver(sha);
    SmallWorks(sha);
    var m := MainSteps(4);
    var h := After(After(m, DispatcherActs), DispatcherActs);
    var s7 := FirstLeaf(c, Busy(0, Hash), Next, [], Looking, [], Working(0));
    var s8 := WorkerDo(c, s7, 0);
    OneStep(c, m, FirstLeaf(c, Queued, Next, [0], Looking, [], Idle), DispatcherActs);
    OneStep(c, After(m, DispatcherActs), FirstLeaf(c, Held, Next, [], Holding(0), [], Idle), DispatcherActs);
    OneStep(c, h, FirstLeaf(c, InReady, Next, [], Looking, [0], Idle), WorkerActs(0));
    OneStep(c, After(h, WorkerActs(0)), s7, WorkerActs(0));
    OneStep(c, After(After(h, WorkerActs(0)), WorkerActs(0)), s8, WorkerActs(0));
    OneStep(c, EarlyLeaf(), WorkerDo(c, s8, 0), WorkerActs(0));
  }

  lemma SmallHandsOver(sha: Sha)
    ensures var c := SmallConfig(sha);
            var s4 := FirstLeaf(c, Queued, Next, [0], Looking, [], Idle);
            var s5 := FirstLeaf(c, Held, Next, [], Holding(0), [], Idle);
            var s6 := FirstLeaf(c, InReady, Next, [], Looking, [0], Idle);
            && DispatcherEnabled(c, s4) && DispatcherDo(c, s4) == s5
            && DispatcherEnabled(c, s5) && DispatcherDo(c, s5) == s6
            && WorkerEnabled(c, s6, 0) && |s6.workers| == 1
            && WorkerDo(c, s6, 0) == FirstLeaf(c, Busy(0, Hash), Next, [], Looking, [], Working(0))
  {
    hide FastEntry;
  }

  lemma SmallWorks(sha: Sha)
    ensures var c := SmallConfig(sha);
            var s7 := FirstLeaf(c, Busy(0, Hash), Next, [], Looking, [], Working(0));
            && |s7.workers| == 1 && WorkerEnabled(c, s7, 0)
            && var s8 := WorkerDo(c, s7, 0);
            && |s8.workers| == 1 && WorkerEnabled(c, s8, 0)
            && var s9 := WorkerDo(c, s8, 0);
            && |s9.workers| == 1 && WorkerEnabled(c, s9, 0) && Performs(s9, WorkerActs(0), 0, WriteRoot)
            && WorkerDo(c, s9, 0).rootEncoded == Some(EncodeLeaf([1], []))
  {
    hide FastEntry, LeafHash, EncodeLeaf;
    var c := SmallConfig(sha);
    var s7 := FirstLeaf(c, Busy(0, Hash), Next, [], Looking, [], Working(0));
    var s8 := WorkerDo(c, s7, 0);
    assert s8.workers == s7.workers && |s8.frames| == 1 && s8.frames[0].parent == None;
    assert s8.frames[0].life == Busy(0, ReadParent) && s8.frames[0].encoded == EncodeLeaf([1], []);
    hide SmallConfig, FirstLeaf, HashOf, BytesOf;
    var s9 := WorkerDo(c, s8, 0);
    assert s9.workers == s8.workers && s9.frames == [s8.frames[0].(life := Busy(0, WriteRoot))];
  }

  // ---------- who writes it last ----------

  /** The frame whose worker was the last to write rootEncoded. */
  function LastRootWrite(c: Config, schedule: Schedule): Option<nat> {
    match schedule
    case Begin => None
    case After(earlier, a) =>
      match Run(c, earlier)
      case None => None
      case Some(s) =>
        var f := Actor(s, a);
        if f.Some? && Performs(s, a, f.value, WriteRoot) then f else LastRootWrite(c, earlier)
  }

  /** A frame gets past the root test by writing or by having a parent. */
  lemma PastTheTest(c: Config, plan: Plan, s: State, a: Action, j: nat)
    requires WfPlan(c, plan) && Inv(c, plan, s) && Enabled(c, s, a)
    requires Past(Do(c, s, a), j, 8) && !Past(s, j, 8)
    ensures j < |s.frames|
    ensures Performs(s, a, j, WriteRoot) || (Performs(s, a, j, ReadParent) && s.frames[j].parent.Some?)
  {
    hide EndsWell, Cells, Parents, FastApart, Stacked, Rendezvous, Owners, Tally, HashesPlanned, RootWritten, Stored,
      Phases, WorkerOn, WakeOk, MainOn, MainNext;
    if !a.WorkerActs? {
      OthersAreYoung(c, s, a, j);
      assert false;
    } else if s.workers[a.w].Working? {
      WaveSteps.WorkerHolds(c, plan, s, a.w);
      var f := s.workers[a.w].f;
      var at := F(s, f).life.at;
      if WaveSteps.Solo(at) {
        SoloPast(c, s, a.w, f, at, j);
      } else {
        WaveSteps.PairFrames(c, s, a.w, f, at.p);
      }
    }
  }

  /** Main, dispatcher and writer take no frame past the root test, and no frame disappears. */
  lemma OthersAreYoung(c: Config, s: State, a: Action, j: nat)
    requires Enabled(c, s, a) && !a.WorkerActs?
    ensures |Do(c, s, a).frames| >= |s.frames|
    ensures Past(Do(c, s, a), j, 8) ==> Past(s, j, 8)
  {
    hide MainOn, MainNext, MainFinalize;
    match a {
      case MainActs =>
        if s.main.On? {
          WaveSafety.MainOnLinks(c, s, s.main.f, s.main.m);
        } else if s.main == Next {
          NextIsYoung(c, s, j);
        } else if s.main == Finalizing {
          FinalizeFrames(c, s);
        }
      case DispatcherActs => {}
      case WriterActs => {}
    }
  }

  lemma NextIsYoung(c: Config, s: State, j: nat)
    ensures |MainNext(c, s).frames| >= |s.frames| && (Past(MainNext(c, s), j, 8) ==> Past(s, j, 8))
  {
    hide FastEntry, Wrap64, ClosesPairPar;
  }

  lemma FinalizeFrames(c: Config, s: State)
    ensures MainFinalize(c, s).frames == s.frames
  {
    hide Closed, ClosedEmpty;
  }

  lemma SoloPast(c: Config, s: State, w: nat, f: nat, at: WorkerStep, j: nat)
    requires w < |s.workers| && f < |s.frames| && F(s, f).life == Busy(w, at) && WaveSteps.Solo(at)
    requires Past(WorkerOn(c, s, w, f, at), j, 8) && !Past(s, j, 8)
    ensures j == f && (at.WriteRoot? || (at.ReadParent? && F(s, f).parent.Some?))
  {
    hide HashOf, BytesOf, KeyAt;
    match at {
      case Hash => {}
      case DoneGroup => {}
      case AddEvent => {}
      case TakeParent => {}
      case PushWrite => {}
      case _ => {}
    }
  }

  /** The last frame's subtree is everything so far, and its worker is past the root test. */
  predicate RootIsPast(plan: Plan, t: State) {
    var n := |t.frames|;
    0 < n <= |plan| && plan[n - 1].lo == 0 && Past(t, n - 1, 8)
  }

  lemma {:induction false} RootWriteIsLast(c: Config, s: Stream, schedule: Schedule)
    requires Reads(c, s) && Run(c, schedule).Some? && RootIsPast(PlanOf(c, s), Run(c, schedule).value)
    ensures LastRootWrite(c, schedule) == Some(|Run(c, schedule).value.frames| - 1)
  {
    hide PlanOf, Inv, WfPlan, Reads, Do, Enabled, RootIsPast;
    if schedule.Begin? {
      NothingYet(c, PlanOf(c, s));
    } else {
      var a := schedule.a;
      var u, t := StepTo(c, s, schedule.earlier, a);
      RootStep(c, PlanOf(c, s), u, a);
      if RootIsPast(PlanOf(c, s), u) {
        RootWriteIsLast(c, s, schedule.earlier);
      }
    }
  }

  lemma NothingYet(c: Config, plan: Plan)
    ensures !RootIsPast(plan, Init(c))
  {}

  /** The root's worker gets past the test by writing, and afterwards nobody else writes. */
  lemma RootStep(c: Config, plan: Plan, u: State, a: Action)
    requires WfPlan(c, plan) && Inv(c, plan, u) && Enabled(c, u, a) && RootIsPast(plan, Do(c, u, a))
    ensures var n := |Do(c, u, a).frames|;
            && n == |u.frames| && n > 0
            && if RootIsPast(plan, u) then forall f :: Actor(u, a) == Some(f) ==> !Performs(u, a, f, WriteRoot)
               else Performs(u, a, n - 1, WriteRoot)
  {
    hide Do, Enabled, EndsWell, FastApart, Stacked, Owners, Tally, HashesPlanned, RootWritten, Stored, Phases,
      Performs, Cells, Parents, Rendezvous, Past;
    var n := |Do(c, u, a).frames|;
    FramesGrow(c, u, a);
    if !Past(u, n - 1, 8) {
      PastTheTest(c, plan, u, a, n - 1);
      if Performs(u, a, n - 1, ReadParent) && u.frames[n - 1].parent.Some? {
        AtTheTest(u, a, n - 1);
        WaveResults.LastHasNoParent(c, plan, u, n - 1);
        assert false;
      }
    } else {
      PastIsIn(u, n - 1);
      forall f | Actor(u, a) == Some(f) ensures !Performs(u, a, f, WriteRoot) {
        if Performs(u, a, f, WriteRoot) {
          Writing(u, a, f);
          RootAfter(c, plan, u, f);
        }
      }
    }
  }

  lemma PastIsIn(u: State, j: nat)
    requires Past(u, j, 8)
    ensures j < |u.frames|
  {}

  /** A frame that is about to write rootEncoded is not below a root that is past the test. */
  lemma RootAfter(c: Config, plan: Plan, u: State, f: nat)
    requires WfPlan(c, plan) && Inv(c, plan, u) && RootIsPast(plan, u)
    requires f < |u.frames|
    ensures Age(u.frames[f].life) != 8
  {
    hide EndsWell, FastApart, Stacked, Owners, Tally, HashesPlanned, RootWritten, Stored, Phases, Cells, Parents,
      Rendezvous;
    if f < |u.frames| - 1 {
      WaveResults.SubtreeFired(c, plan, u, |u.frames| - 1, f);
    }
  }

  lemma FramesGrow(c: Config, u: State, a: Action)
    requires Enabled(c, u, a)
    ensures |Do(c, u, a).frames| >= |u.frames|
  {
    if a.WorkerActs? {
      WaveSafety.WorkerFrame(c, u, a.w);
    } else {
      OthersAreYoung(c, u, a, 0);
    }
    hide MainDo, DispatcherDo, WriterDo, WorkerDo, MainEnabled, DispatcherEnabled, WriterEnabled, WorkerEnabled;
  }

  lemma AtTheTest(u: State, a: Action, j: nat)
    requires Performs(u, a, j, ReadParent) && j < |u.frames|
    ensures Age(u.frames[j].life) == 7
  {}

  lemma Writing(u: State, a: Action, f: nat)
    requires Performs(u, a, f, WriteRoot)
    ensures f < |u.frames| && Age(u.frames[f].life) == 8
  {}

  /** When main finalizes a single root, that root's worker was the last to write rootEncoded, whatever other frames
      wrote before, and the bytes are the root's. */
  lemma LastWriteIsRoot(c: Config, s: Stream, schedule: Schedule)
    requires Reads(c, s) && Run(c, schedule).Some?
    requires Run(c, schedule).value.main == Finalizing && |Run(c, schedule).value.parStack| == 1
    ensures var t := Run(c, schedule).value;
            && LastRootWrite(c, schedule) == Some(t.parStack[0])
            && s.Then? && Parse(s).Some? && t.rootEncoded == Some(NodeBytes(c.sha, s))
  {
    hide PlanOf, Run, Reads, Parse, Inv, WfPlan, StackOk, NodeBytes, RootHash, TopTree;
    var t := Run(c, schedule).value;
    PlanOk(c, s);
    WaveSafety.RunSafe(c, PlanOf(c, s), schedule);
    WaveRefinement.Finale(c, s, t);
    WaveMain.StackTop(c, PlanOf(c, s), t.parStack, Length(s));
    WaveRefinement.ThenIsLong(s);
    OneIsSome(PlanOf(c, s), t.parStack, Length(s));
    WaveRefinement.LastCell(c, s);
    AllPast(c, PlanOf(c, s), t);
    RootWriteIsLast(c, s, schedule);
  }

  lemma OneIsSome(plan: Plan, stack: seq<nat>, k: nat)
    requires StackOk(plan, stack, k) && |stack| == 1
    ensures k > 0
  {}

  lemma AllPast(c: Config, plan: Plan, t: State)
    requires Inv(c, plan, t) && t.main == Finalizing && t.frames != []
    ensures Past(t, |t.frames| - 1, 8)
  {
    hide Stacked, Rendezvous, Owners, Tally, HashesPlanned, RootWritten, Stored;
  }

  // ---------- capacities ----------

  /** In every reachable state the ready channel and the write queue are within their capacities. */
  lemma {:induction false} WithinCaps(c: Config, s: Stream, schedule: Schedule)
    requires Reads(c, s) && Run(c, schedule).Some?
    ensures var t := Run(c, schedule).value; |t.ready| <= c.readyCap && |t.writeQ| <= c.writeCap
  {
    hide PlanOf, Inv, WfPlan, Reads, Do, Enabled;
    if schedule.After? {
      var u, t := StepTo(c, s, schedule.earlier, schedule.a);
      WithinCaps(c, s, schedule.earlier);
      CapStep(c, PlanOf(c, s), u, schedule.a);
    }
  }

  /** Main waits at pendingCap: in every run, the step with which it submits a frame finds fewer frames pending. */
  lemma MainWaitsForRoom(c: Config, s: Stream, earlier: Schedule)
    requires Reads(c, s) && Run(c, After(earlier, MainActs)).Some?
    ensures var u, t := Run(c, earlier).value, Run(c, After(earlier, MainActs)).value;
            t.queue != u.queue ==> |u.queue| < c.pendingCap && |t.queue| == |u.queue| + 1
  {
    hide PlanOf, Inv, WfPlan, Reads;
    var u, t := StepTo(c, s, earlier, MainActs);
    MainQueues(c, PlanOf(c, s), u);
  }

  lemma MainQueues(c: Config, plan: Plan, u: State)
    requires Inv(c, plan, u) && MainEnabled(c, u)
    ensures var t := MainDo(c, u); t.queue != u.queue ==> |u.queue| < c.pendingCap && |t.queue| == |u.queue| + 1
  {
    assert u.main.On? ==> !u.closed by {
      hide Stacked, Rendezvous, Owners, Tally, HashesPlanned, RootWritten, Stored;
    }
    hide Inv, MainOn, MainNext, MainFinalize;
    if u.main.On? {
      MainOnQueue(c, u, u.main.f, u.main.m);
    } else if u.main == Next {
      NextCaps(c, u);
    } else if u.main == Finalizing {
      FinalizeCaps(c, u);
    }
  }

  lemma MainOnQueue(c: Config, s: State, f: nat, m: MainStep)
    ensures var t := MainOn(c, s, f, m); t.queue == if m.MainEnqueue? then s.queue + [f] else s.queue
  {}

  lemma CapStep(c: Config, plan: Plan, s: State, a: Action)
    requires Inv(c, plan, s) && Enabled(c, s, a) && |s.ready| <= c.readyCap && |s.writeQ| <= c.writeCap
    ensures var t := Do(c, s, a); |t.ready| <= c.readyCap && |t.writeQ| <= c.writeCap
  {
    hide Inv, MainOn, MainNext, MainFinalize, WorkerOn, F, SetLife;
    match a {
      case MainActs =>
        if s.main.On? {
          MainOnCaps(c, s, s.main.f, s.main.m);
        } else if s.main == Next {
          NextCaps(c, s);
        } else if s.main == Finalizing {
          FinalizeCaps(c, s);
        }
      case DispatcherActs =>
        DispatcherCaps(c, s);
      case WriterActs => {}
      case WorkerActs(w) =>
        if s.workers[w].Working? {
          var f := s.workers[w].f;
          BusyIsIts(c, plan, s, w);
          if F(s, f).life.Busy? {
            WorkerCaps(c, s, w, f, F(s, f).life);
          }
        } else if s.ready != [] {
          TakeCaps(c, s, w);
        }
    }
  }

  lemma MainOnCaps(c: Config, s: State, f: nat, m: MainStep)
    ensures var t := MainOn(c, s, f, m); t.ready == s.ready && t.writeQ == s.writeQ
  {}

  lemma NextCaps(c: Config, s: State)
    ensures var t := MainNext(c, s); t.ready == s.ready && t.writeQ == s.writeQ && t.queue == s.queue
  {}

  lemma FinalizeCaps(c: Config, s: State)
    ensures var t := MainFinalize(c, s); t.ready == s.ready && t.writeQ == s.writeQ && t.queue == s.queue
  {}

  lemma DispatcherCaps(c: Config, s: State)
    requires DispatcherEnabled(c, s) && |s.ready| <= c.readyCap
    ensures var t := DispatcherDo(c, s); |t.ready| <= c.readyCap && t.writeQ == s.writeQ
  {}

  lemma TakeCaps(c: Config, s: State, w: nat)
    requires w < |s.workers| && s.workers[w] == Idle && s.ready != []
    ensures var t := WorkerDo(c, s, w); |t.ready| < |s.ready| && t.writeQ == s.writeQ
  {}

  lemma WorkerCaps(c: Config, s: State, w: nat, f: nat, l: Life)
    requires l.Busy? && F(s, f).life == l
    ensures var t := WorkerOn(c, s, w, f, l.at);
            && t.ready == s.ready
            && |t.writeQ| <= |s.writeQ| + if l.at.PushWrite? then 1 else 0
  {
    hide HashOf, BytesOf, KeyAt, F;
    match l.at {
      case PushWrite => {}
      case DecPending(p) => {}
      case CasSubmitted(p) => {}
      case AddGroup(p) => {}
      case _ => {}
    }
  }

  lemma BusyIsIts(c: Config, plan: Plan, s: State, w: nat)
    requires Inv(c, plan, s) && WorkerEnabled(c, s, w) && s.workers[w].Working?
    ensures var f := s.workers[w].f; F(s, f).life.Busy? && F(s, f).life.w == w
  {
    hide Stacked, Rendezvous, Tally, HashesPlanned, RootWritten, Stored, Phases, Line;
    assert At(s, s.workers[w].f) == AtWorker(w);
  }
}
