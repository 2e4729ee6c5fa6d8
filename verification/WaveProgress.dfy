/** No reachable unfinished state is stuck while the write queue is drained, and every run is finite. */
module WaveProgress {
  import opened Bytes
  import opened IavlTree
  import opened WaveState
  import opened WaveInvariant
  import opened WaveWorkers
  import opened WaveMain
  import opened WaveOwners
  import opened WaveSteps
  import opened WaveSafety

  // ---------- somebody can act ----------

  lemma WorkerCanAct(c: Config, plan: Plan, s: State, w: nat)
    requires Runnable(c) && s.writeQ == [] && w < |s.workers| && !s.workers[w].WorkerGone?
    requires s.workers[w] == Idle ==> s.ready != [] || s.dispatcher == DispatcherGone
    ensures Enabled(c, s, WorkerActs(w))
  {}

  /** When the channel holds a frame, the first worker takes it or is at work. */
  lemma ChannelMoves(c: Config, plan: Plan, s: State)
    requires Runnable(c) && Phases(c, plan, s) && s.writeQ == [] && s.ready != [] && !s.dispatcher.DispatcherGone?
    ensures Enabled(c, s, WorkerActs(0))
  {
    WorkerCanAct(c, plan, s, 0);
  }

  /** When the dispatcher cannot move although it has a frame to move, the channel is full. */
  lemma BacklogMoves(c: Config, plan: Plan, s: State) returns (a: Action)
    requires Runnable(c) && Phases(c, plan, s) && s.writeQ == []
    requires s.dispatcher.Holding? || (s.dispatcher.Looking? && (s.queue != [] || s.closed))
    ensures Enabled(c, s, a)
  {
    if DispatcherEnabled(c, s) {
      a := DispatcherActs;
    } else {
      ChannelMoves(c, plan, s);
      a := WorkerActs(0);
    }
  }

  lemma CountedChild(c: Config, plan: Plan, s: State, j: nat) returns (i: nat)
    requires Parents(c, plan) && Rendezvous(c, plan, s) && j < |s.frames| && s.frames[j].life.Counted? && !s.main.On?
    ensures i < |s.frames| && s.frames[i].life.Busy?
  {
    assert FrameOk(c, plan, s, j) && ParentOk(c, plan, j);
    i := if s.frames[j].life == Counted(ByChild(plan[j].left)) then plan[j].left else plan[j].right;
    hide LinkOf, LinkOk;
  }

  /** While the wait-group is not zero, a frame is being waited for and its holder can act. */
  lemma ActiveMoves(c: Config, plan: Plan, s: State) returns (a: Action)
    requires Runnable(c) && Parents(c, plan) && Rendezvous(c, plan, s) && Owners(s) && Tally(s) && Phases(c, plan, s)
    requires s.main == WaitHash && s.hashWg != 0 && s.writeQ == []
    ensures Enabled(c, s, a)
  {
    var j := TotalWitness(s.frames, ActiveOne);
    var i := j;
    if s.frames[j].life.Counted? {
      i := CountedChild(c, plan, s, j);
    }
    hide Rendezvous, Parents, Tally;
    var l := s.frames[i].life;
    if l.Busy? {
      assert At(s, i) == AtWorker(l.w);
      WorkerCanAct(c, plan, s, l.w);
      a := WorkerActs(l.w);
    } else if l.InReady? {
      assert At(s, i) == InChannel;
      ChannelMoves(c, plan, s);
      a := WorkerActs(0);
    } else {
      if l.Queued? {
        assert At(s, i) == InQueue;
      } else {
        assert At(s, i) == InHand;
      }
      a := BacklogMoves(c, plan, s);
    }
  }

  /** Unless main has returned or rejected the stream, some thread can take a step. The capacities may be as
      small as one, and main may be waiting for room in the pending queue. */
  lemma NeverStuck(c: Config, plan: Plan, s: State) returns (a: Action)
    requires Runnable(c) && WfPlan(c, plan) && Inv(c, plan, s) && !s.main.Returned? && s.main != Failed
    ensures Enabled(c, s, a)
  {
    hide EndsWell, Cells, Parents, FastApart, Stacked, Rendezvous, Owners, Tally, HashesPlanned, RootWritten, Stored;
    if MainEnabled(c, s) {
      a := MainActs;
    } else if WriterEnabled(s) {
      a := WriterActs;
    } else {
      match s.main {
        case WaitHash => a := ActiveMoves(c, plan, s);
        case WaitWorkers =>
          var w: nat :| w < |s.workers| && !s.workers[w].WorkerGone?;
          WorkerCanAct(c, plan, s, w);
          a := WorkerActs(w);
        case _ => a := BacklogMoves(c, plan, s);
      }
    }
  }

  // ---------- every step uses something up ----------

  function LifeLeft(fr: ParFrame): nat { 2 * (18 - Age(fr.life)) }

  function MainLeft(m: MainPc): nat {
    match m
    case Next => 8
    case On(_, m) => 20 - Order(m)
    case WaitHash => 7
    case CloseQueue => 6
    case WaitDispatcher => 5
    case WaitWorkers => 4
    case WaitWriter => 3
    case Finalizing => 2
    case Returned(_) => 0
    case Failed => 0
  }

  function Staff(ws: seq<Worker>): nat {
    if ws == [] then 0 else Staff(ws[..|ws| - 1]) + if ws[|ws| - 1].WorkerGone? then 0 else 1
  }

  /** The steps that can still be taken. */
  function Left(c: Config, s: State): int {
    60 * (|c.items| - |s.frames|) + Total(s.frames, LifeLeft) + MainLeft(s.main) + |s.writeQ|
    + Staff(s.workers) + (if s.dispatcher.DispatcherGone? then 0 else 1)
  }

  lemma {:induction false} StaffUpdate(ws: seq<Worker>, w: nat, x: Worker)
    requires w < |ws|
    ensures Staff(ws[w := x]) == Staff(ws) - (if ws[w].WorkerGone? then 0 else 1) + (if x.WorkerGone? then 0 else 1)
  {
    var n := |ws| - 1;
    if w == n {
      assert ws[w := x][..n] == ws[..n];
    } else {
      assert ws[w := x][..n] == ws[..n][w := x];
      StaffUpdate(ws[..n], w, x);
    }
  }

  lemma LifeStep(s: State, t: State, f: nat, p: nat)
    requires f < |s.frames| && p < |s.frames|
    requires t.frames == s.frames[f := F(t, f)][p := F(t, p)]
    ensures Total(t.frames, LifeLeft) == Total(s.frames, LifeLeft) + LifeLeft(F(t, f)) - LifeLeft(F(s, f))
                                         + (if p == f then 0 else LifeLeft(F(t, p)) - LifeLeft(F(s, p)))
  {
    hide LifeLeft;
    TotalUpdate(s.frames, f, F(t, f), LifeLeft);
    TotalUpdate(s.frames[f := F(t, f)], p, F(t, p), LifeLeft);
  }

  lemma SoloSpends(c: Config, s: State, w: nat, f: nat, at: WorkerStep)
    requires w < |s.workers| && f < |s.frames| && F(s, f).life == Busy(w, at) && Solo(at)
    ensures var t := WorkerOn(c, s, w, f, at);
            && t.frames == s.frames[f := F(t, f)]
            && 2 * Age(F(t, f).life) - |t.writeQ| > 2 * Age(F(s, f).life) - |s.writeQ|
  {
    hide HashOf, BytesOf, KeyAt;
    match at {
      case Hash => {}
      case DoneGroup => {}
      case AddEvent => {}
      case TakeParent => {}
      case PushWrite => {}
      case _ => {}
    }
  }

  lemma PairSpends(c: Config, s: State, w: nat, f: nat, p: nat, at: WorkerStep)
    requires w < |s.workers| && f < p < |s.frames| && F(s, f).life == Busy(w, at) && !Solo(at) && at.p == p
    requires WakeOk(F(s, p), p, f, F(s, f).life)
    ensures var t := WorkerOn(c, s, w, f, at);
            && t.frames == s.frames[f := F(t, f)][p := F(t, p)]
            && t.writeQ == s.writeQ
            && Age(F(t, f).life) > Age(F(s, f).life) && Age(F(t, p).life) >= Age(F(s, p).life)
  {
    hide HashOf, BytesOf, KeyAt;
    match at {
      case DecPending(_) => {}
      case CasSubmitted(_) => {}
      case AddGroup(_) => {}
      case Enqueue(_) => {}
    }
  }

  lemma WorkerSpends(c: Config, plan: Plan, s: State, w: nat)
    requires WfPlan(c, plan) && Inv(c, plan, s) && WorkerEnabled(c, s, w)
    ensures Left(c, WorkerDo(c, s, w)) < Left(c, s)
  {
    var t := WorkerDo(c, s, w);
    hide EndsWell, Cells, Parents, FastApart, Stacked, Rendezvous, Tally, HashesPlanned, RootWritten, Stored, Phases,
      WorkerOn, WakeOk, Line, Staff, Age;
    if s.workers[w].Working? {
      WorkerHolds(c, plan, s, w);
      var f := s.workers[w].f;
      var at := F(s, f).life.at;
      WorkerOnFramed(c, s, w, f, at);
      StaffUpdate(s.workers, w, Idle);
      if Solo(at) {
        SoloSpends(c, s, w, f, at);
        LifeStep(s, t, f, f);
      } else {
        PairSpends(c, s, w, f, at.p, at);
        LifeStep(s, t, f, at.p);
      }
    } else {
      IdleSpends(c, plan, s, w);
    }
  }

  lemma IdleSpends(c: Config, plan: Plan, s: State, w: nat)
    requires Owners(s) && WorkerEnabled(c, s, w) && s.workers[w] == Idle
    ensures Left(c, WorkerDo(c, s, w)) < Left(c, s)
  {
    var t := WorkerDo(c, s, w);
    if s.ready != [] {
      var f := s.ready[0];
      assert At(s, f) == InChannel;
      hide Owners, Staff;
      StaffUpdate(s.workers, w, Working(f));
      LifeStep(s, t, f, f);
    } else {
      hide Owners, Staff;
      StaffUpdate(s.workers, w, WorkerGone);
    }
  }

  lemma DispatcherSpends(c: Config, s: State)
    requires Owners(s) && DispatcherEnabled(c, s)
    ensures Left(c, DispatcherDo(c, s)) < Left(c, s)
  {
    var t := DispatcherDo(c, s);
    if s.dispatcher.Holding? {
      assert At(s, s.dispatcher.f) == InHand;
      hide Owners, Staff;
      LifeStep(s, t, s.dispatcher.f, s.dispatcher.f);
    } else if s.queue != [] {
      assert At(s, s.queue[0]) == InQueue;
      hide Owners, Staff;
      LifeStep(s, t, s.queue[0], s.queue[0]);
    }
  }

  lemma {:induction false} TotalLivesLeft(a: seq<ParFrame>, b: seq<ParFrame>)
    requires |a| == |b| && forall j: nat :: j < |a| ==> Age(a[j].life) <= Age(b[j].life)
    ensures Total(b, LifeLeft) <= Total(a, LifeLeft)
  {
    hide Age;
    if a != [] {
      TotalLivesLeft(a[..|a| - 1], b[..|b| - 1]);
    }
  }

  lemma MainOnAdvances(c: Config, s: State, f: nat, m: MainStep)
    ensures MainLeft(MainOn(c, s, f, m).main) < 20 - Order(m)
  {
    hide F, Put, SetLife;
  }

  lemma MainOnAges(c: Config, plan: Plan, s: State, f: nat, m: MainStep)
    requires Parents(c, plan) && Rendezvous(c, plan, s) && s.main == On(f, m) && f + 1 == |s.frames|
    ensures var t := MainOn(c, s, f, m);
            |t.frames| == |s.frames| && forall j: nat :: j < |s.frames| ==>
              Age(s.frames[j].life) <= Age(t.frames[j].life)
  {
    InnerNow(c, plan, s, f);
    hide Parents, Rendezvous, LinkOk, LinkAt, WakeOk, IsLeaf, MainOn, Age;
    MainOnLinks(c, s, f, m);
    if Submits(m) {
      SubmitSpends(c, s, f, m);
    } else {
      MainOnLives(c, s, f, m);
    }
  }

  lemma MainOnSpends(c: Config, plan: Plan, s: State, f: nat, m: MainStep)
    requires WfPlan(c, plan) && Inv(c, plan, s) && s.main == On(f, m)
    ensures Left(c, MainOn(c, s, f, m)) < Left(c, s)
  {
    assert f + 1 == |s.frames| by { hide StackOk, Rendezvous, Owners, Tally, HashesPlanned, RootWritten, Stored,
      Phases; }
    hide EndsWell, Cells, Parents, FastApart, Stacked, Rendezvous, Owners, Tally, HashesPlanned, RootWritten, Stored,
      Phases, MainOn;
    MainOnAdvances(c, s, f, m);
    MainOnAges(c, plan, s, f, m);
    MainOnLinks(c, s, f, m);
    TotalLivesLeft(s.frames, MainOn(c, s, f, m).frames);
  }

  lemma SubmitSpends(c: Config, s: State, f: nat, m: MainStep)
    requires f < |s.frames| && Submits(m)
    requires m == MainAdd ==> s.frames[f].life.Claimed?
    requires m == MainEnqueue ==> s.frames[f].life.Counted?
    ensures var t := MainOn(c, s, f, m);
            forall j: nat :: j < |s.frames| ==> Age(s.frames[j].life) <= Age(t.frames[j].life)
  {}

  lemma MainSpends(c: Config, plan: Plan, s: State)
    requires WfPlan(c, plan) && Inv(c, plan, s) && MainEnabled(c, s)
    ensures Left(c, MainDo(c, s)) < Left(c, s)
  {
    hide EndsWell, Cells, Parents, FastApart, Stacked, Rendezvous, Owners, Tally, HashesPlanned, RootWritten, Stored,
      Phases, MainOn, MainNext;
    if s.main.On? {
      MainOnSpends(c, plan, s, s.main.f, s.main.m);
    } else if s.main == Next {
      NextSpends(c, s);
    } else {
      hide Total, Staff;
    }
  }

  lemma NextSpends(c: Config, s: State)
    requires s.main == Next
    ensures Left(c, MainNext(c, s)) < Left(c, s)
  {
    var t := MainNext(c, s);
    hide FastEntry, ClosesPairPar, Wrap64, Staff;
    if t.main.On? {
      TotalAppend(s.frames, t.frames[|s.frames|], LifeLeft);
    }
  }

  /** Every step of every thread uses up one of the steps that were left. */
  lemma StepSpends(c: Config, plan: Plan, s: State, a: Action)
    requires WfPlan(c, plan) && Inv(c, plan, s) && Enabled(c, s, a)
    ensures Left(c, Do(c, s, a)) < Left(c, s)
  {
    hide WfPlan, MainDo, DispatcherDo, WorkerDo, MainEnabled, DispatcherEnabled, Left, Stacked, Rendezvous, Owners,
      Tally, HashesPlanned, RootWritten, Stored, Phases;
    match a {
      case MainActs => MainSpends(c, plan, s);
      case DispatcherActs => DispatcherSpends(c, s);
      case WriterActs => WriterSpends(c, s);
      case WorkerActs(w) => WorkerSpends(c, plan, s, w);
    }
  }

  lemma WriterSpends(c: Config, s: State)
    requires WriterEnabled(s)
    ensures Left(c, WriterDo(s)) < Left(c, s)
  {
    hide Total, Staff;
  }

  function Steps(schedule: Schedule): nat {
    if schedule.Begin? then 0 else Steps(schedule.earlier) + 1
  }

  lemma LeftIsNat(c: Config, plan: Plan, s: State)
    requires WfPlan(c, plan) && Inv(c, plan, s)
    ensures Left(c, s) >= 0
  {
    hide Cells, Parents, FastApart, Stacked, Owners, Tally, HashesPlanned, RootWritten, Stored, Phases, FrameOk,
      Total, Staff;
  }

  lemma {:induction false} StaffBound(ws: seq<Worker>)
    ensures Staff(ws) <= |ws|
  {
    if ws != [] {
      StaffBound(ws[..|ws| - 1]);
    }
  }

  lemma {:induction false} RunSpends(c: Config, plan: Plan, schedule: Schedule)
    requires WfPlan(c, plan) && Run(c, schedule).Some?
    ensures Steps(schedule) + Left(c, Run(c, schedule).value) <= 60 * |c.items| + c.workers + 9
  {
    match schedule {
      case Begin =>
        StaffBound(Init(c).workers);
        hide WfPlan;
      case After(earlier, a) =>
        hide WfPlan, Left, Init, Do, Enabled;
        RunSafe(c, plan, earlier);
        RunSpends(c, plan, earlier);
        StepSpends(c, plan, Run(c, earlier).value, a);
    }
  }

  /** No schedule is longer than a bound that the number of items and workers gives. */
  lemma RunsAreFinite(c: Config, plan: Plan, schedule: Schedule)
    requires WfPlan(c, plan) && Run(c, schedule).Some?
    ensures Steps(schedule) <= 60 * |c.items| + c.workers + 9
  {
    hide *;
    RunSafe(c, plan, schedule);
    RunSpends(c, plan, schedule);
    LeftIsNat(c, plan, Run(c, schedule).value);
  }
}
