/** Every step of every thread keeps the invariant: ownership and the wait-group count. */
module WaveSteps {
  import opened Bytes
  import opened IavlTree
  import opened WaveState
  import opened WaveInvariant
  import opened WaveWorkers
  import opened WaveOwners
  import opened WaveMain

  /** Frames f and p at most have changed, and the wait-group with them. */
  lemma TallyStep(s: State, t: State, f: nat, p: nat)
    requires Tally(s) && f < |s.frames| && p < |s.frames|
    requires t.frames == s.frames[f := F(t, f)][p := F(t, p)]
    requires t.hashWg - s.hashWg == ActiveOne(F(t, f)) - ActiveOne(F(s, f))
                                    + (if p == f then 0 else ActiveOne(F(t, p)) - ActiveOne(F(s, p)))
    ensures Tally(t)
  {
    hide ActiveOne;
    var mid := s.frames[f := F(t, f)];
    TotalUpdate(s.frames, f, F(t, f), ActiveOne);
    TotalUpdate(mid, p, F(t, p), ActiveOne);
  }

  // ---------- workers ----------

  /** A worker's frame is in its hands; the parent that it submits is in nobody's. */
  lemma WorkerHolds(c: Config, plan: Plan, s: State, w: nat)
    requires Parents(c, plan) && Rendezvous(c, plan, s) && Owners(s) && w < |s.workers| && s.workers[w].Working?
    ensures var f := s.workers[w].f;
            && f < |s.frames| && F(s, f).life.Busy? && F(s, f).life.w == w
            && (12 <= Age(F(s, f).life) <= 16 ==>
                var p := F(s, f).life.at.p;
                && f < p < |s.frames| && plan[f].up == Some(p)
                && WakeOk(F(s, p), p, f, F(s, f).life))
  {
    var f := s.workers[w].f;
    assert At(s, f) == AtWorker(w);
    BusyFrame(c, plan, s, f);
    hide LinkOf, FrameOk, WakeOk, Line;
  }

  /** Steps that touch only the worker's own frame. */
  predicate Solo(at: WorkerStep) {
    OwnOnly(at) || at.AddEvent? || at.TakeParent? || at.LoadBuilt?
  }

  predicate SoloEffect(s: State, t: State, w: nat, f: nat)
    requires w < |s.workers| && f < |s.frames| && F(s, f).life.Busy?
  {
    var done := F(s, f).life.at.DoneGroup?;
    && t.frames == s.frames[f := F(t, f)]
    && F(t, f).life.Busy? == !done
    && (if done then F(t, f).life.Processed? && t.workers == s.workers[w := Idle]
        else F(t, f).life.w == w && t.workers == s.workers)
    && t.hashWg == s.hashWg - (if done then 1 else 0)
    && t.queue == s.queue && t.ready == s.ready && t.dispatcher == s.dispatcher && t.main == s.main
  }

  lemma SoloFrames(c: Config, s: State, w: nat, f: nat, at: WorkerStep)
    requires w < |s.workers| && f < |s.frames| && F(s, f).life == Busy(w, at) && Solo(at)
    ensures SoloEffect(s, WorkerOn(c, s, w, f, at), w, f)
  {
    hide HashOf, BytesOf, KeyAt;
    match at {
      case Hash => {}
      case DoneGroup => {}
      case AddEvent => {}
      case TakeParent => {}
      case _ => {}
    }
  }

  lemma PairFrames(c: Config, s: State, w: nat, f: nat, p: nat)
    requires w < |s.workers| && s.workers[w] == Working(f) && f < p < |s.frames| && F(s, f).life.Busy?
      && !Solo(F(s, f).life.at)
    requires F(s, f).life.w == w && F(s, f).life.at.p == p
    requires WakeOk(F(s, p), p, f, F(s, f).life)
    ensures var t, at := WorkerDo(c, s, w), F(s, f).life.at;
            && t.frames == s.frames[f := F(t, f)][p := F(t, p)]
            && F(t, f).life.Busy? && F(t, f).life.w == w
            && F(t, f).hash == F(s, f).hash && F(t, f).encoded == F(s, f).encoded
            && F(t, p).hash == F(s, p).hash && F(t, p).encoded == F(s, p).encoded
            && t.hashWg == s.hashWg + (if at.AddGroup? then 1 else 0)
            && t.queue == (if at.Enqueue? then s.queue + [p] else s.queue)
            && t.ready == s.ready && t.dispatcher == s.dispatcher && t.main == s.main && t.workers == s.workers
            && match at
               case CasSubmitted(_) =>
                 && Age(F(t, p).life) == (if F(s, p).life.Unsubmitted? then 1 else Age(F(s, p).life))
                 && PlaceOf(F(t, p).life) == PlaceOf(F(s, p).life)
               case AddGroup(_) => F(s, p).life.Claimed? && F(t, p).life.Counted?
               case Enqueue(_) => F(s, p).life.Counted? && F(t, p).life == Queued
               case _ => F(t, p).life == F(s, p).life
  {
    hide HashOf, BytesOf, KeyAt;
  }

  lemma WorkerTally(c: Config, plan: Plan, s: State, w: nat)
    requires Parents(c, plan) && Rendezvous(c, plan, s) && Owners(s) && Tally(s)
    requires w < |s.workers| && s.workers[w].Working?
    ensures Tally(WorkerDo(c, s, w))
  {
    hide Parents, Rendezvous, Owners, WorkerOn, Tally, WakeOk;
    WorkerHolds(c, plan, s, w);
    var f := s.workers[w].f;
    var at := F(s, f).life.at;
    if Solo(at) {
      SoloFrames(c, s, w, f, at);
      TallyStep(s, WorkerDo(c, s, w), f, f);
    } else {
      PairFrames(c, s, w, f, at.p);
      TallyStep(s, WorkerDo(c, s, w), f, at.p);
    }
  }

  lemma WorkerOwners(c: Config, plan: Plan, s: State, w: nat)
    requires Parents(c, plan) && Rendezvous(c, plan, s) && Owners(s)
    requires w < |s.workers| && s.workers[w].Working?
    ensures Owners(WorkerDo(c, s, w))
  {
    hide Parents, Rendezvous, Owners, WorkerOn, WakeOk;
    WorkerHolds(c, plan, s, w);
    var f := s.workers[w].f;
    var at := F(s, f).life.at;
    var t := WorkerDo(c, s, w);
    if Solo(at) {
      SoloFrames(c, s, w, f, at);
      if at.DoneGroup? {
        OwnersDone(s, t, w, f);
      } else {
        OwnersQuiet(s, t);
      }
    } else {
      PairFrames(c, s, w, f, at.p);
      if at.Enqueue? {
        OwnersEnqueue(s, t, at.p);
      } else {
        OwnersQuiet(s, t);
      }
    }
  }

  lemma RendezvousSame(c: Config, plan: Plan, s: State, t: State)
    requires Rendezvous(c, plan, s) && t.frames == s.frames
    requires t.main == s.main || (!t.main.On? && !s.main.On?)
    ensures Rendezvous(c, plan, t)
  {
    hide LinkOk, LeafOk, InnerOk, IsLeaf;
    forall j: nat | j < |t.frames| ensures FrameOk(c, plan, t, j) {
      assert FrameOk(c, plan, s, j);
    }
  }

  /** An idle worker takes the next frame from the channel, or exits when the channel is closed and empty. */
  lemma IdleKeeps(c: Config, plan: Plan, s: State, w: nat)
    requires Parents(c, plan) && Rendezvous(c, plan, s) && Owners(s) && Tally(s)
    requires w < |s.workers| && s.workers[w] == Idle
    ensures var t := WorkerDo(c, s, w); Owners(t) && Tally(t) && Rendezvous(c, plan, t)
  {
    var t := WorkerDo(c, s, w);
    if s.ready != [] {
      var f := s.ready[0];
      assert At(s, f) == InChannel;
      hide Parents, Rendezvous, Owners, Tally;
      OwnersTake(s, t, w, f);
      TallyStep(s, t, f, f);
      PassOn(c, plan, s, t, f);
    } else {
      hide Parents, Rendezvous, Owners;
      OwnersGone(s, t, w);
      RendezvousSame(c, plan, s, t);
    }
  }

  // ---------- dispatcher and writer ----------

  lemma DispatcherKeeps(c: Config, plan: Plan, s: State)
    requires Parents(c, plan) && Rendezvous(c, plan, s) && Owners(s) && Tally(s) && !s.dispatcher.DispatcherGone?
    ensures var t := DispatcherDo(c, s); Owners(t) && Tally(t) && Rendezvous(c, plan, t)
  {
    var t := DispatcherDo(c, s);
    if s.dispatcher.Holding? {
      var f := s.dispatcher.f;
      assert At(s, f) == InHand;
      hide Parents, Rendezvous, Owners, Tally;
      OwnersSend(s, t, f);
      TallyStep(s, t, f, f);
      PassOn(c, plan, s, t, f);
    } else if s.queue != [] {
      var f := s.queue[0];
      assert At(s, f) == InQueue;
      hide Parents, Rendezvous, Owners, Tally;
      OwnersHold(s, t, f);
      TallyStep(s, t, f, f);
      PassOn(c, plan, s, t, f);
    } else {
      hide Parents, Rendezvous, Line;
      RendezvousSame(c, plan, s, t);
      assert forall j: nat :: At(s, j) == At(t, j);
    }
  }

  lemma WriterKeeps(c: Config, plan: Plan, s: State)
    requires Rendezvous(c, plan, s) && Owners(s) && Tally(s)
    ensures var t := WriterDo(s); Owners(t) && Tally(t) && Rendezvous(c, plan, t)
  {
    hide Rendezvous, Owners;
    RendezvousSame(c, plan, s, WriterDo(s));
    OwnersQuiet(s, WriterDo(s));
  }

  // ---------- main ----------

  lemma {:induction false} TotalLives(a: seq<ParFrame>, b: seq<ParFrame>)
    requires |a| == |b| && forall j: nat :: j < |a| ==> a[j].life == b[j].life
    ensures Total(a, ActiveOne) == Total(b, ActiveOne)
  {
    if a != [] {
      TotalLives(a[..|a| - 1], b[..|b| - 1]);
    }
  }

  /** A step that submits nothing. */
  predicate LivesSame(s: State, t: State) {
    && |t.frames| == |s.frames| && (forall j: nat :: j < |s.frames| ==> s.frames[j].life == t.frames[j].life)
    && t.queue == s.queue && t.ready == s.ready && t.dispatcher == s.dispatcher && t.workers == s.workers
    && t.hashWg == s.hashWg
  }

  lemma LivesSameCounts(s: State, t: State)
    requires Owners(s) && Tally(s) && LivesSame(s, t)
    ensures Owners(t) && Tally(t)
  {
    assert forall j: nat :: At(s, j) == At(t, j);
    hide Owners, At;
    OwnersQuiet(s, t);
    TotalLives(s.frames, t.frames);
  }

  predicate Submits(m: MainStep) {
    m == MainCas || m == MainAdd || m == MainEnqueue
  }

  lemma MainOnLives(c: Config, s: State, f: nat, m: MainStep)
    requires !Submits(m)
    ensures LivesSame(s, MainOn(c, s, f, m))
  {}

  lemma MainSubmitCounts(c: Config, plan: Plan, s: State, f: nat, m: MainStep)
    requires Parents(c, plan) && Rendezvous(c, plan, s) && Owners(s) && Tally(s)
    requires s.main == On(f, m) && f + 1 == |s.frames| && Submits(m)
    ensures var t := MainOn(c, s, f, m); Owners(t) && Tally(t)
  {
    InnerNow(c, plan, s, f);
    hide Parents, Rendezvous, Owners, Tally, LinkOk, LinkAt, WakeOk, IsLeaf;
    var t := MainOn(c, s, f, m);
    assert F(s, f).life ==
      if m == MainAdd then Claimed(ByMain) else if m == MainEnqueue then Counted(ByMain) else F(s, f).life;
    hide InnerOk, LeafOk;
    assert s.frames[f := F(s, f)][f := F(s, f)] == s.frames;
    TallyStep(s, t, f, f);
    if m == MainEnqueue {
      OwnersEnqueue(s, t, f);
    } else {
      OwnersQuiet(s, t);
    }
  }

  lemma GrowsCounts(c: Config, plan: Plan, s: State, t: State)
    requires Owners(s) && Tally(s) && Grows(c, plan, s, t)
    requires t.queue == s.queue && t.ready == s.ready && t.dispatcher == s.dispatcher && t.workers == s.workers
    requires t.hashWg == s.hashWg
    ensures Owners(t) && Tally(t)
  {
    assert forall j: nat :: At(s, j) == At(t, j);
    hide Owners, At;
    OwnersQuiet(s, t);
    TotalAppend(s.frames, t.frames[|s.frames|], ActiveOne);
  }
}
