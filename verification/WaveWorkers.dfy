/** The rendezvous of children with their parents survives every step of a worker and of the dispatcher. */
module WaveWorkers {
  import opened Bytes
  import opened IavlTree
  import opened WaveState
  import opened WaveInvariant

  /** Lives that a frame's parent cannot tell apart. */
  predicate Calm(a: Life, b: Life) {
    a == b || (Age(a) <= 10 && Age(b) <= 10) || (Age(a) >= 17 && Age(b) >= 17)
  }

  /** Lives that make no difference to the frame itself either. */
  predicate Quiet(a: Life, b: Life) {
    a == b || (3 <= Age(a) <= 10 && 3 <= Age(b) <= 10) || (Age(a) >= 17 && Age(b) >= 17)
  }

  /** A step of another thread than main that leaves frame j alone, up to a quiet change of its life. */
  predicate Undisturbed(c: Config, plan: Plan, s: State, t: State, j: nat)
    requires j < |s.frames| == |t.frames|
  {
    && t.main == s.main
    && (t.frames[j] == s.frames[j]
      || t.frames[j] == s.frames[j].(life := t.frames[j].life, hash := t.frames[j].hash,
        encoded := t.frames[j].encoded))
    && Quiet(s.frames[j].life, t.frames[j].life)
    && (!IsLeaf(c, j) ==>
        && Calm(F(s, s.frames[j].left).life, F(t, s.frames[j].left).life)
        && Calm(F(s, s.frames[j].right).life, F(t, s.frames[j].right).life))
  }

  lemma SameLinks(plan: Plan, s: State, t: State, i: nat)
    requires t.main == s.main && |s.frames| == |t.frames|
    ensures LinkOf(plan, s, i) == LinkOf(plan, t, i)
    ensures Pos(s, i) == Pos(t, i)
  {}

  lemma CalmChild(fr: ParFrame, gr: ParFrame, j: nat, i: nat, l: Life, l': Life, link: Link)
    requires WakeOk(fr, j, i, l) && Calm(l, l') && Quiet(fr.life, gr.life)
    requires gr.pending == fr.pending && gr.built == fr.built
    ensures WakeOk(gr, j, i, l')
    ensures Dropped(l, link) == Dropped(l', link) && Waking(l) == Waking(l')
  {}

  lemma CalmChildren(fr: ParFrame, gr: ParFrame, pos: int, j: nat,
                     il: nat, l: Life, l': Life, ll: Link, ir: nat, r: Life, r': Life, rl: Link)
    requires InnerOk(fr, pos, j, il, l, ll, ir, r, rl) && Calm(l, l') && Calm(r, r') && Quiet(fr.life, gr.life)
    requires gr.pending == fr.pending && gr.built == fr.built
    ensures InnerOk(gr, pos, j, il, l', ll, ir, r', rl)
  {
    hide WakeOk, Dropped, Waking, Calm;
    CalmChild(fr, gr, j, il, l, l', ll);
    CalmChild(fr, gr, j, ir, r, r', rl);
  }

  lemma UndisturbedOk(c: Config, plan: Plan, s: State, t: State, j: nat)
    requires j < |s.frames| == |t.frames| && j < |plan|
    requires FrameOk(c, plan, s, j) && Undisturbed(c, plan, s, t, j)
    ensures FrameOk(c, plan, t, j)
  {
    SameLinks(plan, s, t, j);
    if !IsLeaf(c, j) {
      SameLinks(plan, s, t, s.frames[j].left);
      SameLinks(plan, s, t, s.frames[j].right);
      var a, b := s.frames[j].left, s.frames[j].right;
      CalmChildren(s.frames[j], t.frames[j], Pos(s, j), j, a, F(s, a).life, F(t, a).life, LinkOf(plan, s, a),
                   b, F(s, b).life, F(t, b).life, LinkOf(plan, s, b));
    }
    hide LinkOf, Pos, IsLeaf, InnerOk;
  }

  /** Frame f changes, and perhaps its parent p; p may be f when no parent changes. */
  predicate Changed(plan: Plan, s: State, t: State, f: nat, p: nat) {
    && t.main == s.main
    && f < |s.frames| && p < |s.frames| && f < |plan|
    && t.frames == s.frames[f := F(t, f)][p := F(t, p)]
    && (p == f || (plan[f].up == Some(p) && Calm(F(s, p).life, F(t, p).life)))
  }

  lemma OtherFrame(c: Config, plan: Plan, s: State, t: State, f: nat, p: nat, j: nat)
    requires Parents(c, plan) && Rendezvous(c, plan, s) && Changed(plan, s, t, f, p)
    requires j < |s.frames| && j != f && j != p
    requires plan[f].up == Some(j) ==> Calm(F(s, f).life, F(t, f).life)
    ensures FrameOk(c, plan, t, j)
  {
    assert ParentOk(c, plan, j) && ParentOk(c, plan, f);
    assert FrameOk(c, plan, s, j);
    assert Undisturbed(c, plan, s, t, j) by {
      assert t.frames[j] == s.frames[j];
      hide LinkOf, LinkOk, Pos, LeafOk, InnerOk;
    }
    hide *;
    UndisturbedOk(c, plan, s, t, j);
  }

  lemma OthersKept(c: Config, plan: Plan, s: State, t: State, f: nat, p: nat)
    requires Parents(c, plan) && Rendezvous(c, plan, s) && Changed(plan, s, t, f, p)
    requires FrameOk(c, plan, t, f) && FrameOk(c, plan, t, p)
    requires p == f && plan[f].up.Some? ==>
      || plan[f].up.value >= |s.frames| || Calm(F(s, f).life, F(t, f).life) || FrameOk(c, plan, t, plan[f].up.value)
    ensures Rendezvous(c, plan, t)
  {
    hide FrameOk, Calm, Parents;
    forall j: nat | j < |t.frames| ensures FrameOk(c, plan, t, j) {
      if j != f && j != p && !(plan[f].up == Some(j) && FrameOk(c, plan, t, j)) {
        OtherFrame(c, plan, s, t, f, p, j);
      }
    }
  }

  /** A frame that a worker holds: only its rendezvous with its parent can be disturbed. */
  lemma OwnFrame(c: Config, plan: Plan, s: State, t: State, f: nat, p: nat)
    requires Parents(c, plan) && Rendezvous(c, plan, s) && Changed(plan, s, t, f, p)
    requires var a, b := F(s, f), F(t, f);
             && b == a.(life := b.life, events := b.events, parent := b.parent, hash := b.hash, encoded := b.encoded)
             && 3 <= Age(a.life) && 3 <= Age(b.life)
    requires LinkOk(F(t, f), plan[f].up, LinkOf(plan, s, f))
    ensures FrameOk(c, plan, t, f)
  {
    assert FrameOk(c, plan, s, f);
    assert ParentOk(c, plan, f);
    SameLinks(plan, s, t, f);
    if !IsLeaf(c, f) {
      SameLinks(plan, s, t, plan[f].left);
      SameLinks(plan, s, t, plan[f].right);
      assert F(t, plan[f].left) == F(s, plan[f].left) && F(t, plan[f].right) == F(s, plan[f].right) by {
        hide FrameOk;
        if p != f { assert ParentOk(c, plan, p); }
      }
    }
    hide LinkOf, Pos, IsLeaf, LinkOk;
  }

  /** The parent of the frame that a worker holds: how it sees its two children. */
  predicate Sees(plan: Plan, fr: ParFrame, s: State, links: State, p: nat, pos: int)
    requires p < |plan|
  {
    var l, r := plan[p].left, plan[p].right;
    InnerOk(fr, pos, p, l, F(s, l).life, LinkOf(plan, links, l), r, F(s, r).life, LinkOf(plan, links, r))
  }

  lemma ParentFrame(c: Config, plan: Plan, s: State, t: State, f: nat, p: nat)
    requires Parents(c, plan) && Rendezvous(c, plan, s)
    requires f < |s.frames| && p < |s.frames| && |t.frames| == |s.frames| && t.main == s.main
    requires plan[f].up == Some(p)
    requires var a, b := F(s, p), F(t, p);
             b == a.(life := b.life, pending := b.pending) && Calm(a.life, b.life)
               && (Age(a.life) >= 17 ==> b.life == a.life)
    requires Sees(plan, F(t, p), t, s, p, Pos(s, p))
    ensures FrameOk(c, plan, t, p)
  {
    assert FrameOk(c, plan, s, p);
    assert ParentOk(c, plan, f);
    SameLinks(plan, s, t, p);
    SameLinks(plan, s, t, plan[p].left);
    SameLinks(plan, s, t, plan[p].right);
    hide LinkOf, Pos, IsLeaf, InnerOk;
  }

  lemma SeesNow(c: Config, plan: Plan, s: State, f: nat, p: nat)
    requires Parents(c, plan) && Rendezvous(c, plan, s) && f < |s.frames| && p < |s.frames| && plan[f].up == Some(p)
    ensures Sees(plan, F(s, p), s, s, p, Pos(s, p)) && !IsLeaf(c, p) && f < p
    ensures f == plan[p].left || f == plan[p].right
    ensures plan[p].left < plan[p].right < p
  {
    assert FrameOk(c, plan, s, p) && ParentOk(c, plan, f) && ParentOk(c, plan, p);
    hide InnerOk, LinkOk, LeafOk;
  }

  // ---------- the parent's view of a child's step ----------

  /** A child's life a becomes b while its parent frame goes from fr to gr. */
  predicate Fair(fr: ParFrame, gr: ParFrame, pos: int, j: nat, i: nat, a: Life, b: Life, link: Link) {
    && gr == fr.(life := gr.life, pending := fr.pending - One(Dropped(b, link)) + One(Dropped(a, link)))
    && (Dropped(a, link) ==> Dropped(b, link))
    && (Waking(a) && !Waking(b) && fr.pending == 0 ==> !gr.life.Unsubmitted? || pos <= 6)
    && (Dropped(b, link) && !Dropped(a, link) && gr.pending == 0 ==> Waking(b))
    && WakeOk(gr, j, i, b)
    && (gr.life == fr.life
        || (fr.life.Unsubmitted? && gr.life == Claimed(ByChild(i)) && gr.pending == 0 && gr.built)
        || (fr.life == Claimed(ByChild(i)) && gr.life == Counted(ByChild(i)))
        || (fr.life == Counted(ByChild(i)) && gr.life == Queued))
  }

  lemma LeftStep(fr: ParFrame, gr: ParFrame, pos: int, j: nat, il: nat, a: Life, b: Life, ll: Link, ir: nat, r: Life,
                 rl: Link)
    requires InnerOk(fr, pos, j, il, a, ll, ir, r, rl) && il != ir
    requires Fair(fr, gr, pos, j, il, a, b, ll)
    ensures InnerOk(gr, pos, j, il, b, ll, ir, r, rl)
  {}

  lemma RightStep(fr: ParFrame, gr: ParFrame, pos: int, j: nat, il: nat, l: Life, ll: Link, ir: nat, a: Life, b: Life,
                  rl: Link)
    requires InnerOk(fr, pos, j, il, l, ll, ir, a, rl) && il != ir
    requires Fair(fr, gr, pos, j, ir, a, b, rl)
    ensures InnerOk(gr, pos, j, il, l, ll, ir, b, rl)
  {}

  /** A worker's step on frame f that is fair to the parent p keeps the rendezvous. */
  lemma FairStep(c: Config, plan: Plan, s: State, t: State, f: nat, p: nat)
    requires Parents(c, plan) && Rendezvous(c, plan, s)
    requires t.main == s.main && f < |s.frames| && p < |s.frames| && plan[f].up == Some(p)
    requires t.frames == s.frames[f := F(t, f)][p := F(t, p)]
    requires var a, b := F(s, f), F(t, f);
             && b == a.(life := b.life, events := b.events, parent := b.parent, hash := b.hash, encoded := b.encoded)
             && 3 <= Age(a.life) && 3 <= Age(b.life)
    requires LinkOk(F(t, f), plan[f].up, LinkOf(plan, s, f))
    requires Fair(F(s, p), F(t, p), Pos(s, p), p, f, F(s, f).life, F(t, f).life, LinkOf(plan, s, f))
    ensures Rendezvous(c, plan, t)
  {
    SeesNow(c, plan, s, f, p);
    var l, r := plan[p].left, plan[p].right;
    assert Sees(plan, F(t, p), t, s, p, Pos(s, p)) by {
      hide Fair, InnerOk, LinkOf, LinkOk, Pos;
      if f == l {
        LeftStep(F(s, p), F(t, p), Pos(s, p), p, l, F(s, l).life, F(t, l).life, LinkOf(plan, s, l), r, F(s, r).life,
          LinkOf(plan, s, r));
      } else {
        RightStep(F(s, p), F(t, p), Pos(s, p), p, l, F(s, l).life, LinkOf(plan, s, l), r, F(s, r).life, F(t, r).life,
          LinkOf(plan, s, r));
      }
    }
    hide LinkOf, Pos, InnerOk, LinkOk, Dropped, WakeOk, Sees, FrameOk;
    ParentFrame(c, plan, s, t, f, p);
    OwnFrame(c, plan, s, t, f, p);
    OthersKept(c, plan, s, t, f, p);
  }

  /** A step on frame f alone that its parent, if it exists yet, cannot see. */
  lemma LoneStep(c: Config, plan: Plan, s: State, t: State, f: nat)
    requires Parents(c, plan) && Rendezvous(c, plan, s)
    requires t.main == s.main && f < |s.frames|
    requires t.frames == s.frames[f := F(t, f)]
    requires var a, b := F(s, f), F(t, f);
             && b == a.(life := b.life, events := b.events, parent := b.parent, hash := b.hash, encoded := b.encoded)
             && 3 <= Age(a.life) && 3 <= Age(b.life)
             && (Calm(a.life, b.life) || plan[f].up.None? || plan[f].up.value >= |s.frames|)
    requires LinkOk(F(t, f), plan[f].up, LinkOf(plan, s, f))
    ensures Rendezvous(c, plan, t)
  {
    hide LinkOf, LinkOk, FrameOk;
    assert s.frames[f := F(t, f)][f := F(t, f)] == s.frames[f := F(t, f)];
    OwnFrame(c, plan, s, t, f, f);
    OthersKept(c, plan, s, t, f, f);
  }

  /** What the frame of a busy worker is known to be. */
  lemma BusyFrame(c: Config, plan: Plan, s: State, f: nat)
    requires Parents(c, plan) && Rendezvous(c, plan, s) && f < |s.frames|
    ensures LinkOk(F(s, f), plan[f].up, LinkOf(plan, s, f))
    ensures plan[f].up.Some? ==> f < plan[f].up.value < |plan|
    ensures !LinkOf(plan, s, f).Unset? ==> plan[f].up.Some? && plan[f].up.value < |s.frames|
    ensures plan[f].up.Some? && plan[f].up.value < |s.frames| ==>
      var p := plan[f].up.value;
      && WakeOk(F(s, p), p, f, F(s, f).life)
      && (!F(s, p).built ==> Pos(s, p) <= 6)
  {
    assert FrameOk(c, plan, s, f) && ParentOk(c, plan, f);
    if plan[f].up.Some? && plan[f].up.value < |s.frames| {
      assert FrameOk(c, plan, s, plan[f].up.value);
    }
    hide LinkOk, LeafOk, WakeOk, MainClaims;
  }

  predicate OwnOnly(at: WorkerStep) {
    at.Hash? || at.ReadParent? || at.WriteRoot? || at.PushWrite? || at.DoneGroup?
  }

  lemma OwnKeeps(c: Config, plan: Plan, s: State, w: nat, f: nat, at: WorkerStep)
    requires Parents(c, plan) && Rendezvous(c, plan, s) && f < |s.frames| && F(s, f).life == Busy(w, at) && OwnOnly(at)
    ensures Rendezvous(c, plan, WorkerOn(c, s, w, f, at))
  {
    BusyFrame(c, plan, s, f);
    hide HashOf, BytesOf, KeyAt, LinkOf, Pos, FrameOk, IsLeaf;
    LoneStep(c, plan, s, WorkerOn(c, s, w, f, at), f);
  }

  lemma AddEventKeeps(c: Config, plan: Plan, s: State, w: nat, f: nat)
    requires Parents(c, plan) && Rendezvous(c, plan, s) && f < |s.frames| && F(s, f).life == Busy(w, AddEvent)
    ensures Rendezvous(c, plan, WorkerOn(c, s, w, f, AddEvent))
  {
    var t := WorkerOn(c, s, w, f, AddEvent);
    BusyFrame(c, plan, s, f);
    hide HashOf, BytesOf, KeyAt, LinkOf, Pos, FrameOk, IsLeaf;
    if plan[f].up.Some? && plan[f].up.value < |s.frames| {
      FairStep(c, plan, s, t, f, plan[f].up.value);
    } else {
      LoneStep(c, plan, s, t, f);
    }
  }

  lemma TakeParentKeeps(c: Config, plan: Plan, s: State, w: nat, f: nat)
    requires Parents(c, plan) && Rendezvous(c, plan, s) && f < |s.frames| && F(s, f).life == Busy(w, TakeParent)
    ensures Rendezvous(c, plan, WorkerOn(c, s, w, f, TakeParent))
  {
    BusyFrame(c, plan, s, f);
    hide HashOf, BytesOf, KeyAt, LinkOf, Pos, FrameOk, IsLeaf;
    FairStep(c, plan, s, WorkerOn(c, s, w, f, TakeParent), f, plan[f].up.value);
  }

  lemma DecPendingKeeps(c: Config, plan: Plan, s: State, w: nat, f: nat, p: nat)
    requires Parents(c, plan) && Rendezvous(c, plan, s) && f < |s.frames| && F(s, f).life == Busy(w, DecPending(p))
    ensures Rendezvous(c, plan, WorkerOn(c, s, w, f, DecPending(p)))
  {
    BusyFrame(c, plan, s, f);
    hide HashOf, BytesOf, KeyAt, LinkOf, Pos, FrameOk, IsLeaf;
    FairStep(c, plan, s, WorkerOn(c, s, w, f, DecPending(p)), f, p);
  }

  lemma LoadBuiltKeeps(c: Config, plan: Plan, s: State, w: nat, f: nat, p: nat)
    requires Parents(c, plan) && Rendezvous(c, plan, s) && f < |s.frames| && F(s, f).life == Busy(w, LoadBuilt(p))
    ensures Rendezvous(c, plan, WorkerOn(c, s, w, f, LoadBuilt(p)))
  {
    BusyFrame(c, plan, s, f);
    hide HashOf, BytesOf, KeyAt, LinkOf, Pos, FrameOk, IsLeaf;
    FairStep(c, plan, s, WorkerOn(c, s, w, f, LoadBuilt(p)), f, p);
  }

  lemma CasKeeps(c: Config, plan: Plan, s: State, w: nat, f: nat, p: nat)
    requires Parents(c, plan) && Rendezvous(c, plan, s) && f < |s.frames| && F(s, f).life == Busy(w, CasSubmitted(p))
    ensures Rendezvous(c, plan, WorkerOn(c, s, w, f, CasSubmitted(p)))
  {
    BusyFrame(c, plan, s, f);
    hide HashOf, BytesOf, KeyAt, LinkOf, Pos, FrameOk, IsLeaf;
    FairStep(c, plan, s, WorkerOn(c, s, w, f, CasSubmitted(p)), f, p);
  }

  lemma SubmitKeeps(c: Config, plan: Plan, s: State, w: nat, f: nat, at: WorkerStep)
    requires Parents(c, plan) && Rendezvous(c, plan, s) && f < |s.frames| && F(s, f).life == Busy(w, at)
    requires at.AddGroup? || at.Enqueue?
    ensures Rendezvous(c, plan, WorkerOn(c, s, w, f, at))
  {
    BusyFrame(c, plan, s, f);
    hide HashOf, BytesOf, KeyAt, LinkOf, Pos, FrameOk, IsLeaf;
    FairStep(c, plan, s, WorkerOn(c, s, w, f, at), f, at.p);
  }

  /** Every step of a worker on its frame keeps the rendezvous. */
  lemma WorkerKeeps(c: Config, plan: Plan, s: State, w: nat, f: nat, at: WorkerStep)
    requires Parents(c, plan) && Rendezvous(c, plan, s) && f < |s.frames| && F(s, f).life == Busy(w, at)
    ensures Rendezvous(c, plan, WorkerOn(c, s, w, f, at))
  {
    hide Parents, Rendezvous, WorkerOn;
    match at {
      case AddEvent => AddEventKeeps(c, plan, s, w, f);
      case TakeParent => TakeParentKeeps(c, plan, s, w, f);
      case DecPending(p) => DecPendingKeeps(c, plan, s, w, f, p);
      case LoadBuilt(p) => LoadBuiltKeeps(c, plan, s, w, f, p);
      case CasSubmitted(p) => CasKeeps(c, plan, s, w, f, p);
      case AddGroup(p) => SubmitKeeps(c, plan, s, w, f, at);
      case Enqueue(p) => SubmitKeeps(c, plan, s, w, f, at);
      case _ => OwnKeeps(c, plan, s, w, f, at);
    }
  }

  /** The dispatcher and an idle worker pass a frame on; nobody waiting for it can tell. */
  lemma PassOn(c: Config, plan: Plan, s: State, t: State, f: nat)
    requires Parents(c, plan) && Rendezvous(c, plan, s) && f < |s.frames| && t.main == s.main
    requires t.frames == s.frames[f := F(s, f).(life := F(t, f).life)]
    requires 3 <= Age(F(s, f).life) <= 5 && 4 <= Age(F(t, f).life) <= 6
    ensures Rendezvous(c, plan, t)
  {
    BusyFrame(c, plan, s, f);
    hide LinkOf, Pos, FrameOk, IsLeaf;
    LoneStep(c, plan, s, t, f);
  }
}
