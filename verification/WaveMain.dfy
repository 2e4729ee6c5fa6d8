/** The rendezvous of children with their parents survives every step of main. */
module WaveMain {
  import opened Bytes
  import opened IavlEncoding
  import opened IavlTree
  import opened WaveState
  import opened WaveInvariant

  /** Main works on frame f before and after the step, or is done with it after. */
  predicate MainMoves(s: State, t: State, f: nat) {
    && s.main.On? && s.main.f == f && f + 1 == |s.frames| == |t.frames|
    && (t.main == Next || (t.main.On? && t.main.f == f))
  }

  /** A frame other than f keeps all but its parent pointer and its events. */
  predicate Relinked(plan: Plan, s: State, t: State, f: nat, j: nat)
    requires j < |s.frames| == |t.frames| && j < |plan|
  {
    || (t.frames[j] == s.frames[j] && plan[j].up != Some(f))
    || (t.frames[j] == s.frames[j].(parent := t.frames[j].parent, events := t.frames[j].events)
        && LinkOk(t.frames[j], plan[j].up, LinkOf(plan, t, j)))
  }

  lemma OtherLinks(plan: Plan, s: State, t: State, f: nat, i: nat)
    requires MainMoves(s, t, f) && i < |plan| && plan[i].up != Some(f)
    ensures LinkOf(plan, s, i) == LinkOf(plan, t, i)
  {}

  lemma OtherKept(c: Config, plan: Plan, s: State, t: State, f: nat, j: nat)
    requires Parents(c, plan) && Rendezvous(c, plan, s) && MainMoves(s, t, f)
    requires j < |s.frames| && j != f
    requires Relinked(plan, s, t, f, j)
    requires forall i: nat :: i < j ==> t.frames[i].life == s.frames[i].life
    ensures FrameOk(c, plan, t, j)
  {
    assert FrameOk(c, plan, s, j) && ParentOk(c, plan, j);
    assert Pos(s, j) == Pos(t, j);
    if plan[j].up != Some(f) {
      OtherLinks(plan, s, t, f, j);
    }
    if !IsLeaf(c, j) {
      OtherLinks(plan, s, t, f, plan[j].left);
      OtherLinks(plan, s, t, f, plan[j].right);
    }
    hide LinkOf, Pos, IsLeaf, LinkOk, InnerOk;
  }

  /** Frame f has no parent yet, so nothing is owed to one. */
  lemma NoParentYet(c: Config, plan: Plan, s: State, f: nat)
    requires Parents(c, plan) && f < |plan| && |s.frames| <= f + 1
    ensures LinkOf(plan, s, f).Unset?
  {
    assert ParentOk(c, plan, f);
  }

  lemma MainStepKeeps(c: Config, plan: Plan, s: State, t: State, f: nat)
    requires Parents(c, plan) && Rendezvous(c, plan, s) && MainMoves(s, t, f)
    requires forall j: nat :: j < f ==> t.frames[j].life == s.frames[j].life && Relinked(plan, s, t, f, j)
    requires FrameOk(c, plan, t, f)
    ensures Rendezvous(c, plan, t)
  {
    hide FrameOk, Parents, Relinked;
    forall j: nat | j < |t.frames| ensures FrameOk(c, plan, t, j) {
      if j != f {
        OtherKept(c, plan, s, t, f, j);
      }
    }
  }

  /** What main knows about the inner frame it works on. */
  lemma InnerNow(c: Config, plan: Plan, s: State, f: nat)
    requires Parents(c, plan) && Rendezvous(c, plan, s) && s.main.On? && s.main.f == f && f + 1 == |s.frames|
    ensures ParentOk(c, plan, f) && F(s, f).size == plan[f].size
    ensures LinkOk(F(s, f), plan[f].up, Unset)
    ensures if IsLeaf(c, f) then LeafOk(F(s, f), Order(s.main.m)) else
      var l, r, p := plan[f].left, plan[f].right, Order(s.main.m);
      && F(s, f).left == l && F(s, f).right == r
      && InnerOk(F(s, f), p, f, l, F(s, l).life, LinkAt(true, p), r, F(s, r).life, LinkAt(false, p))
      && LinkOk(F(s, l), Some(f), LinkAt(true, p)) && LinkOk(F(s, r), Some(f), LinkAt(false, p))
  {
    NoParentYet(c, plan, s, f);
    assert FrameOk(c, plan, s, f) && ParentOk(c, plan, f);
    if !IsLeaf(c, f) {
      assert FrameOk(c, plan, s, plan[f].left) && FrameOk(c, plan, s, plan[f].right);
    }
    hide InnerOk, LinkOk, LeafOk;
  }

  /** The inner frame after main has moved to the step of order p (12: done). */
  lemma InnerThen(c: Config, plan: Plan, t: State, f: nat, p: int)
    requires Parents(c, plan) && f < |plan| && f + 1 == |t.frames| && Pos(t, f) == p && !IsLeaf(c, f)
    requires F(t, f).size == plan[f].size && LinkOk(F(t, f), plan[f].up, Unset)
    requires F(t, f).left == plan[f].left && F(t, f).right == plan[f].right
    requires InnerOk(F(t, f), p, f, plan[f].left, F(t, plan[f].left).life, LinkAt(true, p),
                     plan[f].right, F(t, plan[f].right).life, LinkAt(false, p))
    ensures FrameOk(c, plan, t, f)
    ensures LinkOf(plan, t, plan[f].left) == LinkAt(true, p)
    ensures LinkOf(plan, t, plan[f].right) == LinkAt(false, p)
  {
    NoParentYet(c, plan, t, f);
    assert ParentOk(c, plan, f);
    hide InnerOk, LinkOk, LeafOk;
  }

  /** A step of main on an inner frame f, its children l and r: what is left to check about the three. */
  lemma InnerMoves(c: Config, plan: Plan, s: State, t: State, f: nat, l: nat, r: nat, p: int)
    requires Parents(c, plan) && Rendezvous(c, plan, s) && MainMoves(s, t, f) && !IsLeaf(c, f)
    requires l == plan[f].left && r == plan[f].right && Pos(t, f) == p
    requires forall j: nat :: j < f && j != l && j != r ==> t.frames[j] == s.frames[j]
    requires l < r < f
    requires F(t, l) == F(s, l).(parent := F(t, l).parent, events := F(t, l).events)
    requires F(t, r) == F(s, r).(parent := F(t, r).parent, events := F(t, r).events)
    requires LinkOk(F(t, l), Some(f), LinkAt(true, p)) && LinkOk(F(t, r), Some(f), LinkAt(false, p))
    requires F(t, f) == F(s, f).(pending := F(t, f).pending, built := F(t, f).built, life := F(t, f).life)
    requires LinkOk(F(t, f), plan[f].up, Unset)
    requires InnerOk(F(t, f), p, f, l, F(s, l).life, LinkAt(true, p), r, F(s, r).life, LinkAt(false, p))
    ensures Rendezvous(c, plan, t)
  {
    InnerNow(c, plan, s, f);
    hide InnerOk, LinkOk, LinkAt, LeafOk, Pos;
    InnerThen(c, plan, t, f, p);
    hide LinkOf, FrameOk;
    forall j: nat | j < f ensures t.frames[j].life == s.frames[j].life && Relinked(plan, s, t, f, j) {
      assert ParentOk(c, plan, j);
    }
    MainStepKeeps(c, plan, s, t, f);
  }

  lemma SetParentKeeps(c: Config, plan: Plan, s: State, f: nat, m: MainStep)
    requires Parents(c, plan) && Rendezvous(c, plan, s) && s.main == On(f, m) && f + 1 == |s.frames| && !IsLeaf(c, f)
    requires m == SetLeft || m == SetRight
    ensures Rendezvous(c, plan, MainOn(c, s, f, m))
  {
    InnerNow(c, plan, s, f);
    hide IsLeaf, FrameOk, Rendezvous, Parents;
    InnerMoves(c, plan, s, MainOn(c, s, f, m), f, plan[f].left, plan[f].right, Order(m) + 1);
  }

  lemma EventKeeps(c: Config, plan: Plan, s: State, f: nat, m: MainStep)
    requires Parents(c, plan) && Rendezvous(c, plan, s) && s.main == On(f, m) && f + 1 == |s.frames| && !IsLeaf(c, f)
    requires m == EventLeft || m == EventRight
    ensures Rendezvous(c, plan, MainOn(c, s, f, m))
  {
    InnerNow(c, plan, s, f);
    hide IsLeaf, FrameOk, Rendezvous, Parents;
    var t := MainOn(c, s, f, m);
    InnerMoves(c, plan, s, t, f, plan[f].left, plan[f].right, Order(t.main.m));
  }

  lemma DecKeeps(c: Config, plan: Plan, s: State, f: nat, m: MainStep)
    requires Parents(c, plan) && Rendezvous(c, plan, s) && s.main == On(f, m) && f + 1 == |s.frames| && !IsLeaf(c, f)
    requires m == DecLeft || m == DecRight
    ensures Rendezvous(c, plan, MainOn(c, s, f, m))
  {
    InnerNow(c, plan, s, f);
    hide IsLeaf, FrameOk, Rendezvous, Parents;
    InnerMoves(c, plan, s, MainOn(c, s, f, m), f, plan[f].left, plan[f].right, Order(m) + 1);
  }

  lemma BuildKeeps(c: Config, plan: Plan, s: State, f: nat, m: MainStep)
    requires Parents(c, plan) && Rendezvous(c, plan, s) && s.main == On(f, m) && f + 1 == |s.frames| && !IsLeaf(c, f)
    requires m == StoreBuilt || m == LoadPending || m == PushStack
    ensures Rendezvous(c, plan, MainOn(c, s, f, m))
  {
    InnerNow(c, plan, s, f);
    hide IsLeaf, FrameOk, Rendezvous, Parents;
    var t := MainOn(c, s, f, m);
    InnerMoves(c, plan, s, t, f, plan[f].left, plan[f].right, Pos(t, f));
  }

  /** Main claims, counts or enqueues an inner frame: only its life changes, and its children do not care. */
  lemma SubmitView(fr: ParFrame, gr: ParFrame, pos: int, next: int, j: nat, il: nat, l: Life, ir: nat, r: Life)
    requires InnerOk(fr, pos, j, il, l, LinkAt(true, pos), ir, r, LinkAt(false, pos))
    requires 8 <= pos <= 10 && gr == fr.(life := gr.life)
    requires
      || (pos == 8 && next == 9 && fr.life.Unsubmitted? && gr.life == Claimed(ByMain))
      || (pos == 8 && next == 11 && !fr.life.Unsubmitted? && gr.life == fr.life)
      || (pos == 9 && next == 10 && gr.life == Counted(ByMain))
      || (pos == 10 && next == 11 && gr.life == Queued)
    ensures InnerOk(gr, next, j, il, l, LinkAt(true, next), ir, r, LinkAt(false, next))
  {}

  /** What such a step does to the frame and to main's place. */
  lemma SubmitEffect(c: Config, s: State, f: nat, m: MainStep)
    requires s.main == On(f, m) && f + 1 == |s.frames| && !IsLeaf(c, f)
    requires m == MainCas || m == MainAdd || m == MainEnqueue
    ensures var t := MainOn(c, s, f, m);
            var a, b, next := F(s, f), F(t, f), Pos(t, f);
            && b == a.(life := b.life)
            && (|| (m == MainCas && next == 9 && a.life.Unsubmitted? && b.life == Claimed(ByMain))
                || (m == MainCas && next == 11 && !a.life.Unsubmitted? && b.life == a.life)
                || (m == MainAdd && next == 10 && b.life == Counted(ByMain))
                || (m == MainEnqueue && next == 11 && b.life == Queued))
  {}

  lemma SubmitInnerSees(c: Config, plan: Plan, s: State, f: nat, m: MainStep)
    requires Parents(c, plan) && Rendezvous(c, plan, s) && s.main == On(f, m) && f + 1 == |s.frames| && !IsLeaf(c, f)
    requires m == MainCas || m == MainAdd || m == MainEnqueue
    ensures var t := MainOn(c, s, f, m);
            var p, l, r := Pos(t, f), plan[f].left, plan[f].right;
            && LinkOk(F(t, f), plan[f].up, Unset)
            && InnerOk(F(t, f), p, f, l, F(s, l).life, LinkAt(true, p), r, F(s, r).life, LinkAt(false, p))
            && LinkOk(F(s, l), Some(f), LinkAt(true, p)) && LinkOk(F(s, r), Some(f), LinkAt(false, p))
            && l < r < f
  {
    InnerNow(c, plan, s, f);
    var t := MainOn(c, s, f, m);
    var l, r := plan[f].left, plan[f].right;
    SubmitEffect(c, s, f, m);
    hide Rendezvous, Parents, InnerOk, MainOn, FrameOk, IsLeaf;
    SubmitView(F(s, f), F(t, f), Order(m), Pos(t, f), f, l, F(s, l).life, r, F(s, r).life);
  }

  lemma SubmitInnerKeeps(c: Config, plan: Plan, s: State, f: nat, m: MainStep)
    requires Parents(c, plan) && Rendezvous(c, plan, s) && s.main == On(f, m) && f + 1 == |s.frames| && !IsLeaf(c, f)
    requires m == MainCas || m == MainAdd || m == MainEnqueue
    ensures Rendezvous(c, plan, MainOn(c, s, f, m))
  {
    var t := MainOn(c, s, f, m);
    SubmitInnerSees(c, plan, s, f, m);
    hide FrameOk, Rendezvous, Parents, InnerOk, LinkOk, Pos, LinkAt, IsLeaf;
    assert MainMoves(s, t, f);
    InnerMoves(c, plan, s, t, f, plan[f].left, plan[f].right, Pos(t, f));
  }

  lemma SubmitLeafKeeps(c: Config, plan: Plan, s: State, f: nat, m: MainStep)
    requires Parents(c, plan) && Rendezvous(c, plan, s) && s.main == On(f, m) && f + 1 == |s.frames| && IsLeaf(c, f)
    requires m == MainCas || m == MainAdd || m == MainEnqueue
    ensures Rendezvous(c, plan, MainOn(c, s, f, m))
  {
    InnerNow(c, plan, s, f);
    var t := MainOn(c, s, f, m);
    NoParentYet(c, plan, t, f);
    assert FrameOk(c, plan, t, f);
    forall j: nat | j < f ensures Relinked(plan, s, t, f, j) {
      assert ParentOk(c, plan, j);
    }
    hide FrameOk, Rendezvous, Parents;
    MainStepKeeps(c, plan, s, t, f);
  }

  /** Every step of main on a frame keeps the rendezvous. */
  lemma MainOnKeeps(c: Config, plan: Plan, s: State, f: nat, m: MainStep)
    requires Parents(c, plan) && Rendezvous(c, plan, s) && s.main == On(f, m) && f + 1 == |s.frames|
    ensures Rendezvous(c, plan, MainOn(c, s, f, m))
  {
    if IsLeaf(c, f) {
      InnerNow(c, plan, s, f);
      hide *;
      SubmitLeafKeeps(c, plan, s, f, m);
    } else {
      hide *;
      match m {
        case SetLeft => SetParentKeeps(c, plan, s, f, m);
        case SetRight => SetParentKeeps(c, plan, s, f, m);
        case EventLeft => EventKeeps(c, plan, s, f, m);
        case EventRight => EventKeeps(c, plan, s, f, m);
        case DecLeft => DecKeeps(c, plan, s, f, m);
        case DecRight => DecKeeps(c, plan, s, f, m);
        case StoreBuilt => BuildKeeps(c, plan, s, f, m);
        case LoadPending => BuildKeeps(c, plan, s, f, m);
        case PushStack => BuildKeeps(c, plan, s, f, m);
        case _ => SubmitInnerKeeps(c, plan, s, f, m);
      }
    }
  }

  // ---------- a new frame ----------

  /** Main creates frame k, which is a leaf to submit or an inner frame to link. */
  predicate Grows(c: Config, plan: Plan, s: State, t: State) {
    var k := |s.frames|;
    && s.main == Next && k < |plan|
    && t.main == On(k, if IsLeaf(c, k) then MainCas else SetLeft)
    && t.frames == s.frames + [if IsLeaf(c, k) then NewFrame(0, 0, 1, 0)
                               else NewFrame(plan[k].left, plan[k].right, plan[k].size, 2)]
    && (IsLeaf(c, k) ==> plan[k].size == 1)
  }

  lemma GrowsLinks(c: Config, plan: Plan, s: State, t: State, i: nat)
    requires Parents(c, plan) && Grows(c, plan, s, t) && i < |plan|
    ensures LinkOf(plan, s, i) == LinkOf(plan, t, i)
    ensures i < |s.frames| ==> Pos(s, i) == Pos(t, i)
  {
    assert ParentOk(c, plan, i);
  }

  lemma GrowsOld(c: Config, plan: Plan, s: State, t: State, j: nat)
    requires Parents(c, plan) && Rendezvous(c, plan, s) && Grows(c, plan, s, t) && j < |s.frames|
    ensures FrameOk(c, plan, t, j)
  {
    assert FrameOk(c, plan, s, j) && ParentOk(c, plan, j);
    GrowsLinks(c, plan, s, t, j);
    if !IsLeaf(c, j) {
      GrowsLinks(c, plan, s, t, plan[j].left);
      GrowsLinks(c, plan, s, t, plan[j].right);
    }
    hide LinkOf, Pos, IsLeaf, LinkOk, InnerOk, LeafOk;
  }

  lemma GrowsNew(c: Config, plan: Plan, s: State, t: State)
    requires Parents(c, plan) && Rendezvous(c, plan, s) && Grows(c, plan, s, t)
    ensures FrameOk(c, plan, t, |s.frames|)
  {
    var k := |s.frames|;
    assert ParentOk(c, plan, k);
    NoParentYet(c, plan, t, k);
    if !IsLeaf(c, k) {
      var l, r := plan[k].left, plan[k].right;
      assert FrameOk(c, plan, s, l) && FrameOk(c, plan, s, r);
      GrowsLinks(c, plan, s, t, l);
      GrowsLinks(c, plan, s, t, r);
      assert LinkOf(plan, s, l).Unset? && LinkOf(plan, s, r).Unset?;
      hide LinkOf, LeafOk;
    }
  }

  lemma GrowsKeeps(c: Config, plan: Plan, s: State, t: State)
    requires Parents(c, plan) && Rendezvous(c, plan, s) && Grows(c, plan, s, t)
    ensures Rendezvous(c, plan, t)
  {
    hide FrameOk, Parents, IsLeaf;
    forall j: nat | j < |t.frames| ensures FrameOk(c, plan, t, j) {
      if j < |s.frames| {
        GrowsOld(c, plan, s, t, j);
      } else {
        GrowsNew(c, plan, s, t);
      }
    }
  }

  // ---------- the stack ----------

  /** The two topmost roots, when there are two. */
  lemma StackTop(c: Config, plan: Plan, stack: seq<nat>, k: nat)
    requires StackOk(plan, stack, k) && k <= |plan|
    ensures |stack| >= 2 <==> k > 0 && plan[k - 1].lo > 0
    ensures k > 0 ==> stack != [] && stack[|stack| - 1] == k - 1
    ensures |stack| >= 2 ==>
      var lo := plan[k - 1].lo;
      && 0 < lo <= |plan| && stack[|stack| - 2] == lo - 1
      && StackOk(plan, stack[..|stack| - 2], plan[lo - 1].lo)
    ensures |stack| == 1 ==> stack == [k - 1]
  {
    if k > 0 {
      var lower := stack[..|stack| - 1];
      assert StackOk(plan, lower, plan[k - 1].lo);
      if |stack| >= 2 {
        assert lower[..|lower| - 1] == stack[..|stack| - 2];
      }
    }
  }

  lemma StackPush(plan: Plan, stack: seq<nat>, f: nat)
    requires f < |plan| && StackOk(plan, stack, plan[f].lo)
    ensures StackOk(plan, stack + [f], f + 1)
  {
    assert (stack + [f])[..|stack|] == stack;
  }

  lemma NextEnds(c: Config, plan: Plan, s: State)
    requires EndsWell(c, plan) && Stacked(c, plan, s) && s.main == Next && |s.frames| == |plan|
    ensures MainNext(c, s) == if |plan| == |c.items| then s.(main := WaitHash) else s.(main := Failed)
  {
    StackTop(c, plan, s.parStack, |s.frames|);
    hide FastEntry, StackOk;
  }

  lemma NextLeaf(c: Config, plan: Plan, s: State)
    requires EndsWell(c, plan) && Cells(c, plan) && Stacked(c, plan, s) && s.main == Next
    requires |s.frames| < |plan| && IsLeaf(c, |s.frames|)
    ensures Grows(c, plan, s, MainNext(c, s)) && Stacked(c, plan, MainNext(c, s))
  {
    var k := |s.frames|;
    assert WfCell(c, plan, k);
    hide FastEntry, StackOk;
    StackPush(plan, s.parStack, k);
  }

  lemma InnerCell(c: Config, plan: Plan, k: nat)
    requires Cells(c, plan) && k < |plan| && !IsLeaf(c, k)
    ensures var l, r := plan[k].left, plan[k].right;
            && l < r < k && r == k - 1
            && l + 1 == plan[r].lo && plan[k].lo == plan[l].lo
            && Item(c, l).node.height < Item(c, k).node.height && Item(c, r).node.height < Item(c, k).node.height
            && plan[k].size == Wrap64(plan[l].size + plan[r].size)
  {
    hide Wrap64, FastEntry, InnerHash, EncodeInner, Item;
    assert WfCell(c, plan, k);
  }

  lemma TopTwo(c: Config, plan: Plan, stack: seq<nat>, k: nat)
    requires Cells(c, plan) && StackOk(plan, stack, k) && k < |plan| && !IsLeaf(c, k)
    ensures var n := |stack|;
            && n >= 2 && stack[n - 2] == plan[k].left && stack[n - 1] == plan[k].right
            && ClosesPairPar(c, stack, Item(c, k).node.height)
            && StackOk(plan, stack[..n - 2], plan[k].lo)
  {
    hide StackOk, Cells, Item, IsLeaf, Wrap64;
    InnerCell(c, plan, k);
    StackTop(c, plan, stack, k);
  }

  lemma NextInner(c: Config, plan: Plan, s: State)
    requires EndsWell(c, plan) && Cells(c, plan) && Stacked(c, plan, s) && s.main == Next
    requires Rendezvous(c, plan, s)
    requires |s.frames| < |plan| && !IsLeaf(c, |s.frames|)
    ensures Grows(c, plan, s, MainNext(c, s)) && Stacked(c, plan, MainNext(c, s))
  {
    var k := |s.frames|;
    TopTwo(c, plan, s.parStack, k);
    InnerCell(c, plan, k);
    assert F(s, plan[k].left).size == plan[plan[k].left].size
      && F(s, plan[k].right).size == plan[plan[k].right].size by {
      assert FrameOk(c, plan, s, plan[k].left) && FrameOk(c, plan, s, plan[k].right);
      hide LinkOk, InnerOk, LeafOk;
    }
    hide FastEntry, StackOk, Wrap64, ClosesPairPar, Rendezvous, Cells, FrameOk, EndsWell;
  }
}
