/** What holds in every reachable state of the wave-parallel importer. A plan lists, for every item that the
    stream discipline accepts, what the sequential importer would compute for it; the invariant compares a
    state with the plan, frame by frame. */
module WaveInvariant {
  import opened Bytes
  import opened IavlEncoding
  import opened IavlTree
  import opened WaveState

  // ---------- plans ----------

  /** The node of one item: its children, its parent, the first item of its subtree, and its results. The
      field fast is the database after the fast-storage entries of the items up to this one. */
  datatype Cell = Cell(
    left: nat, right: nat, up: Option<nat>, lo: nat,
    size: int64, hash: Hash32, encoded: bytes, fast: Entries)

  type Plan = seq<Cell>

  predicate IsLeaf(c: Config, j: nat) {
    Item(c, j).node.height == 0
  }

  /** Children and parents point at each other. */
  predicate ParentOk(c: Config, plan: Plan, j: nat)
    requires j < |plan|
  {
    var p := plan[j];
    && (!IsLeaf(c, j) ==> p.left < p.right < j && plan[p.left].up == Some(j) && plan[p.right].up == Some(j))
    && (p.up.Some? ==>
        var u := p.up.value;
        j < u < |plan| && !IsLeaf(c, u) && (plan[u].left == j || plan[u].right == j))
  }

  ghost predicate Parents(c: Config, plan: Plan) {
    forall j: nat :: j < |plan| ==> ParentOk(c, plan, j)
  }

  function FastBefore(c: Config, plan: Plan, k: nat): Entries
    requires k <= |plan|
  {
    if k == 0 then c.before else plan[k - 1].fast
  }

  predicate WfLeaf(c: Config, plan: Plan, j: nat)
    requires j < |plan|
  {
    var x := Item(c, j).node;
    && plan[j].lo == j && plan[j].size == 1
    && plan[j].hash == LeafHash(c.sha, x.version, x.key, x.value)
    && plan[j].encoded == EncodeLeaf(x.key, x.value)
  }

  predicate WfInner(c: Config, plan: Plan, j: nat)
    requires j < |plan|
  {
    var x, p := Item(c, j).node, plan[j];
    && p.left < p.right < j && p.right == j - 1
    && p.left + 1 == plan[p.right].lo && p.lo == plan[p.left].lo
    && Item(c, p.left).node.height < x.height && Item(c, p.right).node.height < x.height
    && p.size == Wrap64(plan[p.left].size + plan[p.right].size)
    && p.hash == InnerHash(c.sha, x.version, x.height, p.size, plan[p.left].hash, plan[p.right].hash)
    && p.encoded == EncodeInner(x.height, p.size, x.key, p.hash,
                                Item(c, p.left).node.version, Item(c, p.left).nonce,
                                Item(c, p.right).node.version, Item(c, p.right).nonce)
  }

  ghost predicate WfCell(c: Config, plan: Plan, j: nat)
    requires j < |plan|
  {
    && plan[j].lo <= j
    && (if IsLeaf(c, j) then WfLeaf(c, plan, j) else WfInner(c, plan, j))
    && plan[j].fast == FastEntry(c.prefix, Item(c, j).node, FastBefore(c, plan, j))
  }

  /** The item after the plan, if any, is an inner item that closes no pair. */
  predicate EndsWell(c: Config, plan: Plan) {
    var k := |plan|;
    && k <= |c.items|
    && (k < |c.items| ==>
        && !IsLeaf(c, k)
        && (k > 0 && plan[k - 1].lo > 0 ==>
            || Item(c, k - 1).node.height >= Item(c, k).node.height
            || Item(c, plan[k - 1].lo - 1).node.height >= Item(c, k).node.height))
  }

  ghost predicate Cells(c: Config, plan: Plan) {
    forall j: nat :: j < |plan| ==> WfCell(c, plan, j)
  }

  ghost predicate FastApart(c: Config, plan: Plan) {
    forall i: nat, j: nat :: i < |plan| && j < |plan| ==> KeyAt(c, i) != FastKey(c.prefix, Item(c, j).node.key)
  }

  ghost predicate WfPlan(c: Config, plan: Plan) {
    EndsWell(c, plan) && Cells(c, plan) && Parents(c, plan) && FastApart(c, plan)
  }

  // ---------- where threads stand ----------

  function Order(m: MainStep): nat {
    match m
    case SetLeft => 0
    case SetRight => 1
    case EventLeft => 2
    case DecLeft => 3
    case EventRight => 4
    case DecRight => 5
    case StoreBuilt => 6
    case LoadPending => 7
    case MainCas => 8
    case MainAdd => 9
    case MainEnqueue => 10
    case PushStack => 11
  }

  /** Main's position relative to frame j: -1 before the frame exists, 12 after main is done with it. */
  function Pos(s: State, j: nat): int {
    if j >= |s.frames| then -1
    else if s.main.On? && s.main.f == j then Order(s.main.m)
    else 12
  }

  function StepOrder(at: WorkerStep): nat {
    match at
    case Hash => 6
    case ReadParent => 7
    case WriteRoot => 8
    case PushWrite => 9
    case AddEvent => 10
    case TakeParent => 11
    case DecPending(_) => 12
    case LoadBuilt(_) => 13
    case CasSubmitted(_) => 14
    case AddGroup(_) => 15
    case Enqueue(_) => 16
    case DoneGroup => 17
  }

  function Age(l: Life): nat {
    match l
    case Unsubmitted => 0
    case Claimed(_) => 1
    case Counted(_) => 2
    case Queued => 3
    case Held => 4
    case InReady => 5
    case Busy(_, at) => StepOrder(at)
    case Processed => 18
  }

  predicate IsHashed(l: Life) { Age(l) > 6 }
  predicate PastRoot(l: Life) { Age(l) > 8 }
  predicate Wrote(l: Life) { Age(l) > 9 }
  /** The worker has added its event. */
  predicate Fired(l: Life) { Age(l) > 10 }
  /** Counted in the wait-group. */
  predicate Active(l: Life) { 2 <= Age(l) <= 17 }

  // ---------- the rendezvous of a child with its parent ----------

  /** Main's progress in linking a child: parent pointer unset, set, event added but the decrement still
      due, done. */
  datatype Link = Unset | Set | Owes | Linked

  function LinkAt(isLeft: bool, pos: int): Link {
    if isLeft then (if pos <= 0 then Unset else if pos <= 2 then Set else if pos == 3 then Owes else Linked)
    else (if pos <= 1 then Unset else if pos <= 4 then Set else if pos == 5 then Owes else Linked)
  }

  function LinkOf(plan: Plan, s: State, i: nat): Link {
    if i < |plan| && plan[i].up.Some? && plan[i].up.value < |plan| then
      LinkAt(plan[plan[i].up.value].left == i, Pos(s, plan[i].up.value))
    else Unset
  }


  /** A child's counter, parent pointer and worker agree with main's progress. */
  predicate LinkOk(fr: ParFrame, up: Option<nat>, link: Link) {
    var a := Age(fr.life);
    && fr.events == (if link.Owes? || link.Linked? then 1 else 0) + (if a > 10 then 1 else 0)
    && (a <= 11 ==> fr.parent == if link.Unset? then None else up)
    && (a == 11 ==> link.Linked?)
    && (11 < a < 17 ==> up == Some(fr.life.at.p) && link.Linked?)
    && (a > 10 && !link.Linked? ==> a >= 17)
    && (link.Owes? ==> a >= 17)
  }

  /** Somebody has decremented the parent's counter on behalf of this child. */
  predicate Dropped(l: Life, link: Link) {
    link.Linked? && Age(l) > 12
  }

  function One(b: bool): int { if b then 1 else 0 }

  /** What a child's worker knows about the parent j that it is about to submit. */
  predicate WakeOk(fr: ParFrame, j: nat, i: nat, child: Life) {
    var a := Age(child);
    && (13 <= a <= 16 ==> fr.pending == 0)
    && (a == 14 ==> fr.built)
    && (a == 15 <==> fr.life == Claimed(ByChild(i)))
    && (a == 16 <==> fr.life == Counted(ByChild(i)))
  }

  predicate Waking(l: Life) { Age(l) == 13 || Age(l) == 14 }

  predicate MainClaims(fr: ParFrame, pos: int) {
    && (pos == 9 <==> fr.life == Claimed(ByMain))
    && (pos == 10 <==> fr.life == Counted(ByMain))
  }

  predicate LeafOk(fr: ParFrame, pos: int) {
    && MainClaims(fr, pos)
    && (fr.life.Unsubmitted? <==> pos == 8)
    && (fr.life.Claimed? || fr.life.Counted? ==> fr.life.who == ByMain)
    && pos >= 8 && pos != 11
  }

  /** An inner frame counts the children that have not reported yet. When the count is zero and the frame is
      built it has been submitted, or some thread is at a step that submits it. */
  predicate InnerOk(fr: ParFrame, pos: int, j: nat, il: nat, l: Life, ll: Link, ir: nat, r: Life, rl: Link) {
    && MainClaims(fr, pos)
    && fr.pending == 2 - One(Dropped(l, ll)) - One(Dropped(r, rl))
    && (fr.built <==> pos > 6)
    && (!fr.life.Unsubmitted? ==> fr.pending == 0 && fr.built)
    && (pos == 8 ==> fr.pending == 0)
    && (fr.life.Unsubmitted? && fr.pending == 0 ==> pos <= 8 || Waking(l) || Waking(r))
    && (fr.life.Claimed? || fr.life.Counted? ==> fr.life.who in {ByMain, ByChild(il), ByChild(ir)})
    && WakeOk(fr, j, il, l) && WakeOk(fr, j, ir, r)
  }

  predicate FrameOk(c: Config, plan: Plan, s: State, j: nat)
    requires j < |plan|
  {
    var fr := F(s, j);
    && LinkOk(fr, plan[j].up, LinkOf(plan, s, j))
    && fr.size == plan[j].size
    && (if IsLeaf(c, j) then LeafOk(fr, Pos(s, j))
        else
          && fr.left == plan[j].left && fr.right == plan[j].right
          && InnerOk(fr, Pos(s, j), j, fr.left, F(s, fr.left).life, LinkOf(plan, s, fr.left),
                     fr.right, F(s, fr.right).life, LinkOf(plan, s, fr.right)))
  }

  ghost predicate Rendezvous(c: Config, plan: Plan, s: State) {
    && |s.frames| <= |plan|
    && (forall j: nat :: j < |s.frames| ==> FrameOk(c, plan, s, j))
  }

  // ---------- who holds a frame ----------

  datatype Place = Nowhere | InQueue | InHand | InChannel | AtWorker(w: nat)

  function PlaceOf(l: Life): Place {
    match l
    case Queued => InQueue
    case Held => InHand
    case InReady => InChannel
    case Busy(w, _) => AtWorker(w)
    case _ => Nowhere
  }

  function At(s: State, j: nat): Place {
    if j < |s.frames| then PlaceOf(s.frames[j].life) else Nowhere
  }

  ghost predicate Line(s: State, q: seq<nat>, p: Place) {
    && (forall k: nat :: k < |q| ==> At(s, q[k]) == p)
    && (forall k: nat, m: nat :: k < m < |q| ==> q[k] != q[m])
    && (forall j: nat :: At(s, j) == p ==> j in q)
  }

  /** The queue, the dispatcher's hand, the channel and the workers hold each frame that is under way, once. */
  ghost predicate Owners(s: State) {
    && Line(s, s.queue, InQueue)
    && Line(s, s.ready, InChannel)
    && (forall j: nat :: At(s, j) == InHand <==> s.dispatcher == Holding(j))
    && (forall j: nat, w: nat :: At(s, j) == AtWorker(w) <==> w < |s.workers| && s.workers[w] == Working(j))
  }

  // ---------- counts ----------

  function Total(frames: seq<ParFrame>, g: ParFrame -> nat): nat {
    if frames == [] then 0 else Total(frames[..|frames| - 1], g) + g(frames[|frames| - 1])
  }

  function ActiveOne(fr: ParFrame): nat { if Active(fr.life) then 1 else 0 }

  predicate Tally(s: State) {
    s.hashWg == Total(s.frames, ActiveOne)
  }

  // ---------- results ----------

  ghost predicate HashesPlanned(plan: Plan, s: State) {
    && |s.frames| <= |plan|
    && (forall j: nat :: j < |s.frames| && IsHashed(s.frames[j].life) ==>
        s.frames[j].hash == plan[j].hash && s.frames[j].encoded == plan[j].encoded)
  }

  /** When the last frame's subtree is the whole stream so far, a worker that is past the root test has left
      that frame's bytes in rootEncoded. */
  predicate RootWritten(plan: Plan, s: State) {
    var n := |s.frames|;
    && n <= |plan|
    && (n > 0 && plan[n - 1].lo == 0 && PastRoot(s.frames[n - 1].life) ==> s.rootEncoded == Some(plan[n - 1].encoded))
  }

  predicate SameAt(a: Entries, b: Entries, key: bytes) {
    (key in a <==> key in b) && (key in a ==> a[key] == b[key])
  }

  ghost predicate KeyUsed(c: Config, n: nat, key: bytes) {
    exists j: nat :: j < n && key == KeyAt(c, j)
  }

  /** Some item with that key has these bytes. */
  ghost predicate BytesOfKey(c: Config, plan: Plan, key: bytes, value: bytes) {
    exists i: nat :: i < |plan| && KeyAt(c, i) == key && plan[i].encoded == value
  }

  /** An entry for frame j's key is on its way or in the database. When several items have that key, the entry
      may be that of any of them. */
  ghost predicate WrittenAs(c: Config, plan: Plan, s: State, j: nat) {
    || (exists k: nat :: k < |s.writeQ| && s.writeQ[k].key == KeyAt(c, j))
    || (KeyAt(c, j) in s.db && BytesOfKey(c, plan, KeyAt(c, j), s.db[KeyAt(c, j)]))
  }

  /** Off the frames' keys the database is that of the fast-storage entries alone. */
  ghost predicate RestOk(c: Config, plan: Plan, s: State)
    requires |s.frames| <= |plan|
  {
    var n := |s.frames|;
    forall key :: !KeyUsed(c, n, key) ==> SameAt(s.db, FastBefore(c, plan, n), key)
  }

  /** The database and the queued writes together hold the entries of the frames that were written. */
  ghost predicate Stored(c: Config, plan: Plan, s: State) {
    && |s.frames| <= |plan|
    && (forall k: nat :: k < |s.writeQ| ==>
        var e := s.writeQ[k];
        e.from < |s.frames| && e.key == KeyAt(c, e.from) && e.encoded == plan[e.from].encoded)
    && (forall j: nat :: j < |s.frames| && Wrote(s.frames[j].life) ==> WrittenAs(c, plan, s, j))
    && RestOk(c, plan, s)
  }

  // ---------- main's stack and phases ----------

  /** The stack lists the roots of the first k items, the latest last. */
  predicate StackOk(plan: Plan, stack: seq<nat>, k: nat)
    decreases |stack|
  {
    if k == 0 then stack == []
    else
      && stack != [] && k <= |plan| && stack[|stack| - 1] == k - 1
      && StackOk(plan, stack[..|stack| - 1], plan[k - 1].lo)
  }

  predicate Stacked(c: Config, plan: Plan, s: State) {
    && |s.frames| <= |plan|
    && (s.main.On? ==> s.main.f == |s.frames| - 1)
    && StackOk(plan, s.parStack,
               if s.main.On? && !IsLeaf(c, s.main.f) && s.main.f < |plan| then plan[s.main.f].lo else |s.frames|)
  }

  /** How far main is in shutting down. */
  function Stage(m: MainPc): nat {
    match m
    case Next => 0
    case On(_, _) => 0
    case Failed => 0
    case WaitHash => 1
    case CloseQueue => 2
    case WaitDispatcher => 3
    case WaitWorkers => 4
    case WaitWriter => 5
    case Finalizing => 6
    case Returned(_) => 7
  }

  ghost predicate AllProcessed(s: State) {
    forall j: nat :: j < |s.frames| ==> s.frames[j].life == Processed
  }

  ghost predicate Phases(c: Config, plan: Plan, s: State) {
    var g := Stage(s.main);
    && (s.closed <==> g >= 3)
    && (s.dispatcher.DispatcherGone? ==> g >= 3)
    && (g >= 4 ==> s.dispatcher.DispatcherGone?)
    && (!s.dispatcher.DispatcherGone? ==> forall w: nat :: w < |s.workers| ==> !s.workers[w].WorkerGone?)
    && (g >= 5 ==> AllGone(s.workers))
    && (g >= 6 ==> s.writeQ == [])
    && (g >= 1 ==> |s.frames| == |c.items|)
    && (g >= 2 ==> AllProcessed(s))
    && (s.main == Failed ==> |s.frames| == |plan| < |c.items|)
    && |s.workers| == c.workers
  }

  /** The invariant. After main has finalized, only the phases are of interest. */
  ghost predicate Inv(c: Config, plan: Plan, s: State) {
    && Stacked(c, plan, s)
    && Rendezvous(c, plan, s)
    && Owners(s)
    && Tally(s)
    && HashesPlanned(plan, s)
    && RootWritten(plan, s)
    && (!s.main.Returned? ==> Stored(c, plan, s))
    && Phases(c, plan, s)
  }
}
