/** The wave-parallel importer of one store as a step system. Main reads the stream and links frames,
    a dispatcher moves submitted frames to a bounded channel, workers hash them, and a writer drains the
    write queue. Every atomic operation of the program is one step of the thread that performs it. */
module WaveState {
  import opened Bytes
  import opened IavlEncoding
  import opened IavlTree

  /** A stream item with the nonce that main assigns to it. */
  datatype Numbered = Numbered(node: ExportNode, nonce: uint32)

  datatype Config = Config(
    sha: Sha, prefix: bytes, height: int64, items: seq<Numbered>, before: Entries,
    workers: nat, readyCap: nat, pendingCap: nat, writeCap: nat)

  predicate Runnable(c: Config) {
    c.workers > 0 && c.readyCap > 0 && c.pendingCap > 0 && c.writeCap > 0
  }

  /** Who won the compare-and-swap on a frame's submitted flag. */
  datatype Claimant = ByMain | ByChild(child: nat)

  /** Where a worker stands in processing its frame; p is its local copy of the parent pointer. */
  datatype WorkerStep =
    | Hash | ReadParent | WriteRoot | PushWrite | AddEvent | TakeParent
    | DecPending(p: nat) | LoadBuilt(p: nat) | CasSubmitted(p: nat) | AddGroup(p: nat) | Enqueue(p: nat)
    | DoneGroup

  /** The life of a frame. The submitted flag is set in every state but Unsubmitted. The program counter
      of the worker that holds a frame is kept here. */
  datatype Life =
    | Unsubmitted
    | Claimed(who: Claimant)   // flag set, not yet counted in the wait-group
    | Counted(who: Claimant)   // counted, not yet in the pending queue
    | Queued | Held | InReady
    | Busy(w: nat, at: WorkerStep)
    | Processed

  datatype ParFrame = ParFrame(
    left: nat, right: nat, size: int64,
    pending: int, events: int, built: bool, parent: Option<nat>, hash: Hash32, encoded: bytes,
    life: Life)

  /** A queued write; the frame that it comes from is recorded for the proofs only. */
  datatype WriteEnt = WriteEnt(key: bytes, encoded: bytes, from: nat)

  /** Main's program counter while it works on the frame it created last. */
  datatype MainStep =
    | SetLeft | SetRight | EventLeft | DecLeft | EventRight | DecRight | StoreBuilt | LoadPending
    | MainCas | MainAdd | MainEnqueue | PushStack

  datatype MainPc =
    | Next | On(f: nat, m: MainStep)
    | WaitHash | CloseQueue | WaitDispatcher | WaitWorkers | WaitWriter | Finalizing
    | Returned(r: Option<Hash32>) | Failed

  datatype Dispatcher = Looking | Holding(f: nat) | DispatcherGone

  datatype Worker = Idle | Working(f: nat) | WorkerGone

  datatype State = State(
    main: MainPc, parStack: seq<nat>, frames: seq<ParFrame>,
    queue: seq<nat>, closed: bool, dispatcher: Dispatcher, ready: seq<nat>, workers: seq<Worker>,
    hashWg: int, rootEncoded: Option<bytes>, writeQ: seq<WriteEnt>, db: Entries)

  const ZERO_HASH: Hash32 :=
    [0, 0, 0, 0, 0, 0, 0, 0, 0, 0, 0, 0, 0, 0, 0, 0, 0, 0, 0, 0, 0, 0, 0, 0, 0, 0, 0, 0, 0, 0, 0, 0]

  function Init(c: Config): State {
    State(Next, [], [], [], false, Looking, [], seq(c.workers, _ => Idle), 0, None, [], c.before)
  }

  function NewFrame(left: nat, right: nat, size: int64, pending: int): ParFrame {
    ParFrame(left, right, size, pending, 0, false, None, ZERO_HASH, [], Unsubmitted)
  }

  /** Frame i, and the state with frame i replaced; every index that a run mentions is in range. */
  function F(s: State, i: nat): ParFrame {
    if i < |s.frames| then s.frames[i] else NewFrame(0, 0, 0, 0)
  }

  function Put(s: State, i: nat, f: ParFrame): State {
    if i < |s.frames| then s.(frames := s.frames[i := f]) else s
  }

  function SetLife(s: State, i: nat, l: Life): State {
    Put(s, i, F(s, i).(life := l))
  }

  function Item(c: Config, i: nat): Numbered {
    if i < |c.items| then c.items[i] else Numbered(ExportNode(0, 0, [], []), 0)
  }

  function KeyAt(c: Config, i: nat): bytes {
    NodeKey(c.prefix, Item(c, i).node.version, Item(c, i).nonce)
  }

  // ---------- main ----------

  predicate ClosesPairPar(c: Config, stack: seq<nat>, height: int8) {
    var n := |stack|;
    n >= 2 && Item(c, stack[n - 1]).node.height < height && Item(c, stack[n - 2]).node.height < height
  }

  /** Reads the next item. A leaf gets its frame, its fast-storage entry and its place on the stack; an
      inner item pops two frames and gets a frame that waits for both. */
  function MainNext(c: Config, s: State): State {
    var k := |s.frames|;
    var x := Item(c, k).node;
    if k >= |c.items| then s.(main := WaitHash)
    else if x.height == 0 then
      s.(main := On(k, MainCas), parStack := s.parStack + [k],
         frames := s.frames + [NewFrame(0, 0, 1, 0)], db := FastEntry(c.prefix, x, s.db))
    else if ClosesPairPar(c, s.parStack, x.height) then
      var n := |s.parStack|;
      var l, r := s.parStack[n - 2], s.parStack[n - 1];
      s.(main := On(k, SetLeft), parStack := s.parStack[..n - 2],
         frames := s.frames + [NewFrame(l, r, Wrap64(F(s, l).size + F(s, r).size), 2)])
    else s.(main := Failed)
  }

  function MainSetParent(s: State, i: nat, p: nat, next: MainStep): State {
    Put(s, i, F(s, i).(parent := Some(p))).(main := On(p, next))
  }

  /** Main's event for child i of p; whoever sees the second event decrements p's counter. */
  function MainEvent(s: State, i: nat, p: nat, second: MainStep, first: MainStep): State {
    var f := F(s, i);
    Put(s, i, f.(events := f.events + 1)).(main := On(p, if f.events + 1 == 2 then second else first))
  }

  function MainDec(s: State, p: nat, next: MainStep): State {
    Put(s, p, F(s, p).(pending := F(s, p).pending - 1)).(main := On(p, next))
  }

  function MainOn(c: Config, s: State, f: nat, m: MainStep): State {
    match m
    case SetLeft => MainSetParent(s, F(s, f).left, f, SetRight)
    case SetRight => MainSetParent(s, F(s, f).right, f, EventLeft)
    case EventLeft => MainEvent(s, F(s, f).left, f, DecLeft, EventRight)
    case DecLeft => MainDec(s, f, EventRight)
    case EventRight => MainEvent(s, F(s, f).right, f, DecRight, StoreBuilt)
    case DecRight => MainDec(s, f, StoreBuilt)
    case StoreBuilt => Put(s, f, F(s, f).(built := true)).(main := On(f, LoadPending))
    case LoadPending => s.(main := On(f, if F(s, f).pending == 0 then MainCas else PushStack))
    case MainCas =>
      if F(s, f).life == Unsubmitted then SetLife(s, f, Claimed(ByMain)).(main := On(f, MainAdd))
      else s.(main := On(f, PushStack))
    case MainAdd => SetLife(s, f, Counted(ByMain)).(main := On(f, MainEnqueue), hashWg := s.hashWg + 1)
    case MainEnqueue =>
      SetLife(s, f, Queued).(queue := s.queue + [f],
                             main := if Item(c, f).node.height == 0 then Next else On(f, PushStack))
    case PushStack => s.(main := Next, parStack := s.parStack + [f])
  }

  /** The canonical root, the redirect and the marker, from what the workers left. */
  function MainFinalize(c: Config, s: State): State {
    if s.parStack == [] then
      s.(main := Returned(Some(c.sha([]))), db := ClosedEmpty(c.prefix, c.height, s.db))
    else if |s.parStack| != 1 || s.rootEncoded == None then s.(main := Returned(None))
    else
      var root := s.parStack[0];
      s.(main := Returned(Some(F(s, root).hash)),
         db := Closed(c.prefix, c.height, Item(c, root).node.version, s.rootEncoded.value, s.db))
  }

  predicate AllGone(workers: seq<Worker>) {
    forall w :: 0 <= w < |workers| ==> workers[w] == WorkerGone
  }

  predicate MainEnabled(c: Config, s: State) {
    match s.main
    case On(_, MainEnqueue) => |s.queue| < c.pendingCap || s.closed
    case WaitHash => s.hashWg == 0
    case WaitDispatcher => s.dispatcher == DispatcherGone
    case WaitWorkers => AllGone(s.workers)
    case WaitWriter => s.writeQ == []
    case Returned(_) => false
    case Failed => false
    case _ => true
  }

  function MainDo(c: Config, s: State): State {
    match s.main
    case Next => MainNext(c, s)
    case On(f, m) => MainOn(c, s, f, m)
    case WaitHash => s.(main := CloseQueue)
    case CloseQueue => s.(main := WaitDispatcher, closed := true)
    case WaitDispatcher => s.(main := WaitWorkers)
    case WaitWorkers => s.(main := WaitWriter)
    case WaitWriter => s.(main := Finalizing)
    case Finalizing => MainFinalize(c, s)
    case _ => s
  }

  // ---------- dispatcher and writer ----------

  predicate DispatcherEnabled(c: Config, s: State) {
    match s.dispatcher
    case Looking => s.queue != [] || s.closed
    case Holding(_) => |s.ready| < c.readyCap
    case DispatcherGone => false
  }

  /** Moves the oldest submitted frame to the ready channel; exits, closing the channel, when the queue is
      closed and empty. */
  function DispatcherDo(c: Config, s: State): State {
    match s.dispatcher
    case Looking =>
      if s.queue != [] then
        SetLife(s, s.queue[0], Held).(queue := s.queue[1..], dispatcher := Holding(s.queue[0]))
      else s.(dispatcher := DispatcherGone)
    case Holding(f) => SetLife(s, f, InReady).(ready := s.ready + [f], dispatcher := Looking)
    case DispatcherGone => s
  }

  predicate WriterEnabled(s: State) {
    s.writeQ != []
  }

  function WriterDo(s: State): State {
    if s.writeQ == [] then s
    else s.(db := s.db[s.writeQ[0].key := s.writeQ[0].encoded], writeQ := s.writeQ[1..])
  }

  // ---------- workers ----------

  function HashOf(c: Config, s: State, f: nat): Hash32 {
    var x, fr := Item(c, f).node, F(s, f);
    if x.height == 0 then LeafHash(c.sha, x.version, x.key, x.value)
    else InnerHash(c.sha, x.version, x.height, fr.size, F(s, fr.left).hash, F(s, fr.right).hash)
  }

  function BytesOf(c: Config, s: State, f: nat): bytes {
    var x, fr := Item(c, f).node, F(s, f);
    if x.height == 0 then EncodeLeaf(x.key, x.value)
    else
      var l, r := Item(c, fr.left), Item(c, fr.right);
      EncodeInner(x.height, fr.size, x.key, HashOf(c, s, f), l.node.version, l.nonce, r.node.version, r.nonce)
  }

  function Advance(s: State, w: nat, f: nat, at: WorkerStep): State {
    SetLife(s, f, Busy(w, at))
  }

  /** One step of worker w on frame f. A frame whose parent is not linked yet also writes rootEncoded. */
  function WorkerOn(c: Config, s: State, w: nat, f: nat, at: WorkerStep): State {
    var fr := F(s, f);
    match at
    case Hash => Put(s, f, fr.(hash := HashOf(c, s, f), encoded := BytesOf(c, s, f), life := Busy(w, ReadParent)))
    case ReadParent => Advance(s, w, f, if fr.parent == None then WriteRoot else PushWrite)
    case WriteRoot => Advance(s, w, f, PushWrite).(rootEncoded := Some(fr.encoded))
    case PushWrite => Advance(s, w, f, AddEvent).(writeQ := s.writeQ + [WriteEnt(KeyAt(c, f), fr.encoded, f)])
    case AddEvent =>
      Put(s, f, fr.(events := fr.events + 1, life := Busy(w, if fr.events + 1 == 2 then TakeParent else DoneGroup)))
    case TakeParent =>
      var next := if fr.parent.Some? then DecPending(fr.parent.value) else DoneGroup;
      Put(s, f, fr.(parent := None, life := Busy(w, next)))
    case DecPending(p) =>
      var t := Put(s, f, fr.(life := Busy(w, if F(s, p).pending - 1 == 0 then LoadBuilt(p) else DoneGroup)));
      Put(t, p, F(t, p).(pending := F(t, p).pending - 1))
    case LoadBuilt(p) => Advance(s, w, f, if F(s, p).built then CasSubmitted(p) else DoneGroup)
    case CasSubmitted(p) =>
      if F(s, p).life == Unsubmitted then SetLife(Advance(s, w, f, AddGroup(p)), p, Claimed(ByChild(f)))
      else Advance(s, w, f, DoneGroup)
    case AddGroup(p) => SetLife(Advance(s, w, f, Enqueue(p)), p, Counted(ByChild(f))).(hashWg := s.hashWg + 1)
    case Enqueue(p) => SetLife(Advance(s, w, f, DoneGroup), p, Queued).(queue := s.queue + [p])
    case DoneGroup =>
      var free := if w < |s.workers| then s.workers[w := Idle] else s.workers;
      SetLife(s, f, Processed).(hashWg := s.hashWg - 1, workers := free)
  }

  predicate WorkerEnabled(c: Config, s: State, w: nat) {
    w < |s.workers| &&
    match s.workers[w]
    case Idle => s.ready != [] || s.dispatcher == DispatcherGone
    case Working(f) => F(s, f).life == Busy(w, PushWrite) ==> |s.writeQ| < c.writeCap
    case WorkerGone => false
  }

  function WorkerDo(c: Config, s: State, w: nat): State
    requires w < |s.workers|
  {
    match s.workers[w]
    case Idle =>
      if s.ready != [] then
        Advance(s, w, s.ready[0], Hash).(ready := s.ready[1..], workers := s.workers[w := Working(s.ready[0])])
      else s.(workers := s.workers[w := WorkerGone])
    case Working(f) => if F(s, f).life.Busy? then WorkerOn(c, s, w, f, F(s, f).life.at) else s
    case WorkerGone => s
  }

  // ---------- runs ----------

  datatype Action = MainActs | DispatcherActs | WriterActs | WorkerActs(w: nat)

  predicate Enabled(c: Config, s: State, a: Action) {
    match a
    case MainActs => MainEnabled(c, s)
    case DispatcherActs => DispatcherEnabled(c, s)
    case WriterActs => WriterEnabled(s)
    case WorkerActs(w) => WorkerEnabled(c, s, w)
  }

  function Do(c: Config, s: State, a: Action): State
    requires Enabled(c, s, a)
  {
    match a
    case MainActs => MainDo(c, s)
    case DispatcherActs => DispatcherDo(c, s)
    case WriterActs => WriterDo(s)
    case WorkerActs(w) => WorkerDo(c, s, w)
  }

  /** The actions of a run, the latest outermost. */
  datatype Schedule = Begin | After(earlier: Schedule, a: Action)

  /** The state a schedule leads to; None when it takes a step that is not enabled. */
  function Run(c: Config, schedule: Schedule): Option<State> {
    match schedule
    case Begin => Some(Init(c))
    case After(earlier, a) =>
      match Run(c, earlier)
      case None => None
      case Some(s) => if Enabled(c, s, a) then Some(Do(c, s, a)) else None
  }
}
