/** The walk down the snapshot heights: it searches the newest target first, may jump back up when a peer offers
    a higher snapshot, and accepts the first chunk 0 that matches an offer's hash. */
module HeightWalk {
  import opened Bytes
  import opened IavlEncoding

  datatype Config = Config(targetHeight: uint64, minHeight: uint64, maxHeight: uint64, interval: uint64)

  /** An offer with the chunk hashes that its metadata holds, when it can be parsed. */
  datatype Offer = Offer(height: uint64, format: uint32, hash: bytes, chunks: nat, chunkHashes: Option<seq<bytes>>)

  /** What arrives while a height is searched; when the events of a search run out its deadline fires. */
  datatype Event =
    | Snapshot(offer: Offer, peer: nat)
    | Chunk(height: uint64, format: uint32, index: nat, missing: bool, data: bytes, from: nat)
    | Cancel

  // ---------- windows and targets ----------

  function EffectiveWindow(cfg: Config): (w: (uint64, uint64))
    ensures cfg.targetHeight != 0 ==> w.0 == w.1
  {
    if cfg.targetHeight != 0 then (cfg.targetHeight, cfg.targetHeight) else (cfg.minHeight, cfg.maxHeight)
  }

  /** A height that the fetch is willing to download; a bound of 0 is no bound. */
  predicate InWindow(height: uint64, cfg: Config) {
    if cfg.targetHeight != 0 then height == cfg.targetHeight
    else (cfg.minHeight == 0 || cfg.minHeight <= height) && (cfg.maxHeight == 0 || height <= cfg.maxHeight)
  }

  predicate IsJumpCandidate(height: uint64, current: uint64, minHeight: uint64, failed: set<nat>) {
    height > current && (minHeight == 0 || height >= minHeight) && height !in failed
  }

  /** A height that the walk starts out to search: a positive multiple of the interval in the window. */
  predicate Wanted(h: nat, top: uint64, minHeight: uint64, interval: uint64) {
    interval > 0 && 0 < h && minHeight <= h <= top && h % interval == 0
  }

  /** The wanted heights from the top down. */
  method WalkTargets(top: uint64, minHeight: uint64, interval: uint64) returns (out: seq<uint64>)
    ensures forall h: nat :: h in out <==> Wanted(h, top, minHeight, interval)
    ensures forall j, k :: 0 <= j < k < |out| ==> out[j] > out[k]
    ensures |out| <= if interval == 0 then 0 else top / interval
  {
    hide Wanted;
    out := [];
    if interval == 0 || top < minHeight {
      NoneWanted(top, minHeight, interval);
      if interval > 0 {
        DivNat(top, interval);
      }
      return;
    }
    var h := top / interval * interval;
    StartOk(top, minHeight, interval);
    while h >= minHeight && h > 0
      invariant 0 <= h <= top && MultipleOf(h, interval)
      invariant forall x: nat :: x in out <==> h < x && Wanted(x, top, minHeight, interval)
      invariant forall j :: 0 <= j < |out| ==> out[j] > h
      invariant forall j, k :: 0 <= j < k < |out| ==> out[j] > out[k]
      decreases h
    {
      hide MultipleOf;
      out := out + [h];
      StepOk(h, top, minHeight, interval);
      h := h - interval;
    }
    EndOk(h, top, minHeight, interval);
    forall j | 0 <= j < |out| ensures Wanted(out[j], top, minHeight, interval) {
      assert out[j] in out;
    }
    CountMultiples(out, top, minHeight, interval);
  }

  predicate MultipleOf(h: nat, interval: nat) {
    interval > 0 && h % interval == 0
  }

  lemma NoneWanted(top: uint64, minHeight: uint64, interval: uint64)
    requires interval == 0 || top < minHeight
    ensures forall x: nat :: !Wanted(x, top, minHeight, interval)
  {}

  lemma DivNat(a: nat, m: nat)
    requires m > 0
    ensures a / m >= 0
  {
    assert a == (a / m) * m + a % m;
  }

  lemma StartOk(top: uint64, minHeight: uint64, interval: uint64)
    requires interval > 0
    ensures var h := top / interval * interval;
            0 <= h <= top && MultipleOf(h, interval) && forall x: nat :: Wanted(x, top, minHeight, interval) ==> x <= h
  {
    Multiples(top / interval, interval);
    TopMultiple(top, interval);
  }

  lemma StepOk(h: nat, top: uint64, minHeight: uint64, interval: uint64)
    requires MultipleOf(h, interval) && 0 < h <= top && minHeight <= h
    ensures h >= interval > 0 && MultipleOf(h - interval, interval) && Wanted(h, top, minHeight, interval)
    ensures forall x: nat :: h - interval < x < h ==> !Wanted(x, top, minHeight, interval)
  {
    NextMultiple(h, interval);
  }

  lemma EndOk(h: nat, top: uint64, minHeight: uint64, interval: uint64)
    requires h < minHeight || h == 0
    ensures forall x: nat :: x <= h ==> !Wanted(x, top, minHeight, interval)
  {}

  /** There are no more multiples than fit. */
  lemma {:induction false} CountMultiples(out: seq<uint64>, top: uint64, minHeight: uint64, interval: uint64)
    requires interval > 0
    requires forall j :: 0 <= j < |out| ==> Wanted(out[j], top, minHeight, interval)
    requires forall j, k :: 0 <= j < k < |out| ==> out[j] > out[k]
    ensures |out| <= top / interval
    decreases |out|
  {
    hide Wanted;
    if out == [] {
      DivNat(top, interval);
    } else {
      var h, rest := out[0], out[1..];
      assert Wanted(h, top, minHeight, interval);
      BelowWanted(h, top, minHeight, interval);
      forall j | 0 <= j < |rest| ensures Wanted(rest[j], h - interval, minHeight, interval) {
        assert rest[j] == out[j + 1] && Wanted(out[j + 1], top, minHeight, interval);
      }
      CountMultiples(rest, h - interval, minHeight, interval);
    }
  }

  lemma BelowWanted(h: nat, top: uint64, minHeight: uint64, interval: uint64)
    requires Wanted(h, top, minHeight, interval)
    ensures interval <= h && (h - interval) / interval + 1 <= top / interval
    ensures forall x: nat :: x < h && Wanted(x, top, minHeight, interval) ==>
      Wanted(x, h - interval, minHeight, interval)
  {
    NextMultiple(h, interval);
    DivMonotone(h, top, interval);
  }

  lemma DivMonotone(a: nat, b: nat, m: nat)
    requires m > 0 && a <= b
    ensures a / m <= b / m
  {
    var d := a / m - b / m;
    assert a == (a / m) * m + a % m && b == (b / m) * m + b % m;
    assert d * m == (a / m) * m - (b / m) * m;
    if d > 0 {
      AtLeast(d, m);
    }
  }

  lemma Multiples(q: nat, interval: nat)
    requires interval > 0
    ensures q * interval % interval == 0 && q * interval / interval == q
  {
    Unique(q * interval, q, 0, interval);
  }

  lemma Unique(x: nat, q: nat, r: nat, m: nat)
    requires m > 0 && r < m && x == q * m + r
    ensures x % m == r && x / m == q
  {
    var d := x / m - q;
    assert x == (x / m) * m + x % m;
    assert d * m == r - x % m;
    if d > 0 {
      AtLeast(d, m);
    } else if d < 0 {
      AtLeast(-d, m);
    }
  }

  lemma AtLeast(d: int, m: nat)
    requires d > 0
    ensures d * m >= m
  {
    assert d * m == (d - 1) * m + m;
  }

  /** Between a multiple and the next one below there is no other. */
  lemma NextMultiple(h: nat, interval: nat)
    requires interval > 0 && h > 0 && h % interval == 0
    ensures h >= interval && (h - interval) % interval == 0 && (h - interval) / interval == h / interval - 1
    ensures forall x: nat :: h - interval < x < h ==> x % interval != 0
  {
    var q := h / interval;
    assert h == q * interval;
    assert q >= 1;
    assert h - interval == (q - 1) * interval;
    Multiples(q - 1, interval);
    forall x: nat | h - interval < x < h ensures x % interval != 0 {
      Unique(x, q - 1, x - (q - 1) * interval, interval);
    }
  }

  lemma TopMultiple(top: nat, interval: nat)
    requires interval > 0
    ensures top / interval * interval <= top
    ensures forall x: nat :: top / interval * interval < x <= top ==> x % interval != 0
  {
    var q := top / interval;
    forall x: nat | q * interval < x <= top ensures x % interval != 0 {
      assert x - q * interval <= top % interval;
      Unique(x, q, x - q * interval, interval);
    }
  }

  // ---------- offers ----------

  predicate SameOffer(a: Offer, b: Offer) {
    a.height == b.height && a.format == b.format && a.hash == b.hash
  }

  /** Records an offer unless one with the same height, format and hash is known. */
  function AddOffer(offers: seq<Offer>, o: Offer): seq<Offer> {
    if exists i :: 0 <= i < |offers| && SameOffer(offers[i], o) then offers else offers + [o]
  }

  /** The data is chunk 0 of the offer. */
  predicate VerifiesChunkZero(sha: Sha, o: Offer, data: bytes) {
    && o.chunkHashes.Some? && |o.chunkHashes.value| == o.chunks > 0
    && sha(data) == o.chunkHashes.value[0]
  }

  /** A chunk 0 with that height, format and data is what the offer announced. */
  predicate Serves(sha: Sha, o: Offer, height: uint64, format: uint32, data: bytes) {
    o.height == height && o.format == format && VerifiesChunkZero(sha, o, data)
  }

  /** The first offer at the chunk's height and format that its bytes match. */
  method MatchOffer(sha: Sha, offers: seq<Offer>, height: uint64, format: uint32, data: bytes)
    returns (r: Option<Offer>)
    ensures r.Some? <==> exists i :: 0 <= i < |offers| && Serves(sha, offers[i], height, format, data)
    ensures r.Some? ==> exists i ::
      && 0 <= i < |offers| && offers[i] == r.value && Serves(sha, r.value, height, format, data)
      && forall j :: 0 <= j < i ==> !Serves(sha, offers[j], height, format, data)
  {
    for i := 0 to |offers|
      invariant forall j :: 0 <= j < i ==> !Serves(sha, offers[j], height, format, data)
    {
      if Serves(sha, offers[i], height, format, data) {
        return Some(offers[i]);
      }
    }
    return None;
  }

  // ---------- one height ----------

  datatype Outcome = Accepted(offer: Offer, chunk0: bytes) | Jumped(to: uint64) | Deadline | Cancelled

  /** What a search is given: the height, the window, the failed heights and whether it may jump. */
  datatype Query = Query(target: uint64, minHeight: uint64, maxHeight: uint64, failed: set<nat>, mayJump: bool)

  predicate Eligible(q: Query, ev: Event) {
    && ev.Chunk? && ev.index == 0 && q.target <= ev.height && (q.maxHeight == 0 || ev.height <= q.maxHeight)
    && !ev.missing && ev.data != []
  }

  predicate NoneServes(sha: Sha, offers: seq<Offer>, height: uint64, format: uint32, data: bytes) {
    forall j :: 0 <= j < |offers| ==> !Serves(sha, offers[j], height, format, data)
  }

  /** How an event ends a search, given the offers known before it. */
  predicate Ends(sha: Sha, q: Query, offers: seq<Offer>, ev: Event, outcome: Outcome) {
    match outcome
    case Cancelled => ev.Cancel?
    case Jumped(to) =>
      ev.Snapshot? && ev.offer.height == to && q.mayJump && IsJumpCandidate(to, q.target, q.minHeight, q.failed)
    case Accepted(o, data) =>
      && Eligible(q, ev) && ev.data == data && Serves(sha, o, ev.height, ev.format, data)
      && exists i :: 0 <= i < |offers| && offers[i] == o && NoneServes(sha, offers[..i], ev.height, ev.format, data)
    case Deadline => false
  }

  /** The events that a search goes on after. */
  predicate Quiet(sha: Sha, q: Query, offers: seq<Offer>, ev: Event) {
    match ev
    case Cancel => false
    case Snapshot(o, _) => !(q.mayJump && IsJumpCandidate(o.height, q.target, q.minHeight, q.failed))
    case Chunk(height, format, _, _, data, _) =>
      Eligible(q, ev) ==> forall i :: 0 <= i < |offers| ==> !Serves(sha, offers[i], height, format, data)
  }

  function Learn(offers: seq<Offer>, ev: Event): seq<Offer> {
    if ev.Snapshot? then AddOffer(offers, ev.offer) else offers
  }

  /** The offers known after some events. */
  function LearnAll(offers: seq<Offer>, events: seq<Event>): seq<Offer> {
    if events == [] then offers else Learn(LearnAll(offers, events[..|events| - 1]), events[|events| - 1])
  }

  /** The search ended with the event at n, or with its deadline after all of them. */
  ghost predicate EndsAt(sha: Sha, q: Query, known: seq<Offer>, events: seq<Event>, n: nat, outcome: Outcome) {
    && n <= |events|
    && (forall i :: 0 <= i < n ==> Quiet(sha, q, LearnAll(known, events[..i]), events[i]))
    && (if n == |events| then outcome == Deadline else Ends(sha, q, LearnAll(known, events[..n]), events[n], outcome))
  }

  /** The offers heard are those known before, in order, and then offers of the events; none of these comes twice. */
  lemma {:induction false} HeardFrom(known: seq<Offer>, events: seq<Event>)
    ensures known <= LearnAll(known, events)
    ensures forall k :: |known| <= k < |LearnAll(known, events)| ==> IsOffered(events, LearnAll(known, events)[k])
    ensures forall k, m :: |known| <= k < |LearnAll(known, events)| && 0 <= m < k ==>
      !SameOffer(LearnAll(known, events)[m], LearnAll(known, events)[k])
  {
    hide SameOffer, IsOffered, Learn;
    if events != [] {
      var n := |events| - 1;
      var before := LearnAll(known, events[..n]);
      HeardFrom(known, events[..n]);
      LearnOne(before, events[n]);
      assert events[..n] + [events[n]] == events;
      forall o | IsOffered(events[..n], o) ensures IsOffered(events, o) {
        OfferedMore(events[..n], events[n], o);
      }
      if events[n].Snapshot? {
        OfferedMore(events[..n], events[n], events[n].offer);
      }
    }
  }

  predicate IsOffered(events: seq<Event>, o: Offer) {
    exists i :: 0 <= i < |events| && events[i].Snapshot? && events[i].offer == o
  }

  lemma OfferedMore(events: seq<Event>, ev: Event, o: Offer)
    ensures IsOffered(events, o) || (ev.Snapshot? && ev.offer == o) ==> IsOffered(events + [ev], o)
  {
    var more := events + [ev];
    assert more[|events|] == ev;
    if i :| 0 <= i < |events| && events[i].Snapshot? && events[i].offer == o {
      assert more[i] == events[i];
    }
  }

  /** Every offer of the events is heard, or one with its height, format and hash. */
  lemma {:induction false} HeardAll(known: seq<Offer>, events: seq<Event>, i: nat)
    requires i < |events| && events[i].Snapshot?
    ensures IsHeard(LearnAll(known, events), events[i].offer)
  {
    hide SameOffer, IsHeard, Learn;
    var n := |events| - 1;
    var before := LearnAll(known, events[..n]);
    LearnOne(before, events[n]);
    if i < n {
      HeardAll(known, events[..n], i);
      StillHeard(before, LearnAll(known, events), events[i].offer);
    }
  }

  predicate IsHeard(offers: seq<Offer>, o: Offer) {
    exists k :: 0 <= k < |offers| && SameOffer(offers[k], o)
  }

  lemma StillHeard(before: seq<Offer>, all: seq<Offer>, o: Offer)
    requires before <= all && IsHeard(before, o)
    ensures IsHeard(all, o)
  {
    hide SameOffer;
    var k :| 0 <= k < |before| && SameOffer(before[k], o);
    assert all[k] == before[k];
  }

  lemma LearnOne(offers: seq<Offer>, ev: Event)
    ensures var all := Learn(offers, ev);
            && (all == offers || (ev.Snapshot? && all == offers + [ev.offer] && !IsHeard(offers, ev.offer)))
            && (ev.Snapshot? ==> IsHeard(all, ev.offer))
    ensures forall o, k :: 0 <= k < |offers| && !IsHeard(offers, o) ==> !SameOffer(offers[k], o)
  {
    if ev.Snapshot? && !IsHeard(offers, ev.offer) {
      var all := Learn(offers, ev);
      assert all[|offers|] == ev.offer && SameOffer(all[|offers|], ev.offer);
    }
  }

  /** An offer of that height is among the events. */
  predicate Offered(events: seq<Event>, height: nat) {
    exists i :: 0 <= i < |events| && events[i].Snapshot? && events[i].offer.height == height
  }

  /** A search that may jump, at a height up to the maximum and with no failed height above it, jumps above the maximum
      exactly when it receives an offer above it: among the events up to the one that ends it. */
  lemma JumpsOverIff(sha: Sha, q: Query, known: seq<Offer>, events: seq<Event>, n: nat, outcome: Outcome)
    requires EndsAt(sha, q, known, events, n, outcome) && q.mayJump && q.target <= q.maxHeight
    requires q.minHeight <= q.maxHeight && forall h :: h in q.failed ==> h <= q.maxHeight
    ensures outcome.Jumped? && outcome.to > q.maxHeight <==>
            exists i :: 0 <= i <= n && i < |events| && events[i].Snapshot? && events[i].offer.height > q.maxHeight
  {
    hide LearnAll, Serves;
    if i :| 0 <= i <= n && i < |events| && events[i].Snapshot? && events[i].offer.height > q.maxHeight {
      assert i < n ==> Quiet(sha, q, LearnAll(known, events[..i]), events[i]);
    }
  }

  lemma JumpIsOffered(sha: Sha, q: Query, known: seq<Offer>, events: seq<Event>, n: nat, outcome: Outcome)
    requires EndsAt(sha, q, known, events, n, outcome) && outcome.Jumped?
    ensures Offered(events, outcome.to)
  {
    hide LearnAll, Serves, Eligible, Quiet;
  }

  /** One turn of the search loop. */
  method OnEvent(sha: Sha, q: Query, ev: Event, offers: seq<Offer>)
    returns (ended: Option<Outcome>, offers': seq<Offer>)
    ensures offers' == Learn(offers, ev)
    ensures ended.Some? ==> Ends(sha, q, offers, ev, ended.value)
    ensures ended.None? ==> Quiet(sha, q, offers, ev)
  {
    offers' := offers;
    match ev {
      case Cancel =>
        return Some(Cancelled), offers;
      case Snapshot(o, _) =>
        offers' := AddOffer(offers, o);
        if q.mayJump && IsJumpCandidate(o.height, q.target, q.minHeight, q.failed) {
          return Some(Jumped(o.height)), offers';
        }
      case Chunk(height, format, index, missing, data, _) =>
        if index == 0 && height >= q.target && (q.maxHeight == 0 || height <= q.maxHeight) && !missing && data != [] {
          var matched := MatchOffer(sha, offers, height, format, data);
          if matched.Some? {
            return Some(Accepted(matched.value, data)), offers;
          }
        }
    }
    ended := None;
  }

  /** The offers known when a search has ended with the event at n. */
  function Learned(known: seq<Offer>, events: seq<Event>, n: nat): seq<Offer> {
    LearnAll(known, if n < |events| then events[..n + 1] else events)
  }

  /** Searches one height: the first event that cancels, jumps or verifies a chunk decides it, or the deadline. */
  method SearchHeight(sha: Sha, q: Query, events: seq<Event>, known: seq<Offer>)
    returns (outcome: Outcome, offers: seq<Offer>)
    ensures exists n :: EndsAt(sha, q, known, events, n, outcome) && offers == Learned(known, events, n)
    ensures outcome.Jumped? ==> Offered(events, outcome.to)
  {
    hide Quiet, Ends, Learn;
    offers := known;
    for i := 0 to |events|
      invariant offers == LearnAll(known, events[..i])
      invariant forall j :: 0 <= j < i ==> Quiet(sha, q, LearnAll(known, events[..j]), events[j])
    {
      var ended;
      ended, offers := OnEvent(sha, q, events[i], offers);
      assert events[..i + 1][..i] == events[..i];
      if ended.Some? {
        assert EndsAt(sha, q, known, events, i, ended.value) && offers == Learned(known, events, i);
        if ended.value.Jumped? {
          JumpIsOffered(sha, q, known, events, i, ended.value);
        }
        return ended.value, offers;
      }
    }
    assert events[..|events|] == events;
    outcome := Deadline;
    assert EndsAt(sha, q, known, events, |events|, outcome) && offers == Learned(known, events, |events|);
  }

  // ---------- the walk ----------

  datatype WalkResult =
    Found(offer: Offer, chunk0: bytes) | NothingServable | Unserved | Aborted | NoUpperBound | NoTargets

  /** One search in the walk's history. */
  datatype Search = Search(height: uint64, outcome: Outcome)

  predicate FailedAt(log: seq<Search>, height: nat) {
    exists j :: 0 <= j < |log| && log[j].height == height && log[j].outcome == Deadline
  }

  /** Later searches avoid the heights of failed ones. */
  predicate NoRetry(log: seq<Search>) {
    forall j, k :: 0 <= j < k < |log| && log[j].outcome == Deadline ==> log[k].height != log[j].height
  }

  /** Every jump goes up to a height that had not failed. */
  predicate JumpsGoUp(log: seq<Search>) {
    forall j :: 0 <= j < |log| && log[j].outcome.Jumped? ==>
      log[j].outcome.to > log[j].height && !FailedAt(log[..j], log[j].outcome.to)
  }

  /** The failed set holds the heights of the searches that reached their deadline. */
  ghost predicate FailedAre(log: seq<Search>, failed: set<nat>) {
    forall h: nat :: h in failed <==> FailedAt(log, h)
  }

  lemma LogGrows(log: seq<Search>, s: Search, failed: set<nat>)
    requires NoRetry(log) && JumpsGoUp(log) && FailedAre(log, failed) && s.height !in failed
    requires s.outcome.Jumped? ==> s.outcome.to > s.height && s.outcome.to !in failed
    ensures NoRetry(log + [s]) && JumpsGoUp(log + [s])
    ensures FailedAre(log + [s], if s.outcome == Deadline then failed + {s.height} else failed)
  {
    var more := log + [s];
    assert more[..|log|] == log;
    forall j | 0 <= j < |more| && more[j].outcome.Jumped?
      ensures more[j].outcome.to > more[j].height && !FailedAt(more[..j], more[j].outcome.to)
    {
      assert more[..j] == log[..j];
    }
    forall h: nat ensures FailedAt(more, h) <==> FailedAt(log, h) || (s.height == h && s.outcome == Deadline) {
      if FailedAt(log, h) {
        var j :| 0 <= j < |log| && log[j].height == h && log[j].outcome == Deadline;
        assert more[j] == log[j];
      }
      assert more[|log|] == s;
    }
    forall j, k | 0 <= j < k < |more| && more[j].outcome == Deadline ensures more[k].height != more[j].height {
      if k == |log| {
        assert FailedAt(log, log[j].height);
      }
    }
  }

  /** Each height of a list is still queued or has failed. */
  predicate Pending(targets: seq<uint64>, queue: seq<uint64>, failed: set<nat>) {
    forall t :: t in targets ==> t in queue || t in failed
  }

  // ---------- jumps above the window ----------

  predicate Over(height: nat, maxHeight: uint64) {
    maxHeight != 0 && height > maxHeight
  }

  predicate InBounds(heights: seq<uint64>, minHeight: uint64, maxHeight: uint64) {
    forall h :: h in heights ==> minHeight <= h && !Over(h, maxHeight)
  }

  /** Some search jumped to that height. */
  predicate JumpedTo(log: seq<Search>, height: nat) {
    exists k :: 0 <= k < |log| && log[k].outcome.Jumped? && log[k].outcome.to == height
  }

  predicate Known(targets: seq<uint64>, minHeight: uint64, log: seq<Search>, height: uint64) {
    minHeight <= height && (height in targets || JumpedTo(log, height))
  }

  /** Every search was at a target or at a height that another search jumped to, and none above the maximum accepted. */
  predicate Traced(targets: seq<uint64>, minHeight: uint64, maxHeight: uint64, log: seq<Search>) {
    forall j :: 0 <= j < |log| ==>
      Known(targets, minHeight, log, log[j].height) && (log[j].outcome.Accepted? ==> !Over(log[j].height, maxHeight))
  }

  /** If search k jumped, the next search is, or will be, at the height it jumped to. */
  predicate LeadsAt(log: seq<Search>, queue: seq<uint64>, failed: set<nat>, k: nat)
    requires k < |log|
  {
    log[k].outcome.Jumped? ==>
      if k + 1 < |log| then log[k + 1].height == log[k].outcome.to
      else queue != [] && queue[0] == log[k].outcome.to && queue[0] !in failed
  }

  predicate Leads(log: seq<Search>, queue: seq<uint64>, failed: set<nat>) {
    forall k :: 0 <= k < |log| ==> LeadsAt(log, queue, failed, k)
  }

  function SearchesOver(log: seq<Search>, maxHeight: uint64): nat {
    if log == [] then 0
    else SearchesOver(log[..|log| - 1], maxHeight) + if Over(log[|log| - 1].height, maxHeight) then 1 else 0
  }

  function JumpsOver(log: seq<Search>, maxHeight: uint64): nat {
    if log == [] then 0
    else
      var o := log[|log| - 1].outcome;
      JumpsOver(log[..|log| - 1], maxHeight) + if o.Jumped? && Over(o.to, maxHeight) then 1 else 0
  }

  function CountOver(queue: seq<uint64>, maxHeight: uint64): nat {
    if queue == [] then 0 else CountOver(queue[1..], maxHeight) + if Over(queue[0], maxHeight) then 1 else 0
  }

  /** The walk is under way. */
  predicate Walking(targets: seq<uint64>, minHeight: uint64, maxHeight: uint64, log: seq<Search>, queue: seq<uint64>,
                    failed: set<nat>) {
    && Traced(targets, minHeight, maxHeight, log) && Leads(log, queue, failed)
    && (forall h :: h in queue ==> Known(targets, minHeight, log, h))
    && SearchesOver(log, maxHeight) + CountOver(queue, maxHeight) <= 2 * JumpsOver(log, maxHeight)
  }

  /** The walk is over. */
  predicate Walked(targets: seq<uint64>, minHeight: uint64, maxHeight: uint64, log: seq<Search>) {
    && Traced(targets, minHeight, maxHeight, log) && Leads(log, [], {})
    && SearchesOver(log, maxHeight) <= 2 * JumpsOver(log, maxHeight)
  }

  lemma {:induction false} NoneOver(queue: seq<uint64>, minHeight: uint64, maxHeight: uint64)
    requires InBounds(queue, minHeight, maxHeight)
    ensures CountOver(queue, maxHeight) == 0
  {
    if queue != [] {
      assert queue[0] in queue && forall h :: h in queue[1..] ==> h in queue;
      NoneOver(queue[1..], minHeight, maxHeight);
    }
  }

  lemma WalkStarts(targets: seq<uint64>, minHeight: uint64, maxHeight: uint64)
    requires InBounds(targets, minHeight, maxHeight)
    ensures Walking(targets, minHeight, maxHeight, [], targets, {})
  {
    NoneOver(targets, minHeight, maxHeight);
  }

  lemma WalkSkips(targets: seq<uint64>, minHeight: uint64, maxHeight: uint64, log: seq<Search>, queue: seq<uint64>,
                  failed: set<nat>)
    requires Walking(targets, minHeight, maxHeight, log, queue, failed) && queue != [] && queue[0] in failed
    ensures Walking(targets, minHeight, maxHeight, log, queue[1..], failed)
  {
    hide Known, Over;
    assert forall h :: h in queue[1..] ==> h in queue;
    forall k | 0 <= k < |log| ensures LeadsAt(log, queue[1..], failed, k) {
      assert LeadsAt(log, queue, failed, k);
    }
  }

  lemma TargetKnown(targets: seq<uint64>, minHeight: uint64, maxHeight: uint64, log: seq<Search>, queue: seq<uint64>,
                    failed: set<nat>)
    requires Walking(targets, minHeight, maxHeight, log, queue, failed) && queue != []
    ensures minHeight <= queue[0]
  {
    assert queue[0] in queue;
  }

  /** The queue after a search. */
  function QueueAfter(queue: seq<uint64>, o: Outcome): seq<uint64>
    requires queue != []
  {
    if o.Jumped? then [o.to, queue[0]] + queue[1..] else queue[1..]
  }

  lemma WalkSearches(targets: seq<uint64>, minHeight: uint64, maxHeight: uint64, log: seq<Search>, queue: seq<uint64>,
                     failed: set<nat>, o: Outcome)
    requires Walking(targets, minHeight, maxHeight, log, queue, failed) && queue != []
    requires o.Jumped? ==> o.to > queue[0] && o.to !in failed
    requires o.Accepted? ==> !Over(queue[0], maxHeight)
    ensures Walking(targets, minHeight, maxHeight, log + [Search(queue[0], o)], QueueAfter(queue, o),
                    if o == Deadline then failed + {queue[0]} else failed)
  {
    var s := Search(queue[0], o);
    var more, after := log + [s], QueueAfter(queue, o);
    assert more[..|log|] == log;
    assert queue[0] in queue;
    if o.Jumped? {
      assert after[1..] == [queue[0]] + queue[1..] && after[1..][1..] == queue[1..];
      assert more[|log|] == s;
    }
    forall h: uint64 | Known(targets, minHeight, log, h) ensures Known(targets, minHeight, more, h) {
      KnownGrows(targets, minHeight, log, s, h);
    }
    hide Over, SearchesOver, JumpsOver, JumpedTo;
    forall h | h in after ensures Known(targets, minHeight, more, h) {
      if o.Jumped? && h == o.to {
        JumpIsKnown(log, s);
      } else {
        assert h in queue;
      }
    }
    forall j | 0 <= j < |more|
      ensures Known(targets, minHeight, more, more[j].height)
        && (more[j].outcome.Accepted? ==> !Over(more[j].height, maxHeight))
    {
      if j < |log| {
        assert more[j] == log[j];
      }
    }
    OneMore(log, s, maxHeight, queue);
    LeadsOn(log, queue, failed, s);
  }

  lemma LeadsOn(log: seq<Search>, queue: seq<uint64>, failed: set<nat>, s: Search)
    requires Leads(log, queue, failed) && queue != [] && s.height == queue[0]
    requires s.outcome.Jumped? ==> s.outcome.to > queue[0] && s.outcome.to !in failed
    ensures Leads(log + [s], QueueAfter(queue, s.outcome),
      if s.outcome == Deadline then failed + {queue[0]} else failed)
  {
    var more := log + [s];
    var after, failed' := QueueAfter(queue, s.outcome), if s.outcome == Deadline then failed + {queue[0]} else failed;
    forall k | 0 <= k < |more| ensures LeadsAt(more, after, failed', k) {
      if k < |log| {
        assert LeadsAt(log, queue, failed, k) && more[k] == log[k];
      }
    }
  }

  lemma KnownGrows(targets: seq<uint64>, minHeight: uint64, log: seq<Search>, s: Search, h: uint64)
    requires Known(targets, minHeight, log, h)
    ensures Known(targets, minHeight, log + [s], h)
  {
    if JumpedTo(log, h) {
      var k :| 0 <= k < |log| && log[k].outcome.Jumped? && log[k].outcome.to == h;
      assert (log + [s])[k] == log[k];
    }
  }

  lemma JumpIsKnown(log: seq<Search>, s: Search)
    requires s.outcome.Jumped?
    ensures JumpedTo(log + [s], s.outcome.to)
  {
    assert (log + [s])[|log|] == s;
  }

  lemma OneMore(log: seq<Search>, s: Search, maxHeight: uint64, queue: seq<uint64>)
    requires queue != [] && queue[0] == s.height
    requires s.outcome.Jumped? ==> s.outcome.to > s.height
    requires SearchesOver(log, maxHeight) + CountOver(queue, maxHeight) <= 2 * JumpsOver(log, maxHeight)
    ensures SearchesOver(log + [s], maxHeight)
      + CountOver(QueueAfter(queue, s.outcome), maxHeight) <= 2 * JumpsOver(log + [s], maxHeight)
  {
    var more, after := log + [s], QueueAfter(queue, s.outcome);
    assert more[..|log|] == log && more[|log|] == s;
    if s.outcome.Jumped? {
      assert after[1..] == [queue[0]] + queue[1..] && after[1..][1..] == queue[1..];
    }
  }

  lemma WalkEnds(targets: seq<uint64>, minHeight: uint64, maxHeight: uint64, log: seq<Search>, queue: seq<uint64>,
                 failed: set<nat>)
    requires Walking(targets, minHeight, maxHeight, log, queue, failed)
    requires queue == [] || (log != [] && !log[|log| - 1].outcome.Jumped?)
    ensures Walked(targets, minHeight, maxHeight, log)
  {
    hide Known, Over;
    forall k | 0 <= k < |log| ensures LeadsAt(log, [], {}, k) {
      assert LeadsAt(log, queue, failed, k);
    }
  }

  /** A walk searches only in its window exactly when none of its jumps goes above the maximum. Searches above the
      maximum accept nothing (Walked), and there are at most two for each such jump. */
  lemma SearchesStayInWindowIff(cfg: Config, targets: seq<uint64>, log: seq<Search>)
    requires cfg.targetHeight == 0 && InBounds(targets, cfg.minHeight, cfg.maxHeight)
    requires Walked(targets, cfg.minHeight, cfg.maxHeight, log)
    ensures (forall j :: 0 <= j < |log| ==> InWindow(log[j].height, cfg)) <==>
            (forall k :: 0 <= k < |log| && log[k].outcome.Jumped? ==> !Over(log[k].outcome.to, cfg.maxHeight))
    ensures SearchesOver(log, cfg.maxHeight) <= 2 * JumpsOver(log, cfg.maxHeight)
  {
    if k :| 0 <= k < |log| && log[k].outcome.Jumped? && Over(log[k].outcome.to, cfg.maxHeight) {
      assert LeadsAt(log, [], {}, k);
      assert !InWindow(log[k + 1].height, cfg);
    } else {
      forall j | 0 <= j < |log| ensures InWindow(log[j].height, cfg) {
        assert Known(targets, cfg.minHeight, log, log[j].height);
      }
    }
  }

  /** A jump above the maximum happens: an offer at height 11 while height 10 is searched in the window from 1 to 10. */
  lemma JumpLeavesWindow(sha: Sha, offer: Offer, peer: nat)
    requires offer.height == 11
    ensures EndsAt(sha, Query(10, 1, 10, {}, true), [], [Snapshot(offer, peer)], 0, Jumped(11)) && Over(11, 10)
  {
    assert [Snapshot(offer, peer)][..0] == [];
  }

  // ---------- the walk as a function of what it receives ----------

  /** The heights whose searches have reached their deadline. */
  function FailedHeights(log: seq<Search>): set<nat> {
    if log == [] then {}
    else
      var s := log[|log| - 1];
      FailedHeights(log[..|log| - 1]) + if s.outcome == Deadline then {s.height as nat} else {}
  }

  function JumpsMade(log: seq<Search>): nat {
    if log == [] then 0 else JumpsMade(log[..|log| - 1]) + if log[|log| - 1].outcome.Jumped? then 1 else 0
  }

  /** The queue without the failed heights at its front. */
  function Live(queue: seq<uint64>, failed: set<nat>): seq<uint64> {
    if queue != [] && queue[0] in failed then Live(queue[1..], failed) else queue
  }

  /** The heights that the walk still has to search, the next one first: the targets in order, and before them, after a
      jump, the height jumped to and the height jumped from. */
  function ToSearch(targets: seq<uint64>, log: seq<Search>): seq<uint64> {
    if log == [] then targets
    else
      var before := log[..|log| - 1];
      var queue := ToSearch(targets, before);
      Live(if queue == [] then [] else QueueAfter(queue, log[|log| - 1].outcome), FailedHeights(log))
  }

  /** What search j is given. */
  function QueryAt(cfg: Config, targets: seq<uint64>, log: seq<Search>, j: nat): Query
    requires j < |log|
  {
    var window := EffectiveWindow(cfg);
    Query(log[j].height, window.0, window.1, FailedHeights(log[..j]),
          cfg.targetHeight == 0 && JumpsMade(log[..j]) < 2 * |targets|)
  }

  /** Search j is at the next height and ends as its events say, given the offers heard before it. */
  ghost predicate SearchIs(sha: Sha, cfg: Config, targets: seq<uint64>, feed: nat -> seq<Event>, log: seq<Search>,
                           heard: seq<seq<Offer>>, j: nat)
    requires j < |log| && |heard| == |log| + 1
  {
    && ToSearch(targets, log[..j]) != [] && ToSearch(targets, log[..j])[0] == log[j].height
    && exists n :: EndsAt(sha, QueryAt(cfg, targets, log, j), heard[j], feed(j), n, log[j].outcome)
         && heard[j + 1] == Learned(heard[j], feed(j), n)
  }

  /** The log is what the walk does with that feed; heard are the offers known before each search and at the end. */
  ghost predicate Replays(sha: Sha, cfg: Config, targets: seq<uint64>, known: seq<Offer>, feed: nat -> seq<Event>,
                          log: seq<Search>, heard: seq<seq<Offer>>) {
    && |heard| == |log| + 1 && heard[0] == known
    && forall j :: 0 <= j < |log| ==> SearchIs(sha, cfg, targets, feed, log, heard, j)
  }

  /** The result follows from the last search, and from there being nothing left to search. */
  predicate ResultIs(cfg: Config, targets: seq<uint64>, log: seq<Search>, r: WalkResult) {
    var last := if log == [] then Deadline else log[|log| - 1].outcome;
    match last
    case Accepted(o, data) => r == WalkResult.Found(o, data)
    case Cancelled => r == Aborted
    case _ => if cfg.targetHeight != 0 then r == Unserved else r == NothingServable && ToSearch(targets, log) == []
  }

  lemma ReplayStep(sha: Sha, cfg: Config, targets: seq<uint64>, known: seq<Offer>, feed: nat -> seq<Event>,
                   log: seq<Search>, heard: seq<seq<Offer>>, s: Search, offers: seq<Offer>, n: nat)
    requires Replays(sha, cfg, targets, known, feed, log, heard)
    requires ToSearch(targets, log) != [] && ToSearch(targets, log)[0] == s.height
    requires EndsAt(sha, QueryAt(cfg, targets, log + [s], |log|), heard[|log|], feed(|log|), n, s.outcome)
    requires offers == Learned(heard[|log|], feed(|log|), n)
    ensures Replays(sha, cfg, targets, known, feed, log + [s], heard + [offers])
  {
    hide ToSearch, FailedHeights, JumpsMade, EndsAt, Learned, EffectiveWindow;
    var more, heard' := log + [s], heard + [offers];
    assert more[..|log|] == log;
    forall j | 0 <= j < |more| ensures SearchIs(sha, cfg, targets, feed, more, heard', j) {
      if j < |log| {
        assert SearchIs(sha, cfg, targets, feed, log, heard, j);
        assert more[..j] == log[..j] && more[j] == log[j] && heard'[j] == heard[j] && heard'[j + 1] == heard[j + 1];
        assert QueryAt(cfg, targets, more, j) == QueryAt(cfg, targets, log, j);
      } else {
        assert EndsAt(sha, QueryAt(cfg, targets, more, j), heard'[j], feed(j), n, more[j].outcome);
      }
    }
  }

  /** The queue, the failed set and the number of jumps after one more search. */
  lemma AfterSearch(targets: seq<uint64>, log: seq<Search>, queue: seq<uint64>, s: Search)
    requires queue != [] && ToSearch(targets, log) == queue
    ensures FailedHeights(log + [s]) == FailedHeights(log) + if s.outcome == Deadline then {s.height as nat} else {}
    ensures JumpsMade(log + [s]) == JumpsMade(log) + if s.outcome.Jumped? then 1 else 0
    ensures ToSearch(targets, log + [s]) == Live(QueueAfter(queue, s.outcome), FailedHeights(log + [s]))
  {
    assert (log + [s])[..|log|] == log;
  }

  /** A search that may jump does so at the first offer above its height, not below the minimum, of a height that has
      not failed, unless it has ended before. */
  lemma TakesJump(sha: Sha, q: Query, known: seq<Offer>, events: seq<Event>, n: nat, outcome: Outcome, i: nat)
    requires EndsAt(sha, q, known, events, n, outcome) && i <= n && i < |events|
    requires q.mayJump && events[i].Snapshot?
    requires var h := events[i].offer.height; h > q.target && h >= q.minHeight && h !in q.failed
    ensures n == i && outcome == Jumped(events[i].offer.height)
  {
    hide LearnAll, Serves;
    assert i < n ==> Quiet(sha, q, LearnAll(known, events[..i]), events[i]);
  }

  /** A search accepts the first chunk 0 that matches an offer heard before, of a height from its own up to the maximum,
      unless it has ended before. */
  lemma TakesChunk(sha: Sha, q: Query, known: seq<Offer>, events: seq<Event>, n: nat, outcome: Outcome, i: nat,
                   o: Offer)
    requires EndsAt(sha, q, known, events, n, outcome) && i <= n && i < |events|
    requires events[i].Chunk? && events[i].index == 0 && !events[i].missing && events[i].data != []
    requires q.target <= events[i].height && (q.maxHeight == 0 || events[i].height <= q.maxHeight)
    requires o in LearnAll(known, events[..i]) && o.height == events[i].height && o.format == events[i].format
    requires o.chunkHashes.Some? && |o.chunkHashes.value| == o.chunks > 0
      && sha(events[i].data) == o.chunkHashes.value[0]
    ensures n == i && outcome.Accepted? && outcome.chunk0 == events[i].data
    ensures outcome.offer in LearnAll(known, events[..i])
      && outcome.offer.height == o.height && outcome.offer.format == o.format
      && outcome.offer.chunkHashes.Some? && outcome.offer.chunkHashes.value != []
      && outcome.offer.chunkHashes.value[0] == sha(outcome.chunk0)
  {
    hide LearnAll;
    var offers := LearnAll(known, events[..i]);
    assert i < n ==> Quiet(sha, q, offers, events[i]);
    var k :| 0 <= k < |offers| && offers[k] == o;
    assert Serves(sha, offers[k], events[i].height, events[i].format, events[i].data);
  }

  /** The events decide how a search ends. */
  lemma OneEnd(sha: Sha, q: Query, known: seq<Offer>, events: seq<Event>, n: nat, o: Outcome, n': nat, o': Outcome)
    requires EndsAt(sha, q, known, events, n, o) && EndsAt(sha, q, known, events, n', o')
    ensures n == n' && o == o'
  {
    hide LearnAll, Serves;
    if n < n' {
      QuietIsNoEnd(sha, q, LearnAll(known, events[..n]), events[n], o);
      assert false;
    }
    if n' < n {
      QuietIsNoEnd(sha, q, LearnAll(known, events[..n']), events[n'], o');
      assert false;
    }
    if n < |events| {
      SameEnd(sha, q, LearnAll(known, events[..n]), events[n], o, o');
    }
  }

  lemma QuietIsNoEnd(sha: Sha, q: Query, offers: seq<Offer>, ev: Event, o: Outcome)
    requires Ends(sha, q, offers, ev, o)
    ensures !Quiet(sha, q, offers, ev)
  {
    hide Serves;
  }

  lemma SameEnd(sha: Sha, q: Query, offers: seq<Offer>, ev: Event, o: Outcome, o': Outcome)
    requires Ends(sha, q, offers, ev, o) && Ends(sha, q, offers, ev, o')
    ensures o == o'
  {
    hide Serves;
    if o.Accepted? {
      var i :| 0 <= i < |offers| && offers[i] == o.offer
        && NoneServes(sha, offers[..i], ev.height, ev.format, ev.data);
      var j :| 0 <= j < |offers| && offers[j] == o'.offer
        && NoneServes(sha, offers[..j], ev.height, ev.format, ev.data);
      NoneBefore(sha, offers, i, ev.height, ev.format, ev.data);
      NoneBefore(sha, offers, j, ev.height, ev.format, ev.data);
    }
  }

  lemma NoneBefore(sha: Sha, offers: seq<Offer>, i: nat, height: uint64, format: uint32, data: bytes)
    requires i <= |offers| && NoneServes(sha, offers[..i], height, format, data)
    ensures forall m :: 0 <= m < i ==> !Serves(sha, offers[m], height, format, data)
  {
    hide Serves;
    forall m | 0 <= m < i ensures !Serves(sha, offers[m], height, format, data) {
      assert offers[..i][m] == offers[m];
    }
  }

  /** What the walk receives decides every search: two logs of one feed agree as far as both go. */
  lemma {:induction false} FeedDecides(sha: Sha, cfg: Config, targets: seq<uint64>, known: seq<Offer>,
                                       feed: nat -> seq<Event>, a: seq<Search>, heardA: seq<seq<Offer>>,
                                       b: seq<Search>, heardB: seq<seq<Offer>>, n: nat)
    requires Replays(sha, cfg, targets, known, feed, a, heardA) && Replays(sha, cfg, targets, known, feed, b, heardB)
    requires n <= |a| && n <= |b|
    ensures a[..n] == b[..n] && heardA[n] == heardB[n]
  {
    hide ToSearch, FailedHeights, JumpsMade, EndsAt, Learned, EffectiveWindow;
    if n > 0 {
      var j := n - 1;
      FeedDecides(sha, cfg, targets, known, feed, a, heardA, b, heardB, j);
      assert SearchIs(sha, cfg, targets, feed, a, heardA, j) && SearchIs(sha, cfg, targets, feed, b, heardB, j);
      var x :| EndsAt(sha, QueryAt(cfg, targets, a, j), heardA[j], feed(j), x, a[j].outcome)
        && heardA[n] == Learned(heardA[j], feed(j), x);
      var y :| EndsAt(sha, QueryAt(cfg, targets, b, j), heardB[j], feed(j), y, b[j].outcome)
        && heardB[n] == Learned(heardB[j], feed(j), y);
      OneEnd(sha, QueryAt(cfg, targets, a, j), heardA[j], feed(j), x, a[j].outcome, y, b[j].outcome);
      assert a[..n] == a[..j] + [a[j]] && b[..n] == b[..j] + [b[j]];
    }
  }

  /** While jumps are left, an offer above the searched height is followed by a search at the offered height. */
  lemma OfferIsFollowed(sha: Sha, cfg: Config, targets: seq<uint64>, known: seq<Offer>, feed: nat -> seq<Event>,
                        log: seq<Search>, heard: seq<seq<Offer>>, j: nat, i: nat)
    requires Replays(sha, cfg, targets, known, feed, log, heard) && cfg.targetHeight == 0
    requires j < |log| && i < |feed(j)| && feed(j)[i].Snapshot? && JumpsMade(log[..j]) < 2 * |targets|
    requires var h := feed(j)[i].offer.height;
             h > log[j].height && h >= cfg.minHeight && h !in FailedHeights(log[..j])
    requires forall m :: 0 <= m < i ==>
      match feed(j)[m]
      case Snapshot(o, _) => o.height <= log[j].height
      case Chunk(_, _, index, missing, data, _) => index != 0 || missing || data == []
      case Cancel => false
    ensures log[j].outcome == Jumped(feed(j)[i].offer.height)
    ensures j + 1 < |log| ==> log[j + 1].height == feed(j)[i].offer.height
    ensures j + 1 == |log| ==> ToSearch(targets, log) != [] && ToSearch(targets, log)[0] == feed(j)[i].offer.height
  {
    hide EndsAt, Learned, ToSearch, JumpsMade, FailedHeights;
    assert SearchIs(sha, cfg, targets, feed, log, heard, j);
    var q := QueryAt(cfg, targets, log, j);
    var n :| EndsAt(sha, q, heard[j], feed(j), n, log[j].outcome) && heard[j + 1] == Learned(heard[j], feed(j), n);
    NotBefore(sha, q, heard[j], feed(j), n, log[j].outcome, i);
    TakesJump(sha, q, heard[j], feed(j), n, log[j].outcome, i);
    AfterSearch(targets, log[..j], ToSearch(targets, log[..j]), log[j]);
    var s := log[j];
    assert log[..j] + [s] == log[..j + 1];
    JumpIsNext(ToSearch(targets, log[..j]), s.outcome, FailedHeights(log[..j + 1]));
    if j + 1 < |log| {
      assert SearchIs(sha, cfg, targets, feed, log, heard, j + 1);
    } else {
      assert log[..j + 1] == log;
    }
  }

  lemma JumpIsNext(queue: seq<uint64>, o: Outcome, failed: set<nat>)
    requires queue != [] && o.Jumped? && o.to !in failed
    ensures var next := Live(QueueAfter(queue, o), failed); next != [] && next[0] == o.to
  {}

  /** Events that neither cancel, offer more nor carry a first chunk do not end a search. */
  lemma NotBefore(sha: Sha, q: Query, known: seq<Offer>, events: seq<Event>, n: nat, outcome: Outcome, i: nat)
    requires EndsAt(sha, q, known, events, n, outcome) && i <= |events|
    requires forall m :: 0 <= m < i ==>
      match events[m]
      case Snapshot(o, _) => o.height <= q.target
      case Chunk(_, _, index, missing, data, _) => index != 0 || missing || data == []
      case Cancel => false
    ensures i <= n
  {
    hide LearnAll, Serves;
  }

  // ---------- one turn of the walk ----------

  /** Every jump was offered in the search that it ended. */
  ghost predicate JumpsOffered(log: seq<Search>, feed: nat -> seq<Event>) {
    forall j :: 0 <= j < |log| && log[j].outcome.Jumped? ==> Offered(feed(j), log[j].outcome.to)
  }

  /** The log's own properties. */
  ghost predicate LogOk(sha: Sha, cfg: Config, targets: seq<uint64>, known: seq<Offer>, feed: nat -> seq<Event>,
                        log: seq<Search>, heard: seq<seq<Offer>>) {
    && NoRetry(log) && JumpsGoUp(log) && JumpsOffered(log, feed)
    && |heard| == |log| + 1 && Replays(sha, cfg, targets, known, feed, log, heard)
  }

  /** The failed set, the number of jumps and the queue are those of the log. */
  ghost predicate InStep(targets: seq<uint64>, log: seq<Search>, queue: seq<uint64>, failed: set<nat>, jumps: nat) {
    && FailedAre(log, failed) && FailedHeights(log) == failed && JumpsMade(log) == jumps
    && Live(queue, failed) == ToSearch(targets, log)
    && (log != [] ==> log[|log| - 1].outcome == Deadline || log[|log| - 1].outcome.Jumped?)
  }

  lemma StepLog(sha: Sha, cfg: Config, targets: seq<uint64>, known: seq<Offer>, feed: nat -> seq<Event>,
                log: seq<Search>, heard: seq<seq<Offer>>, queue: seq<uint64>, failed: set<nat>, jumps: nat,
                o: Outcome, offers: seq<Offer>, n: nat)
    requires LogOk(sha, cfg, targets, known, feed, log, heard) && InStep(targets, log, queue, failed, jumps)
    requires queue != [] && queue[0] !in failed
    requires var w := EffectiveWindow(cfg);
             EndsAt(sha, Query(queue[0], w.0, w.1, failed, cfg.targetHeight == 0 && jumps < 2 * |targets|),
                    heard[|log|], feed(|log|), n, o)
    requires offers == Learned(heard[|log|], feed(|log|), n)
    ensures LogOk(sha, cfg, targets, known, feed, log + [Search(queue[0], o)], heard + [offers])
  {
    hide EndsAt, Learned, FailedHeights, JumpsMade, ToSearch, Offered, Replays, FailedAre, NoRetry, JumpsGoUp;
    var s := Search(queue[0], o);
    var w := EffectiveWindow(cfg);
    var q := Query(queue[0], w.0, w.1, failed, cfg.targetHeight == 0 && jumps < 2 * |targets|);
    OutcomeOk(sha, q, heard[|log|], feed(|log|), n, o);
    LogGrows(log, s, failed);
    QueryIs(cfg, targets, log, s);
    ReplayStep(sha, cfg, targets, known, feed, log, heard, s, offers, n);
    if o.Jumped? {
      JumpIsOffered(sha, q, heard[|log|], feed(|log|), n, o);
    }
  }

  lemma StepQueue(targets: seq<uint64>, log: seq<Search>, queue: seq<uint64>, failed: set<nat>, jumps: nat, o: Outcome)
    requires NoRetry(log) && JumpsGoUp(log)
    requires InStep(targets, log, queue, failed, jumps) && queue != [] && queue[0] !in failed
    requires o == Deadline || (o.Jumped? && o.to > queue[0] && o.to !in failed)
    ensures InStep(targets, log + [Search(queue[0], o)], QueueAfter(queue, o),
                   if o == Deadline then failed + {queue[0]} else failed, jumps + if o.Jumped? then 1 else 0)
  {
    hide FailedHeights, JumpsMade, ToSearch, FailedAre, NoRetry, JumpsGoUp;
    LogGrows(log, Search(queue[0], o), failed);
    AfterSearch(targets, log, queue, Search(queue[0], o));
  }

  /** The walk over a queue of heights. Whatever peers send, it makes at most 3 * maxJumps + |targets| searches with
      maxJumps = 2 * |targets|, searches no failed height again, and what it accepts is in the window and verified;
      it gives up only when each of its targets has had its deadline. What it does is what the feed makes it do. */
  method WalkQueue(sha: Sha, cfg: Config, targets: seq<uint64>, known: seq<Offer>, feed: nat -> seq<Event>)
    returns (r: WalkResult, ghost log: seq<Search>, ghost heard: seq<seq<Offer>>)
    requires InBounds(targets, EffectiveWindow(cfg).0, EffectiveWindow(cfg).1)
    requires cfg.targetHeight != 0 ==> targets == [cfg.targetHeight]
    ensures r.Found? ==>
      && InWindow(r.offer.height, cfg) && VerifiesChunkZero(sha, r.offer, r.chunk0) && r.chunk0 != []
      && log != [] && log[|log| - 1].outcome == Accepted(r.offer, r.chunk0) && log[|log| - 1].height <= r.offer.height
    ensures LogOk(sha, cfg, targets, known, feed, log, heard) && ResultIs(cfg, targets, log, r)
    ensures |log| <= 7 * |targets| && (cfg.targetHeight != 0 ==> |log| <= 1)
    ensures Walked(targets, EffectiveWindow(cfg).0, EffectiveWindow(cfg).1, log)
    ensures r == NothingServable ==> cfg.targetHeight == 0 && forall t :: t in targets ==> FailedAt(log, t)
    ensures r == Unserved ==> cfg.targetHeight != 0 && log == [Search(cfg.targetHeight, Deadline)]
    ensures r != NoUpperBound && r != NoTargets
  {
    hide Walking, Walked, InBounds, Known, LogOk, InStep, EndsAt, Learned, ToSearch, VerifiesChunkZero;
    var minHeight, maxHeight := EffectiveWindow(cfg).0, EffectiveWindow(cfg).1;
    WalkStarts(targets, minHeight, maxHeight);
    var queue := targets;
    var failed: set<nat> := {};
    var offers := known;
    var maxJumps := 2 * |targets|;
    var jumps := 0;
    var round := 0;
    log, heard := [], [known];
    LogStarts(sha, cfg, targets, known, feed);
    while |queue| > 0
      invariant Pending(targets, queue, failed) && Walking(targets, minHeight, maxHeight, log, queue, failed)
      invariant cfg.targetHeight != 0 ==> failed == {} && queue == targets && log == []
      invariant 0 <= jumps <= maxJumps && round == |log|
      invariant LogOk(sha, cfg, targets, known, feed, log, heard) && |heard| == |log| + 1 && heard[|log|] == offers
      invariant InStep(targets, log, queue, failed, jumps)
      invariant |log| + 3 * (maxJumps - jumps) + |queue| <= 3 * maxJumps + |targets|
      decreases 3 * (maxJumps - jumps) + |queue|
    {
      var target := queue[0];
      ghost var whole := queue;
      queue := queue[1..];
      assert whole == [target] + queue;
      if target in failed {
        WalkSkips(targets, minHeight, maxHeight, log, whole, failed);
        SkipQueue(targets, log, whole, failed, jumps);
        continue;
      }
      var outcome;
      var q := Query(target, minHeight, maxHeight, failed, cfg.targetHeight == 0 && jumps < maxJumps);
      outcome, offers := SearchHeight(sha, q, feed(round), offers);
      round := round + 1;
      ghost var n :| EndsAt(sha, q, heard[|log|], feed(|log|), n, outcome)
        && offers == Learned(heard[|log|], feed(|log|), n);
      OutcomeOk(sha, q, heard[|log|], feed(|log|), n, outcome);
      StepLog(sha, cfg, targets, known, feed, log, heard, whole, failed, jumps, outcome, offers, n);
      LogParts(sha, cfg, targets, known, feed, log, heard);
      TargetKnown(targets, minHeight, maxHeight, log, whole, failed);
      WalkSearches(targets, minHeight, maxHeight, log, whole, failed, outcome);
      ghost var before := log;
      log, heard := log + [Search(target, outcome)], heard + [offers];
      if !outcome.Jumped? {
        WalkEnds(targets, minHeight, maxHeight, log, queue, if outcome == Deadline then failed + {target} else failed);
      }
      match outcome {
        case Cancelled =>
          return Aborted, log, heard;
        case Accepted(o, data) =>
          return Found(o, data), log, heard;
        case Jumped(to) =>
          StepQueue(targets, before, whole, failed, jumps, outcome);
          queue := [to, target] + queue;
          jumps := jumps + 1;
        case Deadline =>
          if cfg.targetHeight != 0 {
            return Unserved, log, heard;
          }
          StepQueue(targets, before, whole, failed, jumps, outcome);
          failed := failed + {target};
      }
    }
    WalkEnds(targets, minHeight, maxHeight, log, queue, failed);
    GivesUp(targets, log, failed, jumps);
    r := NothingServable;
  }

  lemma LogStarts(sha: Sha, cfg: Config, targets: seq<uint64>, known: seq<Offer>, feed: nat -> seq<Event>)
    ensures LogOk(sha, cfg, targets, known, feed, [], [known]) && InStep(targets, [], targets, {}, 0)
  {}

  lemma LogParts(sha: Sha, cfg: Config, targets: seq<uint64>, known: seq<Offer>, feed: nat -> seq<Event>,
                 log: seq<Search>, heard: seq<seq<Offer>>)
    requires LogOk(sha, cfg, targets, known, feed, log, heard)
    ensures NoRetry(log) && JumpsGoUp(log)
  {}

  lemma SkipQueue(targets: seq<uint64>, log: seq<Search>, queue: seq<uint64>, failed: set<nat>, jumps: nat)
    requires InStep(targets, log, queue, failed, jumps) && queue != [] && queue[0] in failed
    ensures InStep(targets, log, queue[1..], failed, jumps)
  {}

  /** With nothing in the queue every target has failed. */
  lemma GivesUp(targets: seq<uint64>, log: seq<Search>, failed: set<nat>, jumps: nat)
    requires InStep(targets, log, [], failed, jumps) && Pending(targets, [], failed)
    ensures ToSearch(targets, log) == [] && forall t :: t in targets ==> FailedAt(log, t)
    ensures log != [] ==> log[|log| - 1].outcome == Deadline || log[|log| - 1].outcome.Jumped?
  {
    hide FailedHeights, JumpsMade, ToSearch;
  }

  /** What the outcome of a search says about its height and the window. */
  lemma OutcomeOk(sha: Sha, q: Query, known: seq<Offer>, events: seq<Event>, n: nat, o: Outcome)
    requires EndsAt(sha, q, known, events, n, o)
    ensures o.Jumped? ==> q.mayJump && o.to > q.target && o.to >= q.minHeight && o.to !in q.failed
    ensures o.Accepted? ==>
      && q.target <= o.offer.height && (q.maxHeight == 0 || o.offer.height <= q.maxHeight)
      && VerifiesChunkZero(sha, o.offer, o.chunk0) && o.chunk0 != []
  {
    hide LearnAll, VerifiesChunkZero, Quiet;
  }

  lemma QueryIs(cfg: Config, targets: seq<uint64>, log: seq<Search>, s: Search)
    ensures QueryAt(cfg, targets, log + [s], |log|)
         == Query(s.height, EffectiveWindow(cfg).0, EffectiveWindow(cfg).1, FailedHeights(log),
                  cfg.targetHeight == 0 && JumpsMade(log) < 2 * |targets|)
  {
    assert (log + [s])[..|log|] == log;
  }

  /** The whole walk: the window is fixed first, then the targets. */
  method WalkBackward(sha: Sha, cfg: Config, warm: seq<Offer>, feed: nat -> seq<Event>)
    returns (r: WalkResult, ghost log: seq<Search>, ghost plan: seq<uint64>, ghost heard: seq<seq<Offer>>)
    ensures r.Found? ==> InWindow(r.offer.height, cfg) && VerifiesChunkZero(sha, r.offer, r.chunk0)
    ensures if cfg.targetHeight != 0 then |log| <= 1
            else if cfg.interval == 0 then log == [] else |log| <= 7 * (cfg.maxHeight / cfg.interval)
    ensures cfg.targetHeight != 0 ==> plan == [cfg.targetHeight]
    ensures cfg.targetHeight == 0 ==>
      forall h: nat :: h in plan <==> Wanted(h, cfg.maxHeight, cfg.minHeight, cfg.interval)
    ensures forall j, k :: 0 <= j < k < |plan| ==> plan[j] > plan[k]
    ensures LogOk(sha, cfg, plan, warm, feed, log, heard)
    ensures if plan == [] then r == (if cfg.maxHeight == 0 then NoUpperBound else NoTargets)
            else ResultIs(cfg, plan, log, r)
    ensures cfg.targetHeight == 0 ==>
      InBounds(plan, cfg.minHeight, cfg.maxHeight) && Walked(plan, cfg.minHeight, cfg.maxHeight, log)
    ensures cfg.targetHeight == 0 && (forall n, h: nat :: Offered(feed(n), h) ==> !Over(h, cfg.maxHeight)) ==>
      forall j :: 0 <= j < |log| ==> InWindow(log[j].height, cfg)
    ensures r == NoUpperBound <==> cfg.targetHeight == 0 && cfg.maxHeight == 0
    ensures r == NothingServable ==> forall h: nat :: Wanted(h, cfg.maxHeight, cfg.minHeight, cfg.interval) ==>
      FailedAt(log, h)
  {
    log, plan, heard := [], [], [warm];
    LogStarts(sha, cfg, [], warm, feed);
    var targets: seq<uint64>;
    if cfg.targetHeight != 0 {
      targets := [cfg.targetHeight];
    } else if cfg.maxHeight == 0 {
      return NoUpperBound, log, plan, heard;
    } else {
      targets := WalkTargets(cfg.maxHeight, cfg.minHeight, cfg.interval);
      if |targets| == 0 {
        return NoTargets, log, plan, heard;
      }
    }
    plan := targets;
    hide LogOk, ResultIs;
    r, log, heard := WalkQueue(sha, cfg, targets, warm, feed);
    if cfg.targetHeight == 0 {
      SearchesStayInWindowIff(cfg, targets, log);
    }
  }
}
