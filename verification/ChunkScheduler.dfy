/** The chunk scheduler: requests, replies that may be late, duplicate, missing or wrong, timeouts, disconnects,
    write failures, and the resume of a partial download. Whatever the order of events no chunk is lost, and
    what is completed is right and stays. */
module ChunkScheduler {
  import opened Bytes
  import opened IavlEncoding

  type Peer = nat

  datatype PeerStat = PeerStat(
    inflight: nat, failures: nat, banned: bool, provisional: bool, chunks: nat, wasGood: bool, declined: set<nat>)

  const NEW_PEER := PeerStat(0, 0, false, false, 0, false, {})

  function RemoveInflight(st: PeerStat): PeerStat {
    if st.inflight > 0 then st.(inflight := st.inflight - 1) else st
  }

  function RecordFailure(st: PeerStat, limit: nat): PeerStat {
    if st.banned then st
    else st.(failures := st.failures + 1, banned := st.failures + 1 >= limit)
  }

  /** A chunk file: chunk_<idx>.bin with the index written in some form; form 0 is the canonical one. */
  datatype FileName = FileName(idx: nat, form: nat)

  /** What a scan of the snapshot directory finds. */
  datatype DirEntry = Leftover(removed: bool) | ChunkFile(name: FileName, readable: bool, removable: bool) | Unrelated

  // ---------- the books ----------

  /** The content of a completed chunk, by index; None while it is not completed. */
  type Held = seq<Option<bytes>>

  function CountHeld(held: Held): nat {
    if held == [] then 0 else CountHeld(held[..|held| - 1]) + if held[|held| - 1].Some? then 1 else 0
  }

  function SizeHeld(held: Held): nat {
    if held == [] then 0
    else SizeHeld(held[..|held| - 1]) + if held[|held| - 1].Some? then |held[|held| - 1].value| else 0
  }

  lemma {:induction false} HoldOne(held: Held, i: nat, data: bytes)
    requires i < |held| && held[i].None?
    ensures CountHeld(held[i := Some(data)]) == CountHeld(held) + 1
    ensures SizeHeld(held[i := Some(data)]) == SizeHeld(held) + |data|
  {
    var n := |held| - 1;
    if i == n {
      assert held[i := Some(data)][..n] == held[..n];
    } else {
      assert held[i := Some(data)][..n] == held[..n][i := Some(data)];
      HoldOne(held[..n], i, data);
    }
  }

  lemma {:induction false} AllHeld(held: Held)
    ensures CountHeld(held) <= |held|
    ensures CountHeld(held) == |held| <==> forall i :: 0 <= i < |held| ==> held[i].Some?
  {
    if held != [] {
      var n := |held| - 1;
      AllHeld(held[..n]);
      assert forall i :: 0 <= i < n ==> held[..n][i] == held[i];
    }
  }

  lemma {:induction false} NoneHeld(n: nat, held: Held)
    requires |held| == n && forall i :: 0 <= i < n ==> held[i].None?
    ensures CountHeld(held) == 0 && SizeHeld(held) == 0
  {
    if n > 0 {
      NoneHeld(n - 1, held[..n - 1]);
    }
  }

  /** Every chunk is completed, waiting to be requested, or requested. */
  predicate NothingLost(pending: seq<bool>, completed: seq<bool>, inflight: map<nat, Peer>) {
    && |pending| == |completed|
    && (forall i :: 0 <= i < |completed| ==> completed[i] || pending[i] || i in inflight)
    && (forall i :: i in inflight ==> i < |completed|)
  }

  /** The books on completed chunks: content, hash, counts, and one ready call each. */
  predicate BooksOk(sha: Sha, hashes: seq<Hash32>, completed: seq<bool>, held: Held, doneCount: nat, bytesTotal: nat,
                    ready: seq<nat>) {
    && |completed| == |hashes| == |held|
    && (forall i :: 0 <= i < |held| ==> (completed[i] <==> held[i].Some?))
    && (forall i :: 0 <= i < |held| && held[i].Some? ==> sha(held[i].value) == hashes[i])
    && doneCount == CountHeld(held) && bytesTotal == SizeHeld(held)
    && (forall i :: 0 <= i < |held| ==> (held[i].Some? <==> i in ready))
    && (forall j, k :: 0 <= j < k < |ready| ==> ready[j] != ready[k])
    && (forall i :: i in ready ==> i < |held|)
  }

  /** The file of every completed chunk is on disk, under some form of its name. */
  ghost predicate FilesOk(held: Held, files: map<FileName, bytes>, form: map<nat, nat>) {
    forall i: nat :: i < |held| && held[i].Some? ==>
      i in form && FileName(i, form[i]) in files && files[FileName(i, form[i])] == held[i].value
  }

  /** Nothing that was completed is undone or reported again. */
  ghost predicate Kept(held: Held, held': Held, files: map<FileName, bytes>, files': map<FileName, bytes>,
                       form: map<nat, nat>, form': map<nat, nat>, ready: seq<nat>, ready': seq<nat>) {
    && |held'| == |held| && ready <= ready'
    && (forall i: nat :: i < |held| && held[i].Some? ==>
        held'[i] == held[i] && i in form && i in form' && form'[i] == form[i]
        && FileName(i, form[i]) in files && FileName(i, form[i]) in files'
        && files'[FileName(i, form[i])] == files[FileName(i, form[i])])
  }

  /** A chunk becomes completed. */
  lemma Complete(sha: Sha, hashes: seq<Hash32>, completed: seq<bool>, held: Held, doneCount: nat, bytesTotal: nat,
                 ready: seq<nat>,
                 i: nat, data: bytes)
    requires BooksOk(sha, hashes, completed, held, doneCount, bytesTotal, ready)
    requires i < |held| && held[i].None? && sha(data) == hashes[i]
    ensures BooksOk(sha, hashes, completed[i := true], held[i := Some(data)], doneCount + 1, bytesTotal + |data|,
      ready + [i])
  {
    HoldOne(held, i, data);
    hide CountHeld, SizeHeld;
    assert i !in ready;
  }

  /** A completed chunk's file is added, or was there; the other completed chunks' files are untouched. */
  lemma FileAdded(held: Held, files: map<FileName, bytes>, form: map<nat, nat>, ready: seq<nat>, i: nat, f: nat,
                  files': map<FileName, bytes>, data: bytes)
    requires FilesOk(held, files, form) && i < |held| && held[i].None?
    requires files' == files[FileName(i, f) := data]
    ensures FilesOk(held[i := Some(data)], files', form[i := f])
    ensures Kept(held, held[i := Some(data)], files, files', form, form[i := f], ready, ready + [i])
  {}

  /** Removing the file of a chunk that is not completed. */
  lemma FileRemoved(held: Held, files: map<FileName, bytes>, form: map<nat, nat>, ready: seq<nat>, name: FileName)
    requires FilesOk(held, files, form) && (name.idx < |held| ==> held[name.idx].None?)
    ensures FilesOk(held, files - {name}, form)
    ensures Kept(held, held, files, files - {name}, form, form, ready, ready)
  {}

  lemma KeptTransitive(h1: Held, h2: Held, h3: Held, f1: map<FileName, bytes>, f2: map<FileName, bytes>,
                       f3: map<FileName, bytes>,
                       m1: map<nat, nat>, m2: map<nat, nat>, m3: map<nat, nat>, r1: seq<nat>, r2: seq<nat>,
                       r3: seq<nat>)
    requires Kept(h1, h2, f1, f2, m1, m2, r1, r2) && Kept(h2, h3, f2, f3, m2, m3, r2, r3)
    ensures Kept(h1, h3, f1, f3, m1, m3, r1, r3)
  {}

  /** A peer that may be asked for a chunk. */
  predicate Fit(p: Peer, idx: nat, connected: set<Peer>, stats: map<Peer, PeerStat>) {
    p in connected && p in stats && !stats[p].banned && idx !in stats[p].declined
  }

  /** What comes of a request: it is sent, the peer's send queue is full, or the peer has gone since it was chosen. */
  datatype Answer = Sent | Full | Gone

  ghost predicate HasGone(p: Peer, answers: (Peer, nat) -> Answer) {
    exists i :: answers(p, i).Gone?
  }

  /** A round of dispatch benches only peers that had gone. */
  ghost predicate OnlyGone(benched: set<Peer>, benched': set<Peer>, answers: (Peer, nat) -> Answer) {
    benched <= benched' && forall p :: p in benched' && p !in benched ==> HasGone(p, answers)
  }

  lemma NoneGone(benched: set<Peer>, answers: (Peer, nat) -> Answer)
    ensures OnlyGone(benched, benched, answers)
  {}

  lemma OneGone(benched: set<Peer>, benched': set<Peer>, p: Peer, i: nat, answers: (Peer, nat) -> Answer)
    requires OnlyGone(benched, benched', answers) && answers(p, i).Gone?
    ensures OnlyGone(benched, benched' + {p}, answers)
  {}

  /** A peer's record after a round of dispatch: its load may differ, and it is banned if the peer has gone. */
  ghost predicate Loaded(p: Peer, before: PeerStat, after: PeerStat, answers: (Peer, nat) -> Answer) {
    && after == before.(inflight := after.inflight, banned := after.banned)
    && (before.banned ==> after.banned)
    && (after.banned ==> before.banned || HasGone(p, answers))
  }

  ghost predicate OnlyLoads(before: map<Peer, PeerStat>, after: map<Peer, PeerStat>, answers: (Peer, nat) -> Answer) {
    before.Keys == after.Keys && forall p :: p in before ==> Loaded(p, before[p], after[p], answers)
  }

  /** What a round of dispatch has done up to a chunk: some pending chunks before it have been requested from peers
      that may be asked for them, and nothing else has changed but the peers' loads. */
  ghost predicate Asked(pending: seq<bool>, inflight: map<nat, Peer>, stats: map<Peer, PeerStat>,
                  pending': seq<bool>, inflight': map<nat, Peer>, stats': map<Peer, PeerStat>,
                  upto: nat, connected: set<Peer>, answers: (Peer, nat) -> Answer) {
    && |pending'| == |pending| && OnlyLoads(stats, stats', answers)
    && (forall i :: upto <= i < |pending| ==> pending'[i] == pending[i])
    && (forall i :: 0 <= i < |pending| && pending'[i] ==> pending[i])
    && (forall i :: 0 <= i < |pending| && pending[i] && !pending'[i] ==>
        i in inflight' && answers(inflight'[i], i).Sent? && Fit(inflight'[i], i, connected, stats))
    && (forall i :: i in inflight ==> i in inflight')
    && (forall i :: i in inflight' && (i !in inflight || inflight'[i] != inflight[i]) ==>
        i < |pending| && pending[i] && !pending'[i])
  }

  lemma NextAsked(pending: seq<bool>, inflight: map<nat, Peer>, stats: map<Peer, PeerStat>,
                  pending': seq<bool>, inflight': map<nat, Peer>, stats': map<Peer, PeerStat>,
                  upto: nat, connected: set<Peer>, answers: (Peer, nat) -> Answer)
    requires Asked(pending, inflight, stats, pending', inflight', stats', upto, connected, answers)
    ensures Asked(pending, inflight, stats, pending', inflight', stats', upto + 1, connected, answers)
  {}

  /** One more request. */
  lemma AskOk(pending: seq<bool>, inflight: map<nat, Peer>, stats: map<Peer, PeerStat>,
              pending': seq<bool>, completed: seq<bool>, inflight': map<nat, Peer>, stats': map<Peer, PeerStat>,
              i: nat, p: Peer, connected: set<Peer>, answers: (Peer, nat) -> Answer)
    requires Asked(pending, inflight, stats, pending', inflight', stats', i, connected, answers)
    requires NothingLost(pending', completed, inflight')
    requires i < |pending'| && pending'[i] && Fit(p, i, connected, stats') && answers(p, i).Sent?
    ensures var p1, f1, s1 := pending'[i := false], inflight'[i := p],
      stats'[p := stats'[p].(inflight := stats'[p].inflight + 1)];
            Asked(pending, inflight, stats, p1, f1, s1, i + 1, connected, answers) && NothingLost(p1, completed, f1)
    ensures i < |pending| && pending[i]
  {
    assert pending[i];
  }

  /** A peer that has gone is banned and its chunk stays pending. */
  lemma BanGone(pending: seq<bool>, inflight: map<nat, Peer>, stats: map<Peer, PeerStat>,
                pending': seq<bool>, inflight': map<nat, Peer>, stats': map<Peer, PeerStat>,
                i: nat, p: Peer, connected: set<Peer>, answers: (Peer, nat) -> Answer)
    requires Asked(pending, inflight, stats, pending', inflight', stats', i, connected, answers)
    requires p in stats' && answers(p, i).Gone?
    ensures Asked(pending, inflight, stats, pending', inflight', stats'[p := stats'[p].(banned := true)], i + 1,
      connected,
      answers)
  {}

  /** A round of dispatch drops no request, and asks connected peers only. */
  lemma AskedKeeps(pending: seq<bool>, inflight: map<nat, Peer>, stats: map<Peer, PeerStat>,
                   pending': seq<bool>, inflight': map<nat, Peer>, stats': map<Peer, PeerStat>,
                   upto: nat, connected: set<Peer>, answers: (Peer, nat) -> Answer)
    requires Asked(pending, inflight, stats, pending', inflight', stats', upto, connected, answers)
    ensures inflight.Keys <= inflight'.Keys && OnlyLoads(stats, stats', answers)
    ensures forall i :: i in inflight' ==> (i in inflight && inflight'[i] == inflight[i]) || inflight'[i] in connected
  {}

  /** A peer that has declined a chunk does not get it in the next round. */
  lemma AskedOthers(pending: seq<bool>, inflight: map<nat, Peer>, stats: map<Peer, PeerStat>,
                    pending': seq<bool>, inflight': map<nat, Peer>, stats': map<Peer, PeerStat>,
                    upto: nat, connected: set<Peer>, answers: (Peer, nat) -> Answer, peer: Peer, idx: nat)
    requires Asked(pending, inflight, stats, pending', inflight', stats', upto, connected, answers)
    requires peer in stats && (idx in inflight ==> inflight[idx] != peer)
    ensures peer in stats' && Loaded(peer, stats[peer], stats'[peer], answers)
    ensures idx in stats[peer].declined && idx in inflight' ==> inflight'[idx] != peer
  {}

  /** A request to that peer has timed out; a provisional peer is benched for it. */
  function TimedOut(stats: map<Peer, PeerStat>, p: Peer): map<Peer, PeerStat> {
    if p in stats then
      var st := RemoveInflight(stats[p]);
      stats[p := if st.provisional then st.(banned := true) else st]
    else stats
  }

  /** The peers of the given requests have less load, and the provisional ones among them are banned. */
  predicate Benched(before: map<Peer, PeerStat>, after: map<Peer, PeerStat>, inflight: map<nat, Peer>,
                    expired: set<nat>) {
    && before.Keys == after.Keys
    && (forall p :: p in before ==> after[p] == before[p].(inflight := after[p].inflight, banned := after[p].banned))
    && (forall p :: p in before && before[p].banned ==> after[p].banned)
    && (forall i :: i in expired && i in inflight && inflight[i] in before && before[inflight[i]].provisional ==>
        after[inflight[i]].banned)
    && (forall p :: p in before && after[p].banned ==> before[p].banned || Probed(before, inflight, expired, p))
  }

  /** A provisional peer to which one of the given requests was. */
  predicate Probed(stats: map<Peer, PeerStat>, inflight: map<nat, Peer>, expired: set<nat>, p: Peer) {
    p in stats && stats[p].provisional && exists i :: i in expired && i in inflight && inflight[i] == p
  }

  lemma NobodyBenched(stats: map<Peer, PeerStat>, inflight: map<nat, Peer>)
    ensures Benched(stats, stats, inflight, {})
  {}

  /** The probed peers have been added. */
  ghost predicate ProbedAdded(b: set<Peer>, b': set<Peer>, stats: map<Peer, PeerStat>, inflight: map<nat, Peer>,
                              expired: set<nat>) {
    forall p :: p in b' <==> p in b || Probed(stats, inflight, expired, p)
  }

  lemma NobodyProbed(b: set<Peer>, stats: map<Peer, PeerStat>, inflight: map<nat, Peer>)
    ensures ProbedAdded(b, b, stats, inflight, {})
  {}

  lemma BenchOne(before: map<Peer, PeerStat>, after: map<Peer, PeerStat>, inflight: map<nat, Peer>, expired: set<nat>,
                 rest: set<nat>, i: nat)
    requires Benched(before, after, inflight, expired - rest) && i in rest && rest <= expired && i in inflight
    ensures Benched(before, TimedOut(after, inflight[i]), inflight, expired - (rest - {i}))
    ensures forall b, b' :: ProbedAdded(b, b', before, inflight, expired - rest) ==>
      ProbedAdded(b, b' + (if inflight[i] in after && after[inflight[i]].provisional then {inflight[i]} else {}),
        before, inflight, expired - (rest - {i}))
  {
    forall p ensures Probed(before, inflight, expired - (rest - {i}), p) <==>
      Probed(before, inflight, expired - rest, p) || (p == inflight[i] && p in before && before[p].provisional) {
      MoreProbed(before, inflight, expired, rest, i, p);
    }
    hide Probed;
  }

  lemma MoreProbed(stats: map<Peer, PeerStat>, inflight: map<nat, Peer>, expired: set<nat>, rest: set<nat>, i: nat,
                   p: Peer)
    requires i in rest && rest <= expired && i in inflight
    ensures Probed(stats, inflight, expired - (rest - {i}), p) <==>
      Probed(stats, inflight, expired - rest, p) || (p == inflight[i] && p in stats && stats[p].provisional)
  {}

  // ---------- strikes ----------

  /** What the data of a reply was, against the hash of its chunk. */
  datatype Verdict = Right | Wrong

  type History = seq<Verdict>

  /** The mismatches since the last verified chunk. */
  function Strikes(h: History): nat {
    if h == [] || h[|h| - 1].Right? then 0 else Strikes(h[..|h| - 1]) + 1
  }

  /** How many strikes a peer may come to: few for one that joined during the download and has verified nothing. */
  datatype StrikeLimits = StrikeLimitsOf(proven: nat, provisional: nat)

  predicate OnProbation(h: History, joined: bool) {
    joined && Right !in h
  }

  function LimitNow(h: History, joined: bool, limits: StrikeLimits): nat {
    if OnProbation(h, joined) then limits.provisional else limits.proven
  }

  /** The k-th verdict was one mismatch too many. */
  predicate OutAt(h: History, joined: bool, limits: StrikeLimits, k: nat) {
    0 < k <= |h| && h[k - 1].Wrong? && Strikes(h[..k]) >= LimitNow(h[..k], joined, limits)
  }

  predicate StruckOut(h: History, joined: bool, limits: StrikeLimits) {
    exists k :: 0 < k <= |h| && OutAt(h, joined, limits, k)
  }

  /** A peer's record agrees with the history of its replies, and with its being benched for another reason. */
  predicate RecordOk(st: PeerStat, h: History, joined: bool, benched: bool, limits: StrikeLimits) {
    && (st.provisional <==> OnProbation(h, joined))
    && (!st.banned ==> st.failures == Strikes(h))
    && (st.banned <==> StruckOut(h, joined, limits) || benched)
  }

  function Told(told: map<Peer, History>, p: Peer): History {
    if p in told then told[p] else []
  }

  ghost predicate RecordsOk(stats: map<Peer, PeerStat>, told: map<Peer, History>, joined: set<Peer>,
                            benched: set<Peer>, limits: StrikeLimits) {
    && (forall p :: p in stats ==> RecordOk(stats[p], Told(told, p), p in joined, p in benched, limits))
    && (forall p :: p !in stats ==> Told(told, p) == [] && p !in joined && p !in benched)
  }

  /** A new peer's record, or one of which only the load and the declined chunks have changed. */
  lemma RecordsTouched(stats: map<Peer, PeerStat>, told: map<Peer, History>, joined: set<Peer>, benched: set<Peer>,
                       limits: StrikeLimits, p: Peer, st: PeerStat)
    requires RecordsOk(stats, told, joined, benched, limits)
    requires var before := if p in stats then stats[p] else NEW_PEER;
             st == before.(inflight := st.inflight, declined := st.declined)
    ensures RecordsOk(stats[p := st], told, joined, benched, limits)
  {
    hide OnProbation, Strikes, OutAt;
    if p !in stats {
      NoHistory(p in joined, limits);
    }
  }

  lemma NoHistory(joined: bool, limits: StrikeLimits)
    ensures !StruckOut([], joined, limits) && Strikes([]) == 0 && (OnProbation([], joined) <==> joined)
  {}

  lemma RecordsBench(stats: map<Peer, PeerStat>, told: map<Peer, History>, joined: set<Peer>, benched: set<Peer>,
                     limits: StrikeLimits, p: Peer)
    requires RecordsOk(stats, told, joined, benched, limits) && p in stats
    ensures RecordsOk(stats[p := stats[p].(banned := true)], told, joined, benched + {p}, limits)
  {
    hide OnProbation, Strikes, StruckOut;
  }

  lemma RecordsMirror(stats: map<Peer, PeerStat>, told: map<Peer, History>, joined: set<Peer>, benched: set<Peer>,
                      limits: StrikeLimits, banned: set<Peer>)
    requires RecordsOk(stats, told, joined, benched, limits)
    ensures RecordsOk(Mirrored(stats, banned), told, joined, benched + banned * stats.Keys, limits)
  {
    hide OnProbation, Strikes, StruckOut;
  }

  lemma RecordsJoin(stats: map<Peer, PeerStat>, told: map<Peer, History>, joined: set<Peer>, benched: set<Peer>,
                    limits: StrikeLimits, peers: set<Peer>)
    requires RecordsOk(stats, told, joined, benched, limits)
    ensures RecordsOk((map p | p in peers :: NEW_PEER.(provisional := true)) + stats, told,
                      joined + (peers - stats.Keys), benched, limits)
  {
    NoHistory(true, limits);
    hide OnProbation, Strikes, StruckOut;
  }

  lemma RecordsTimeout(stats: map<Peer, PeerStat>, told: map<Peer, History>, joined: set<Peer>, benched: set<Peer>,
                       limits: StrikeLimits, p: Peer)
    requires RecordsOk(stats, told, joined, benched, limits)
    ensures RecordsOk(TimedOut(stats, p), told, joined,
                      benched + if p in stats && stats[p].provisional then {p} else {}, limits)
  {
    hide OnProbation, Strikes, StruckOut;
  }

  /** One more verdict: a mismatch is a strike, and a verified chunk ends the probation and clears the strikes. */
  lemma OneVerdict(h: History, v: Verdict, joined: bool, limits: StrikeLimits)
    ensures Strikes(h + [v]) == if v.Right? then 0 else Strikes(h) + 1
    ensures OnProbation(h + [v], joined) <==> OnProbation(h, joined) && v.Wrong?
    ensures StruckOut(h + [v], joined, limits) <==>
            StruckOut(h, joined, limits) || (v.Wrong? && Strikes(h) + 1 >= LimitNow(h, joined, limits))
  {
    hide OutAt;
    var more := h + [v];
    assert more[..|h|] == h;
    assert Right in more <==> Right in h || v.Right? by {
      assert more[|h|] == v;
    }
    OutLater(h, v, joined, limits);
    if StruckOut(h, joined, limits) {
      var k :| 0 < k <= |h| && OutAt(h, joined, limits, k);
      assert OutAt(more, joined, limits, k);
    }
    if StruckOut(more, joined, limits) {
      var k :| 0 < k <= |more| && OutAt(more, joined, limits, k);
      assert k <= |h| ==> OutAt(h, joined, limits, k);
    }
  }

  lemma OutLater(h: History, v: Verdict, joined: bool, limits: StrikeLimits)
    ensures forall k :: 0 < k <= |h| ==> (OutAt(h + [v], joined, limits, k) <==> OutAt(h, joined, limits, k))
    ensures OutAt(h + [v], joined, limits, |h| + 1) <==>
            v.Wrong? && Strikes(h) + 1 >= LimitNow(h, joined, limits)
  {
    var more := h + [v];
    assert more[..|h|] == h && more[..|h| + 1] == more;
    assert v.Wrong? ==> (Right in more <==> Right in h);
    forall k | 0 < k <= |h| ensures OutAt(more, joined, limits, k) <==> OutAt(h, joined, limits, k) {
      assert more[..k] == h[..k];
    }
  }

  /** The record of a peer after a reply with data. */
  lemma RecordsVerdict(stats: map<Peer, PeerStat>, told: map<Peer, History>, joined: set<Peer>, benched: set<Peer>,
                       limits: StrikeLimits, p: Peer, v: Verdict, st: PeerStat)
    requires RecordsOk(stats, told, joined, benched, limits) && p in stats
    requires v.Right? ==> st == stats[p].(provisional := false, chunks := st.chunks, failures := 0)
    requires v.Wrong? ==>
      st == RecordFailure(stats[p], if stats[p].provisional then limits.provisional else limits.proven)
    ensures RecordsOk(stats[p := st], told[p := Told(told, p) + [v]], joined, benched, limits)
  {
    OneVerdict(Told(told, p), v, p in joined, limits);
    hide Strikes, StruckOut;
  }

  /** The first time that a limit is reached it is reached exactly. */
  lemma {:induction false} FirstOut(h: History, joined: bool, limits: StrikeLimits)
    requires limits.proven > 0 && limits.provisional > 0 && StruckOut(h, joined, limits)
    ensures exists k ::
      0 < k <= |h| && OutAt(h, joined, limits, k) && Strikes(h[..k]) == LimitNow(h[..k], joined, limits)
    decreases |h|
  {
    var n := |h| - 1;
    var before := h[..n];
    assert before + [h[n]] == h;
    OneVerdict(before, h[n], joined, limits);
    if StruckOut(before, joined, limits) {
      FirstOut(before, joined, limits);
      var k :| 0 < k <= |before| && OutAt(before, joined, limits, k)
        && Strikes(before[..k]) == LimitNow(before[..k], joined, limits);
      assert h[..k] == before[..k];
      assert OutAt(h, joined, limits, k);
    } else {
      BelowLimit(before, joined, limits);
      assert h[..|h|] == h;
      assert OutAt(h, joined, limits, |h|);
    }
  }

  /** Who has not struck out has fewer strikes than its limit. */
  lemma {:induction false} BelowLimit(h: History, joined: bool, limits: StrikeLimits)
    requires limits.proven > 0 && limits.provisional > 0 && !StruckOut(h, joined, limits)
    ensures Strikes(h) < LimitNow(h, joined, limits)
  {
    if h != [] {
      var n := |h| - 1;
      assert h[..n] + [h[n]] == h;
      OneVerdict(h[..n], h[n], joined, limits);
    }
  }

  // ---------- the load of a peer ----------

  /** The chunks that are in flight to a peer, and their number. */
  function Asking(inflight: map<nat, Peer>, p: Peer): set<nat> {
    set i | i in inflight && inflight[i] == p
  }

  function Requests(inflight: map<nat, Peer>, p: Peer): nat {
    |Asking(inflight, p)|
  }

  /** The load that a peer's record shows. */
  function LoadOf(stats: map<Peer, PeerStat>, p: Peer): nat {
    if p in stats then stats[p].inflight else 0
  }

  /** The limits on a peer's requests: perPeer for a proven peer, and the probe budget of a provisional one. */
  datatype Limits = LimitsOf(perPeer: nat, probe: nat)

  /** The most that a record shows. A provisional peer may get one more than its budget; when it is promoted, by a
      reply, it keeps what it has. */
  function Ceiling(limits: Limits, provisional: bool): nat {
    if provisional then limits.probe + 1 else if limits.probe > limits.perPeer then limits.probe else limits.perPeer
  }

  /** A peer has no more requests than its record shows and it has sent stray replies. */
  ghost predicate LoadBounded(inflight: map<nat, Peer>, stats: map<Peer, PeerStat>, strays: multiset<Peer>) {
    forall p :: Requests(inflight, p) <= LoadOf(stats, p) + strays[p]
  }

  /** No record shows more than its ceiling. */
  predicate Within(stats: map<Peer, PeerStat>, limits: Limits) {
    forall p :: p in stats ==> stats[p].inflight <= Ceiling(limits, stats[p].provisional)
  }

  /** Chunks in flight are not pending, and every record shows the number of the peer's requests. */
  ghost predicate Exact(pending: seq<bool>, inflight: map<nat, Peer>, stats: map<Peer, PeerStat>) {
    && (forall i :: 0 <= i < |pending| && pending[i] ==> i !in inflight)
    && (forall p :: Requests(inflight, p) == LoadOf(stats, p))
  }

  ghost predicate LoadsOk(pending: seq<bool>, inflight: map<nat, Peer>, stats: map<Peer, PeerStat>,
                          strays: multiset<Peer>, limits: Limits) {
    && LoadBounded(inflight, stats, strays) && Within(stats, limits)
    && (strays == multiset{} ==> Exact(pending, inflight, stats))
  }

  lemma OneMoreRequest(inflight: map<nat, Peer>, i: nat, p: Peer, q: Peer)
    ensures Requests(inflight[i := p], q) <= Requests(inflight, q) + if p == q then 1 else 0
    ensures i !in inflight ==> Requests(inflight[i := p], q) == Requests(inflight, q) + if p == q then 1 else 0
  {
    var a := Asking(inflight, q);
    assert Asking(inflight[i := p], q) == if p == q then a + {i} else a - {i};
  }

  lemma OneRequestLess(inflight: map<nat, Peer>, i: nat, q: Peer)
    requires i in inflight
    ensures Requests(inflight - {i}, q) == Requests(inflight, q) - if inflight[i] == q then 1 else 0
    ensures inflight[i] == q ==> Requests(inflight, q) > 0
  {
    assert Asking(inflight - {i}, q) == Asking(inflight, q) - {i};
    assert inflight[i] == q ==> i in Asking(inflight, q);
  }

  lemma AskLoads(pending: seq<bool>, inflight: map<nat, Peer>, stats: map<Peer, PeerStat>, strays: multiset<Peer>,
                 limits: Limits,
                 i: nat, p: Peer)
    requires LoadsOk(pending, inflight, stats, strays, limits) && i < |pending| && pending[i] && p in stats
      && stats[p].inflight < Ceiling(limits, stats[p].provisional)
    ensures LoadsOk(pending[i := false], inflight[i := p], stats[p := stats[p].(inflight := stats[p].inflight + 1)],
      strays, limits)
  {
    hide Requests;
    var more := stats[p := stats[p].(inflight := stats[p].inflight + 1)];
    forall q
      ensures Requests(inflight[i := p], q) <= Requests(inflight, q) + if p == q then 1 else 0
      ensures i !in inflight ==> Requests(inflight[i := p], q) == Requests(inflight, q) + if p == q then 1 else 0
    {
      OneMoreRequest(inflight, i, p, q);
    }
    assert forall q :: LoadOf(more, q) == LoadOf(stats, q) + if p == q then 1 else 0;
    assert Within(more, limits);
  }

  /** What a reply does to the requests in flight. */
  function Answered(inflight: map<nat, Peer>, peer: Peer, idx: nat): map<nat, Peer> {
    if idx in inflight && inflight[idx] == peer then inflight - {idx} else inflight
  }

  function StraysAfter(strays: multiset<Peer>, inflight: map<nat, Peer>, peer: Peer, idx: nat): multiset<Peer> {
    if idx in inflight && inflight[idx] == peer then strays else strays + multiset{peer}
  }

  lemma ReplyLoads(pending: seq<bool>, inflight: map<nat, Peer>, stats: map<Peer, PeerStat>, strays: multiset<Peer>,
                   limits: Limits,
                   peer: Peer, idx: nat)
    requires LoadsOk(pending, inflight, stats, strays, limits)
    ensures var st := RemoveInflight(if peer in stats then stats[peer] else NEW_PEER);
            LoadsOk(pending, Answered(inflight, peer, idx), stats[peer := st], StraysAfter(strays, inflight, peer, idx),
              limits)
            && st.inflight <= Ceiling(limits, false)
  {
    hide Requests;
    ReplyWithin(stats, limits, peer);
    var less := stats[peer := RemoveInflight(if peer in stats then stats[peer] else NEW_PEER)];
    hide Within;
    assert forall q :: LoadOf(less, q) == LoadOf(stats, q) - if q == peer && LoadOf(stats, q) > 0 then 1 else 0;
    if idx in inflight && inflight[idx] == peer {
      forall q ensures Requests(inflight - {idx}, q) == Requests(inflight, q) - if q == peer then 1 else 0 {
        OneRequestLess(inflight, idx, q);
      }
      OneRequestLess(inflight, idx, peer);
    }
  }

  lemma ReplyWithin(stats: map<Peer, PeerStat>, limits: Limits, peer: Peer)
    requires Within(stats, limits)
    ensures var st := RemoveInflight(if peer in stats then stats[peer] else NEW_PEER);
            Within(stats[peer := st], limits) && st.inflight <= Ceiling(limits, false)
  {}

  lemma BackLoads(pending: seq<bool>, inflight: map<nat, Peer>, stats: map<Peer, PeerStat>, strays: multiset<Peer>,
                  limits: Limits, idx: nat)
    requires LoadsOk(pending, inflight, stats, strays, limits) && idx < |pending|
      && (idx in inflight ==> strays != multiset{})
    ensures LoadsOk(pending[idx := true], inflight, stats, strays, limits)
  {
    hide Requests;
  }

  lemma ExpiredLoads(pending: seq<bool>, inflight: map<nat, Peer>, stats: map<Peer, PeerStat>, strays: multiset<Peer>,
                     limits: Limits, i: nat)
    requires LoadsOk(pending, inflight, stats, strays, limits) && i in inflight && i < |pending|
    ensures LoadsOk(pending[i := true], inflight - {i}, TimedOut(stats, inflight[i]), strays, limits)
  {
    hide Requests;
    forall q {
      OneRequestLess(inflight, i, q);
    }
  }

  /** The requests that are not to the peer. */
  ghost predicate DroppedFor(pending: seq<bool>, inflight: map<nat, Peer>, pending': seq<bool>,
                             inflight': map<nat, Peer>, peer: Peer) {
    && |pending'| == |pending|
    && (forall i :: i in inflight' <==> i in inflight && inflight[i] != peer)
    && (forall i :: i in inflight' ==> inflight'[i] == inflight[i])
    && (forall i :: 0 <= i < |pending| ==> (pending'[i] <==> pending[i] || (i in inflight && inflight[i] == peer)))
  }

  lemma DroppedLoads(pending: seq<bool>, inflight: map<nat, Peer>, pending': seq<bool>, inflight': map<nat, Peer>,
                     stats: map<Peer, PeerStat>, stats': map<Peer, PeerStat>, strays: multiset<Peer>, limits: Limits,
                     peer: Peer)
    requires LoadsOk(pending, inflight, stats, strays, limits)
      && DroppedFor(pending, inflight, pending', inflight', peer)
    requires SameKinds(stats, stats') && forall p :: LoadOf(stats', p) == if p == peer then 0 else LoadOf(stats, p)
    ensures LoadsOk(pending', inflight', stats', strays, limits)
  {
    forall q ensures Requests(inflight', q) == if q == peer then 0 else Requests(inflight, q) {
      assert Asking(inflight', q) == if q == peer then {} else Asking(inflight, q);
    }
    LoadsWithin(stats, stats', limits);
    hide Requests, Within, SameKinds;
  }

  /** No known peer has become proven or provisional. */
  predicate SameKinds(stats: map<Peer, PeerStat>, stats': map<Peer, PeerStat>) {
    forall p :: p in stats && p in stats' ==> stats'[p].provisional == stats[p].provisional
  }

  lemma LoadsWithin(stats: map<Peer, PeerStat>, stats': map<Peer, PeerStat>, limits: Limits)
    requires Within(stats, limits) && SameKinds(stats, stats') && forall p :: LoadOf(stats', p) <= LoadOf(stats, p)
    ensures Within(stats', limits)
  {
    forall p | p in stats' ensures stats'[p].inflight <= Ceiling(limits, stats'[p].provisional) {
      assert LoadOf(stats', p) <= LoadOf(stats, p);
    }
  }

  lemma SameLoads(pending: seq<bool>, inflight: map<nat, Peer>, stats: map<Peer, PeerStat>, stats': map<Peer, PeerStat>,
                  strays: multiset<Peer>, limits: Limits)
    requires LoadsOk(pending, inflight, stats, strays, limits) && forall p :: LoadOf(stats', p) == LoadOf(stats, p)
    requires SameKinds(stats, stats')
    ensures LoadsOk(pending, inflight, stats', strays, limits)
  {
    LoadsWithin(stats, stats', limits);
    hide Requests, Within, SameKinds;
  }

  lemma BannedLoads(pending: seq<bool>, inflight: map<nat, Peer>, stats: map<Peer, PeerStat>, strays: multiset<Peer>,
                    limits: Limits, p: Peer)
    requires LoadsOk(pending, inflight, stats, strays, limits) && p in stats
    ensures LoadsOk(pending, inflight, stats[p := stats[p].(banned := true)], strays, limits)
  {
    hide LoadsOk;
    SameLoads(pending, inflight, stats, stats[p := stats[p].(banned := true)], strays, limits);
  }

  /** The records after bans made elsewhere have been mirrored. */
  function Mirrored(stats: map<Peer, PeerStat>, banned: set<Peer>): map<Peer, PeerStat> {
    map p | p in stats :: if p in banned then stats[p].(banned := true) else stats[p]
  }

  lemma MirroredLoads(pending: seq<bool>, inflight: map<nat, Peer>, stats: map<Peer, PeerStat>, strays: multiset<Peer>,
                      limits: Limits, banned: set<Peer>)
    requires LoadsOk(pending, inflight, stats, strays, limits)
    ensures LoadsOk(pending, inflight, Mirrored(stats, banned), strays, limits)
  {
    hide LoadsOk;
    SameLoads(pending, inflight, stats, Mirrored(stats, banned), strays, limits);
  }

  /** A reply may promote the peer that sent it. */
  lemma PromotedLoads(pending: seq<bool>, inflight: map<nat, Peer>, stats: map<Peer, PeerStat>,
                      strays: multiset<Peer>, limits: Limits, p: Peer, st: PeerStat)
    requires LoadsOk(pending, inflight, stats, strays, limits) && p in stats
    requires st.inflight == stats[p].inflight <= Ceiling(limits, false)
    requires st.provisional ==> stats[p].provisional
    ensures LoadsOk(pending, inflight, stats[p := st], strays, limits)
  {
    hide Requests;
    assert forall q :: LoadOf(stats[p := st], q) == LoadOf(stats, q);
  }

  lemma NoLoads(n: nat, stats: map<Peer, PeerStat>, limits: Limits)
    requires forall p :: LoadOf(stats, p) == 0
    ensures LoadsOk(seq(n, i => true), map[], stats, multiset{}, limits)
  {
    var none: map<nat, Peer> := map[];
    forall p ensures Requests(none, p) == 0 {
      assert Asking(none, p) == {};
    }
    hide Requests;
    forall p | p in stats ensures stats[p].inflight <= Ceiling(limits, stats[p].provisional) {
      assert LoadOf(stats, p) == 0;
    }
  }

  /** The chunks of those requests are pending again. */
  ghost predicate PutBackAll(pending: seq<bool>, inflight: map<nat, Peer>, pending': seq<bool>,
                             inflight': map<nat, Peer>, back: set<nat>) {
    && inflight' == inflight - back && |pending'| == |pending|
    && (forall i :: 0 <= i < |pending| ==> (pending'[i] <==> pending[i] || i in back))
  }

  lemma NonePutBack(pending: seq<bool>, inflight: map<nat, Peer>)
    ensures PutBackAll(pending, inflight, pending, inflight, {})
  {}

  lemma PutBackOne(pending: seq<bool>, inflight: map<nat, Peer>, pending': seq<bool>, inflight': map<nat, Peer>,
                   expired: set<nat>, rest: set<nat>, i: nat)
    requires PutBackAll(pending, inflight, pending', inflight', expired - rest) && rest <= expired && i in rest
      && i < |pending|
    requires i in inflight
    ensures PutBackAll(pending, inflight, pending'[i := true], inflight' - {i}, expired - (rest - {i}))
    ensures i in inflight' && inflight'[i] == inflight[i]
  {
    assert expired - (rest - {i}) == expired - rest + {i};
  }

  /** A chunk before upto is still pending because a peer had gone or its queue was full; the skipped peers are those
      with a full queue. */
  ghost predicate Refused(pending: seq<bool>, upto: nat, skip: set<Peer>, answers: (Peer, nat) -> Answer) {
    && (forall i :: 0 <= i < upto && i < |pending| && pending[i] ==>
        exists p :: answers(p, i).Gone? || (answers(p, i).Full? && p in skip))
    && (forall p :: p in skip ==> exists i :: 0 <= i < upto && answers(p, i).Full?)
  }

  lemma NobodyRefused(pending: seq<bool>, answers: (Peer, nat) -> Answer)
    ensures Refused(pending, 0, {}, answers)
  {}

  lemma RefusedNext(pending: seq<bool>, i: nat, skip: set<Peer>, answers: (Peer, nat) -> Answer)
    requires Refused(pending, i, skip, answers) && i < |pending|
    ensures !pending[i] ==> Refused(pending, i + 1, skip, answers)
    ensures Refused(pending[i := false], i + 1, skip, answers)
    ensures forall p :: answers(p, i).Gone? ==> Refused(pending, i + 1, skip, answers)
    ensures forall p :: answers(p, i).Full? ==> Refused(pending, i + 1, skip + {p}, answers)
  {
    forall p | answers(p, i).Full? ensures Refused(pending, i + 1, skip + {p}, answers) {
      assert p in skip + {p};
      assert forall q :: q in skip ==> q in skip + {p};
    }
  }

  /** A round that has asked nobody has changed no load. */
  ghost predicate IdleRound(pending: seq<bool>, inflight: map<nat, Peer>, stats: map<Peer, PeerStat>,
                            pending': seq<bool>, inflight': map<nat, Peer>, stats': map<Peer, PeerStat>) {
    pending' == pending ==> inflight' == inflight && forall p :: LoadOf(stats', p) == LoadOf(stats, p)
  }

  lemma IdleStart(pending: seq<bool>, inflight: map<nat, Peer>, stats: map<Peer, PeerStat>)
    ensures IdleRound(pending, inflight, stats, pending, inflight, stats)
  {}

  lemma IdleBan(pending: seq<bool>, inflight: map<nat, Peer>, stats: map<Peer, PeerStat>,
                pending': seq<bool>, inflight': map<nat, Peer>, stats': map<Peer, PeerStat>, p: Peer)
    requires IdleRound(pending, inflight, stats, pending', inflight', stats') && p in stats'
    ensures IdleRound(pending, inflight, stats, pending', inflight', stats'[p := stats'[p].(banned := true)])
  {}

  lemma AskedOne(pending: seq<bool>, inflight: map<nat, Peer>, stats: map<Peer, PeerStat>,
                 pending': seq<bool>, inflight': map<nat, Peer>, stats': map<Peer, PeerStat>, i: nat, p: Peer)
    requires i < |pending| && pending[i] && i < |pending'| && p in stats'
    ensures IdleRound(pending, inflight, stats, pending'[i := false], inflight'[i := p],
      stats'[p := stats'[p].(inflight := stats'[p].inflight + 1)])
  {
    assert pending'[i := false][i] != pending[i];
  }

  class Scheduler {
    const sha: Sha
    const hashes: seq<Hash32>
    const perPeer: nat
    const peerFailLimit: nat
    const provisionalStrikes: nat
    const provisionalInflight: nat

    var pending: seq<bool>
    var completed: seq<bool>
    var inflight: map<nat, Peer>
    var stats: map<Peer, PeerStat>
    var bytesTotal: nat
    var doneCount: nat
    var diskFails: nat
    var files: map<FileName, bytes>   // the snapshot directory's chunk files
    var ready: seq<nat>               // the calls of onChunkReady

    ghost var held: Held              // the content of completed chunks
    ghost var form: map<nat, nat>     // the form of a completed chunk's file name
    ghost var strays: multiset<Peer>  // the senders of stray replies: to no request in flight to them, most often
                                      // late ones, whose request has timed out or been answered before
    ghost var told: map<Peer, History> // the verdicts on the data that a peer has sent
    ghost var joined: set<Peer>       // the peers that were new during the download
    ghost var benched: set<Peer>      // the peers banned for other reasons than wrong chunks

    ghost predicate Valid()
      reads this
    {
      && NothingLost(pending, completed, inflight)
      && BooksOk(sha, hashes, completed, held, doneCount, bytesTotal, ready)
      && FilesOk(held, files, form)
      && LoadsOk(pending, inflight, stats, strays, Limits())
      && RecordsOk(stats, told, joined, benched, StrikeLimits())
    }

    function StrikeLimits(): StrikeLimits {
      StrikeLimitsOf(peerFailLimit, provisionalStrikes)
    }

    function Limits(): Limits {
      LimitsOf(perPeer, provisionalInflight)
    }

    constructor (sha: Sha, hashes: seq<Hash32>, good: set<Peer>, files: map<FileName, bytes>,
                 perPeer: nat, peerFailLimit: nat, provisionalStrikes: nat, provisionalInflight: nat)
      ensures Valid() && this.hashes == hashes && this.sha == sha && this.files == files
      ensures doneCount == 0 && ready == [] && inflight == map[] && strays == multiset{}
        && pending == seq(|hashes|, i => true)
      ensures this.perPeer == perPeer && this.provisionalInflight == provisionalInflight
        && this.peerFailLimit == peerFailLimit && this.provisionalStrikes == provisionalStrikes
      ensures told == map[] && joined == {} && benched == {}
      ensures stats == map p | p in good :: NEW_PEER.(wasGood := true)
      ensures |held| == |hashes| && forall i :: 0 <= i < |held| ==> held[i].None?
    {
      this.sha, this.hashes, this.files := sha, hashes, files;
      this.perPeer, this.peerFailLimit := perPeer, peerFailLimit;
      this.provisionalStrikes, this.provisionalInflight := provisionalStrikes, provisionalInflight;
      pending, completed := seq(|hashes|, i => true), seq(|hashes|, i => false);
      inflight, bytesTotal, doneCount, diskFails, ready := map[], 0, 0, 0, [];
      stats := map p | p in good :: NEW_PEER.(wasGood := true);
      held, form, strays := seq(|hashes|, i => None), map[], multiset{};
      told, joined, benched := map[], {}, {};
      new;
      NoHistory(false, StrikeLimits());
      NoneHeld(|hashes|, held);
      NoLoads(|hashes|, stats, Limits());
    }

    // ---------- choosing a peer ----------

    predicate Eligible(p: Peer, idx: nat, connected: set<Peer>, skip: set<Peer>)
      reads this
    {
      p in stats && !stats[p].banned && p !in skip && idx !in stats[p].declined && p in connected
    }

    /** A peer of the wanted kind with a free slot: proven peers are held below perPeer, provisional ones at or
        below their probe budget. */
    predicate HasSlot(p: Peer)
      reads this
    {
      p in stats && if stats[p].provisional then stats[p].inflight <= provisionalInflight
        else stats[p].inflight < perPeer
    }

    /** The least loaded eligible peer, proven before provisional; None exactly when no eligible peer has a slot. */
    method PickPeer(idx: nat, connected: set<Peer>, skip: set<Peer>) returns (r: Option<Peer>)
      ensures r.None? <==> forall p :: Eligible(p, idx, connected, skip) ==> !HasSlot(p)
      ensures r.Some? ==>
        && Eligible(r.value, idx, connected, skip) && HasSlot(r.value)
        && (forall p :: Eligible(p, idx, connected, skip) && stats[p].provisional == stats[r.value].provisional ==>
            stats[r.value].inflight <= stats[p].inflight)
        && (stats[r.value].provisional ==>
            forall p :: Eligible(p, idx, connected, skip) && !stats[p].provisional ==> !HasSlot(p))
    {
      hide Best;
      var proven, provis: Option<Peer> := None, None;
      var rest := stats.Keys;
      NoBest(false, idx, connected, skip);
      NoBest(true, idx, connected, skip);
      while rest != {}
        invariant rest <= stats.Keys
        invariant Best(proven, false, idx, connected, skip, rest)
        invariant Best(provis, true, idx, connected, skip, rest)
        decreases |rest|
      {
        var p :| p in rest;
        BestStep(proven, false, idx, connected, skip, rest, p);
        BestStep(provis, true, idx, connected, skip, rest, p);
        rest := rest - {p};
        var st := stats[p];
        if st.banned || p in skip || idx in st.declined || p !in connected {
          continue;
        }
        if st.provisional {
          if st.inflight < Load(provis, provisionalInflight + 1) {
            provis := Some(p);
          }
        } else if st.inflight < Load(proven, perPeer + 1) {
          proven := Some(p);
        }
      }
      BestEnds(proven, false, idx, connected, skip);
      BestEnds(provis, true, idx, connected, skip);
      if Load(proven, perPeer + 1) < perPeer {
        return proven;
      }
      if Load(provis, provisionalInflight + 1) <= provisionalInflight {
        return provis;
      }
      return None;
    }

    function Load(p: Option<Peer>, none: nat): nat
      reads this
    {
      if p.Some? && p.value in stats then stats[p.value].inflight else none
    }

    /** The least loaded eligible peer of a kind among those already visited; None when all are over the cap. */
    ghost predicate Best(b: Option<Peer>, provisional: bool, idx: nat, connected: set<Peer>, skip: set<Peer>,
                         rest: set<Peer>)
      reads this
    {
      var cap := if provisional then provisionalInflight + 1 else perPeer + 1;
      && (b.Some? ==> Eligible(b.value, idx, connected, skip) && stats[b.value].provisional == provisional
                      && stats[b.value].inflight < cap)
      && (forall p :: Eligible(p, idx, connected, skip) && stats[p].provisional == provisional && p !in rest ==>
          Load(b, cap) <= stats[p].inflight)
    }

    /** The best peer of a kind after one more has been looked at. */
    function Better(b: Option<Peer>, provisional: bool, idx: nat, connected: set<Peer>, skip: set<Peer>,
                    p: Peer): Option<Peer>
      reads this
    {
      if Eligible(p, idx, connected, skip) && stats[p].provisional == provisional
         && stats[p].inflight < Load(b, if provisional then provisionalInflight + 1 else perPeer + 1)
      then Some(p) else b
    }

    lemma NoBest(provisional: bool, idx: nat, connected: set<Peer>, skip: set<Peer>)
      ensures Best(None, provisional, idx, connected, skip, stats.Keys)
    {}

    lemma BestStep(b: Option<Peer>, provisional: bool, idx: nat, connected: set<Peer>, skip: set<Peer>, rest: set<Peer>,
                   p: Peer)
      requires Best(b, provisional, idx, connected, skip, rest)
      ensures Best(Better(b, provisional, idx, connected, skip, p), provisional, idx, connected, skip, rest - {p})
    {}

    lemma BestEnds(b: Option<Peer>, provisional: bool, idx: nat, connected: set<Peer>, skip: set<Peer>)
      requires Best(b, provisional, idx, connected, skip, {})
      ensures var cap := if provisional then provisionalInflight + 1 else perPeer + 1;
              && (b.Some? ==> Eligible(b.value, idx, connected, skip) && stats[b.value].provisional == provisional)
              && forall p :: Eligible(p, idx, connected, skip) && stats[p].provisional == provisional ==>
                 Load(b, cap) <= stats[p].inflight
    {}

    // ---------- dispatch ----------

    /** Pairs pending chunks with peers, in index order, until no peer has a slot for a chunk: the first chunk
        that no peer can take ends the round for the chunks after it too. */
    method Dispatch(connected: set<Peer>, answers: (Peer, nat) -> Answer)
      returns (stopped: nat, ghost skipped: set<Peer>)
      requires Valid()
      modifies this`pending, this`inflight, this`stats, this`benched
      ensures Valid() && OnlyGone(old(benched), benched, answers)
      ensures stopped <= |hashes|
      ensures stopped < |hashes| ==>
        pending[stopped] && forall p :: Eligible(p, stopped, connected, skipped) ==> !HasSlot(p)
      ensures Asked(old(pending), old(inflight), old(stats), pending, inflight, stats, stopped, connected, answers)
      ensures Refused(pending, stopped, skipped, answers)
      ensures IdleRound(old(pending), old(inflight), old(stats), pending, inflight, stats)
    {
      hide BooksOk, FilesOk, NothingLost, Asked, LoadsOk, Refused, HasSlot, Ceiling, IdleRound, RecordsOk, HasGone,
        OnlyGone;
      NoneGone(benched, answers);
      Sizes();
      NobodyAsked(connected, answers);
      NobodyRefused(pending, answers);
      IdleStart(pending, inflight, stats);
      var skip: set<Peer> := {};
      var i := 0;
      while i < |hashes|
        invariant 0 <= i <= |hashes| == |pending|
        invariant NothingLost(pending, completed, inflight)
        invariant BooksOk(sha, hashes, completed, held, doneCount, bytesTotal, ready)
        invariant Asked(old(pending), old(inflight), old(stats), pending, inflight, stats, i, connected, answers)
        invariant LoadsOk(pending, inflight, stats, strays, Limits())
        invariant RecordsOk(stats, told, joined, benched, StrikeLimits()) && OnlyGone(old(benched), benched, answers)
        invariant Refused(pending, i, skip, answers)
        invariant IdleRound(old(pending), old(inflight), old(stats), pending, inflight, stats)
      {
        NextAsked(old(pending), old(inflight), old(stats), pending, inflight, stats, i, connected, answers);
        RefusedNext(pending, i, skip, answers);
        if pending[i] {
          var p := PickPeer(i, connected, skip);
          if p.None? {
            return i, skip;
          }
          match answers(p.value, i) {
            case Gone =>
              BanGone(old(pending), old(inflight), old(stats), pending, inflight, stats, i, p.value, connected,
                answers);
              IdleBan(old(pending), old(inflight), old(stats), pending, inflight, stats, p.value);
              BannedLoads(pending, inflight, stats, strays, Limits(), p.value);
              RecordsBench(stats, told, joined, benched, StrikeLimits(), p.value);
              OneGone(old(benched), benched, p.value, i, answers);
              stats := stats[p.value := stats[p.value].(banned := true)];
              benched := benched + {p.value};
            case Full =>
              skip := skip + {p.value};
            case Sent =>
              SlotBelow(p.value);
              AskLoads(pending, inflight, stats, strays, Limits(), i, p.value);
              AskOk(old(pending), old(inflight), old(stats), pending, completed, inflight, stats, i, p.value, connected,
                answers);
              AskedOne(old(pending), old(inflight), old(stats), pending, inflight, stats, i, p.value);
              RecordsTouched(stats, told, joined, benched, StrikeLimits(), p.value,
                stats[p.value].(inflight := stats[p.value].inflight + 1));
              pending := pending[i := false];
              inflight := inflight[i := p.value];
              stats := stats[p.value := stats[p.value].(inflight := stats[p.value].inflight + 1)];
          }
        }
        i := i + 1;
      }
      return |hashes|, skip;
    }

    lemma Sizes()
      requires Valid()
      ensures |hashes| == |pending|
    {}

    lemma SlotBelow(p: Peer)
      requires HasSlot(p)
      ensures stats[p].inflight < Ceiling(Limits(), stats[p].provisional)
    {}

    lemma NobodyAsked(connected: set<Peer>, answers: (Peer, nat) -> Answer)
      ensures Asked(pending, inflight, stats, pending, inflight, stats, 0, connected, answers)
    {}

    // ---------- events ----------

    ghost predicate KeptSince(held0: Held, files0: map<FileName, bytes>, form0: map<nat, nat>, ready0: seq<nat>)
      reads this
    {
      Kept(held0, held, files0, files, form0, form, ready0, ready)
    }

    /** A reply: for the chunk of that index of this snapshot or another one, missing or with data. The write of a
        verified chunk may fail. A peer that has declined a chunk is not asked for it again. */
    method OnChunk(peer: Peer, ours: bool, idx: nat, missing: bool, data: bytes, writes: bool, connected: set<Peer>,
                   answers: (Peer, nat) -> Answer)
      requires Valid() && idx < |hashes|
      modifies this
      ensures Valid() && KeptSince(old(held), old(files), old(form), old(ready))
      ensures forall i :: 0 <= i < |hashes| && i != idx ==> held[i] == old(held)[i]
      ensures held[idx] ==
        if ours && old(held)[idx].None? && !missing && data != [] && sha(data) == hashes[idx] && writes
        then Some(data) else old(held)[idx]
      ensures !ours ==> pending == old(pending) && inflight == old(inflight) && stats == old(stats)
      ensures var r := Replied(old(stats), peer, idx, missing || data == [], sha(data) == hashes[idx]);
              ours && old(held)[idx].None? ==> peer in stats && Loaded(peer, r, stats[peer], answers)
      ensures ours && old(held)[idx].None? && (missing || data == []) && idx in inflight ==> inflight[idx] != peer
      ensures ours && old(held)[idx].None? ==>
        var before, st := if peer in old(stats) then old(stats)[peer] else NEW_PEER, stats[peer];
        && st.declined == before.declined + (if missing || data == [] then {idx} else {})
        && st.chunks == before.chunks + if !missing && data != [] && sha(data) == hashes[idx] then 1 else 0
      ensures strays == if ours then StraysAfter(old(strays), old(inflight), peer, idx) else old(strays)
      ensures joined == old(joined) && OnlyGone(old(benched), benched, answers)
      ensures told == if ours && old(held)[idx].None? && !missing && data != []
        then old(told)[peer := Told(old(told), peer) + [if sha(data) == hashes[idx] then Right else Wrong]]
        else old(told)
    {
      hide BooksOk, FilesOk, Kept, NothingLost, Asked, LoadsOk, RecordsOk;
      Same();
      if !ours {
        return;
      }
      var done := TakeReply(peer, idx, missing, data, writes);
      if !done {
        ghost var pending0, inflight0, stats0 := pending, inflight, stats;
        var stopped, skipped := Dispatch(connected, answers);
        AskedOthers(pending0, inflight0, stats0, pending, inflight, stats, stopped, connected, answers, peer, idx);
      }
    }

    /** What a reply does before the next round of dispatch; done when its chunk had been completed already. */
    method TakeReply(peer: Peer, idx: nat, missing: bool, data: bytes, writes: bool) returns (done: bool)
      requires Valid() && idx < |hashes| == |held|
      modifies this
      ensures Valid() && KeptSince(old(held), old(files), old(form), old(ready))
      ensures done <==> old(held)[idx].Some?
      ensures held == if old(held)[idx].None? && !missing && data != [] && sha(data) == hashes[idx] && writes
                      then old(held)[idx := Some(data)] else old(held)
      ensures idx in inflight ==> inflight[idx] != peer
      ensures peer in stats
      ensures var r := Replied(old(stats), peer, idx, missing || data == [], sha(data) == hashes[idx]);
              !done ==> stats[peer] == r
      ensures !done && held == old(held) ==> pending == old(pending)[idx := true]
      ensures strays == StraysAfter(old(strays), old(inflight), peer, idx)
        && inflight == Answered(old(inflight), peer, idx)
      ensures joined == old(joined) && benched == old(benched)
      ensures told == if old(held)[idx].None? && !missing && data != []
        then old(told)[peer := Told(old(told), peer) + [if sha(data) == hashes[idx] then Right else Wrong]]
        else old(told)
    {
      hide BooksOk, FilesOk, Kept, NothingLost, LoadsOk, RecordsOk, AfterReply;
      IndexIn();
      ReleaseRequest(peer, idx);
      NothingUndone();
      StillHeld(idx);
      if completed[idx] {
        return true;
      }
      var declined := missing || data == [];
      var verified := !declined && sha(data) == hashes[idx];
      Judge(peer, idx, declined, verified);
      Settle(idx, data, verified, writes);
      done := false;
    }

    /** A verified chunk is stored; any other goes back to pending, and so does one whose write fails. */
    method Settle(idx: nat, data: bytes, verified: bool, writes: bool)
      requires idx < |hashes| && |completed| == |hashes| == |held| && !completed[idx] && held[idx].None?
      requires verified ==> sha(data) == hashes[idx]
      requires BooksOk(sha, hashes, completed, held, doneCount, bytesTotal, ready) && FilesOk(held, files, form)
      requires LostAtMost(idx) && LoadsOk(pending, inflight, stats, strays, Limits())
      requires RecordsOk(stats, told, joined, benched, StrikeLimits()) && (idx in inflight ==> strays != multiset{})
      modifies this`pending, this`completed, this`held, this`doneCount, this`bytesTotal, this`files, this`form,
        this`ready, this`diskFails
      ensures Valid() && KeptSince(old(held), old(files), old(form), old(ready))
      ensures held == if verified && writes then old(held)[idx := Some(data)] else old(held)
      ensures pending == if verified && writes then old(pending) else old(pending)[idx := true]
    {
      hide BooksOk, FilesOk, Kept, NothingLost, LoadsOk, RecordsOk;
      NothingUndone();
      if verified && writes {
        Store(idx, data);
      } else {
        if verified {
          diskFails := diskFails + 1;
        }
        PutBack(idx);
      }
    }

    /** The peer's record after the verdict on its reply. */
    method Judge(peer: Peer, idx: nat, declined: bool, verified: bool)
      requires peer in stats && stats[peer].inflight <= Ceiling(Limits(), false)
      requires LoadsOk(pending, inflight, stats, strays, Limits())
      requires RecordsOk(stats, told, joined, benched, StrikeLimits())
      modifies this`stats, this`told
      ensures LoadsOk(pending, inflight, stats, strays, Limits())
      ensures RecordsOk(stats, told, joined, benched, StrikeLimits())
      ensures stats == old(stats)[peer := AfterReply(old(stats)[peer], idx, declined, verified)]
      ensures told == if declined then old(told)
        else old(told)[peer := Told(old(told), peer) + [if verified then Right else Wrong]]
    {
      hide LoadsOk, RecordsOk;
      var st := AfterReply(stats[peer], idx, declined, verified);
      PromotedLoads(pending, inflight, stats, strays, Limits(), peer, st);
      if declined {
        RecordsTouched(stats, told, joined, benched, StrikeLimits(), peer, st);
      } else {
        ghost var verdict := if verified then Right else Wrong;
        RecordsVerdict(stats, told, joined, benched, StrikeLimits(), peer, verdict, st);
        told := told[peer := Told(told, peer) + [verdict]];
      }
      stats := stats[peer := st];
    }

    lemma Same()
      requires Valid()
      ensures KeptSince(held, files, form, ready) && |hashes| == |held|
    {}

    /** The request that a reply answers is no longer in flight; the chunk may be in nobody's hands for now. */
    method ReleaseRequest(peer: Peer, idx: nat)
      requires Valid() && idx < |hashes|
      modifies this`inflight, this`stats, this`strays
      ensures peer in stats && LostAtMost(idx) && LoadsOk(pending, inflight, stats, strays, Limits())
      ensures RecordsOk(stats, told, joined, benched, StrikeLimits())
      ensures stats[peer].inflight <= Ceiling(Limits(), false)
      ensures idx in inflight ==> inflight[idx] != peer && strays != multiset{}
      ensures strays == StraysAfter(old(strays), old(inflight), peer, idx)
        && inflight == Answered(old(inflight), peer, idx)
      ensures stats[peer] == RemoveInflight(if peer in old(stats) then old(stats)[peer] else NEW_PEER)
    {
      hide BooksOk, FilesOk, LoadsOk, RecordsOk;
      RecordsTouched(stats, told, joined, benched, StrikeLimits(), peer,
        RemoveInflight(if peer in stats then stats[peer] else NEW_PEER));
      ReplyLoads(pending, inflight, stats, strays, Limits(), peer, idx);
      var st := if peer in stats then stats[peer] else NEW_PEER;
      strays := StraysAfter(strays, inflight, peer, idx);
      if idx in inflight && inflight[idx] == peer {
        inflight := inflight - {idx};
      }
      stats := stats[peer := RemoveInflight(st)];
    }

    /** Everything but chunk idx is accounted for, and idx too once it is completed or pending. */
    ghost predicate LostAtMost(idx: nat)
      reads this
    {
      && |pending| == |completed| && (forall i :: i in inflight ==> i < |completed|)
      && (forall i :: 0 <= i < |completed| && i != idx ==> completed[i] || pending[i] || i in inflight)
    }

    method PutBack(idx: nat)
      requires LostAtMost(idx) && idx < |completed|
      requires LoadsOk(pending, inflight, stats, strays, Limits()) && (idx in inflight ==> strays != multiset{})
      modifies this`pending
      ensures pending == old(pending)[idx := true]
      ensures NothingLost(pending, completed, inflight) && LoadsOk(pending, inflight, stats, strays, Limits())
    {
      hide LoadsOk;
      BackLoads(pending, inflight, stats, strays, Limits(), idx);
      pending := pending[idx := true];
    }

    lemma IndexIn()
      requires Valid()
      ensures |hashes| == |completed| == |held| == |pending|
    {}

    lemma NothingUndone()
      requires BooksOk(sha, hashes, completed, held, doneCount, bytesTotal, ready) && FilesOk(held, files, form)
      ensures KeptSince(held, files, form, ready)
    {}

    lemma StillHeld(idx: nat)
      requires BooksOk(sha, hashes, completed, held, doneCount, bytesTotal, ready) && idx < |completed|
      ensures idx < |held| == |completed| && (completed[idx] <==> held[idx].Some?)
      ensures completed[idx] && LostAtMost(idx) ==> NothingLost(pending, completed, inflight)
    {}

    /** What a reply does to its peer's record: a declined index is remembered, a wrong hash is a strike, and a
        verified chunk promotes the peer and clears its strikes. */
    function AfterReply(st: PeerStat, idx: nat, declined: bool, verified: bool): PeerStat {
      if declined then st.(declined := st.declined + {idx})
      else if verified then st.(provisional := false, chunks := st.chunks + 1, failures := 0)
      else RecordFailure(st, if st.provisional then provisionalStrikes else peerFailLimit)
    }

    /** A peer's record after a reply, with one request less. */
    function Replied(before: map<Peer, PeerStat>, peer: Peer, idx: nat, declined: bool, matches: bool): PeerStat {
      AfterReply(RemoveInflight(if peer in before then before[peer] else NEW_PEER), idx, declined, !declined && matches)
    }

    /** A verified chunk has been written under its canonical name. */
    method Store(idx: nat, data: bytes)
      requires idx < |hashes| && |completed| == |hashes| && !completed[idx] && sha(data) == hashes[idx]
      requires BooksOk(sha, hashes, completed, held, doneCount, bytesTotal, ready) && FilesOk(held, files, form)
      requires LostAtMost(idx) && LoadsOk(pending, inflight, stats, strays, Limits())
      requires RecordsOk(stats, told, joined, benched, StrikeLimits())
      modifies this`completed, this`held, this`doneCount, this`bytesTotal, this`files, this`form, this`ready
      ensures Valid() && KeptSince(old(held), old(files), old(form), old(ready))
      ensures held == old(held)[idx := Some(data)]
    {
      hide BooksOk, FilesOk, Kept, LoadsOk, RecordsOk;
      StillHeld(idx);
      Complete(sha, hashes, completed, held, doneCount, bytesTotal, ready, idx, data);
      FileAdded(held, files, form, ready, idx, 0, files[FileName(idx, 0) := data], data);
      files := files[FileName(idx, 0) := data];
      MarkCompleted(idx, data, 0);
    }

    /** The bookkeeping of a completed chunk, whose file has that form of name. */
    method MarkCompleted(idx: nat, data: bytes, ghost f: nat)
      requires LostAtMost(idx) && idx < |completed| == |held|
      modifies this`completed, this`held, this`doneCount, this`bytesTotal, this`form, this`ready
      ensures NothingLost(pending, completed, inflight)
      ensures completed == old(completed)[idx := true] && held == old(held)[idx := Some(data)]
      ensures form == old(form)[idx := f] && ready == old(ready) + [idx]
      ensures doneCount == old(doneCount) + 1 && bytesTotal == old(bytesTotal) + |data|
    {
      completed := completed[idx := true];
      held, form := held[idx := Some(data)], form[idx := f];
      doneCount := doneCount + 1;
      bytesTotal := bytesTotal + |data|;
      ready := ready + [idx];
    }

    /** Requests that have timed out go back to pending; a provisional peer among them is benched. */
    method Expire(expired: set<nat>)
      requires Valid() && forall i :: i in expired ==> i in inflight
      modifies this`stats, this`inflight, this`pending, this`benched
      ensures Valid()
      ensures PutBackAll(old(pending), old(inflight), pending, inflight, expired)
      ensures Benched(old(stats), stats, old(inflight), expired)
      ensures ProbedAdded(old(benched), benched, old(stats), old(inflight), expired)
    {
      hide BooksOk, FilesOk, Benched, NothingLost, TimedOut, LoadsOk, PutBackAll, RecordsOk, ProbedAdded;
      NobodyProbed(benched, stats, inflight);
      Sizes();
      NobodyBenched(stats, inflight);
      NonePutBack(pending, inflight);
      ExpiredIn(expired);
      var rest := expired;
      assert expired - rest == {};
      while rest != {}
        invariant NothingLost(pending, completed, inflight)
        invariant LoadsOk(pending, inflight, stats, strays, Limits())
        invariant BooksOk(sha, hashes, completed, held, doneCount, bytesTotal, ready)
        invariant rest <= expired
        invariant PutBackAll(old(pending), old(inflight), pending, inflight, expired - rest)
        invariant Benched(old(stats), stats, old(inflight), expired - rest)
        invariant RecordsOk(stats, told, joined, benched, StrikeLimits())
        invariant ProbedAdded(old(benched), benched, old(stats), old(inflight), expired - rest)
        decreases |rest|
      {
        var i :| i in rest;
        PutBackOne(old(pending), old(inflight), pending, inflight, expired, rest, i);
        BenchOne(old(stats), stats, old(inflight), expired, rest, i);
        ExpireOne(i);
        rest := rest - {i};
      }
      assert expired - {} == expired;
    }

    method ExpireOne(i: nat)
      requires NothingLost(pending, completed, inflight) && i in inflight
        && LoadsOk(pending, inflight, stats, strays, Limits())
      requires RecordsOk(stats, told, joined, benched, StrikeLimits())
      modifies this`stats, this`inflight, this`pending, this`benched
      ensures NothingLost(pending, completed, inflight) && LoadsOk(pending, inflight, stats, strays, Limits())
      ensures RecordsOk(stats, told, joined, benched, StrikeLimits())
      ensures var p := old(inflight)[i];
              benched == old(benched) + if p in old(stats) && old(stats)[p].provisional then {p} else {}
      ensures inflight == old(inflight) - {i} && i < |old(pending)| && pending == old(pending)[i := true]
      ensures stats == TimedOut(old(stats), old(inflight)[i])
    {
      hide LoadsOk, RecordsOk;
      ExpiredLoads(pending, inflight, stats, strays, Limits(), i);
      var p := inflight[i];
      RecordsTimeout(stats, told, joined, benched, StrikeLimits(), p);
      if p in stats {
        benched := benched + if stats[p].provisional then {p} else {};
        var st := RemoveInflight(stats[p]);
        stats := stats[p := if st.provisional then st.(banned := true) else st];
      }
      inflight := inflight - {i};
      pending := pending[i := true];
    }

    /** The ticker: requests that have timed out go back to pending, provisional peers among them are benched,
        and bans made elsewhere are mirrored. */
    method OnTimeoutTick(expired: set<nat>, bannedElsewhere: set<Peer>, connected: set<Peer>,
                         answers: (Peer, nat) -> Answer)
      requires Valid() && forall i :: i in expired ==> i in inflight
      modifies this
      ensures Valid() && KeptSince(old(held), old(files), old(form), old(ready)) && held == old(held)
      ensures forall i :: i in expired ==> ToDo(i, connected, answers)
      ensures forall i :: i in old(inflight) && i !in expired ==> i in inflight
      ensures forall p :: p in old(stats) && p in bannedElsewhere ==> p in stats && stats[p].banned
      ensures forall i :: i in expired && old(inflight)[i] in old(stats) && old(stats)[old(inflight)[i]].provisional ==>
        old(inflight)[i] in stats && stats[old(inflight)[i]].banned
      ensures strays == old(strays) && told == old(told)
      ensures old(benched) <= benched && forall p :: p in benched && p !in old(benched) ==>
        p in bannedElsewhere || Probed(old(stats), old(inflight), expired, p) || HasGone(p, answers)
      ensures joined == old(joined) + (connected - old(stats).Keys) && connected <= stats.Keys
    {
      hide BooksOk, FilesOk, Kept, NothingLost, Asked, ToDo, LoadsOk, RecordsOk, Probed, HasGone;
      NothingUndone();
      ExpiredIn(expired);
      Expire(expired);
      Refresh(bannedElsewhere, connected);
      ghost var pending0, inflight0, stats0 := pending, inflight, stats;
      Sizes();
      var stopped, skipped := Dispatch(connected, answers);
      forall i | i in expired ensures ToDo(i, connected, answers) {
        AskedToDo(pending0, inflight0, stats0, stopped, connected, answers, i);
      }
      AskedKeeps(pending0, inflight0, stats0, pending, inflight, stats, stopped, connected, answers);
    }

    /** Bans made elsewhere are mirrored, and connected peers that are new are registered. */
    method Refresh(bannedElsewhere: set<Peer>, connected: set<Peer>)
      requires Valid()
      modifies this`stats, this`joined, this`benched
      ensures Valid() && benched == old(benched) + bannedElsewhere * old(stats).Keys
      ensures joined == old(joined) + (connected - old(stats).Keys) && stats.Keys == old(stats).Keys + connected
      ensures forall p :: p in old(stats) ==>
        p in stats && stats[p] == if p in bannedElsewhere then old(stats)[p].(banned := true) else old(stats)[p]
    {
      hide BooksOk, FilesOk, NothingLost, LoadsOk, RecordsOk;
      MirroredLoads(pending, inflight, stats, strays, Limits(), bannedElsewhere);
      RecordsMirror(stats, told, joined, benched, StrikeLimits(), bannedElsewhere);
      benched := benched + bannedElsewhere * stats.Keys;
      stats := Mirrored(stats, bannedElsewhere);
      ghost var known := stats;
      AddProvisional(connected);
      SameLoads(pending, inflight, known, stats, strays, Limits());
    }

    lemma ExpiredIn(expired: set<nat>)
      requires Valid() && forall i :: i in expired ==> i in inflight
      ensures forall i :: i in expired ==> i < |hashes|
    {}

    /** A chunk that waits to be requested, or has just been requested from a connected peer. */
    predicate ToDo(i: nat, connected: set<Peer>, answers: (Peer, nat) -> Answer)
      reads this
    {
      i < |pending| && (pending[i] || (i in inflight && inflight[i] in connected && answers(inflight[i], i).Sent?))
    }

    lemma AskedToDo(pending0: seq<bool>, inflight0: map<nat, Peer>, stats0: map<Peer, PeerStat>, upto: nat,
                    connected: set<Peer>, answers: (Peer, nat) -> Answer, i: nat)
      requires Asked(pending0, inflight0, stats0, pending, inflight, stats, upto, connected, answers)
      requires i < |pending0| && pending0[i]
      ensures ToDo(i, connected, answers)
    {}

    /** Peers seen for the first time start as provisional. */
    method AddProvisional(peers: set<Peer>)
      requires RecordsOk(stats, told, joined, benched, StrikeLimits())
      modifies this`stats, this`joined
      ensures RecordsOk(stats, told, joined, benched, StrikeLimits())
      ensures joined == old(joined) + (peers - old(stats).Keys)
      ensures forall p :: p in old(stats) ==> p in stats && stats[p] == old(stats)[p]
      ensures forall p :: p in peers ==> p in stats && (p !in old(stats) ==> stats[p] == NEW_PEER.(provisional := true))
      ensures forall p :: p in stats ==> p in old(stats) || p in peers
      ensures forall p :: LoadOf(stats, p) == LoadOf(old(stats), p)
    {
      RecordsJoin(stats, told, joined, benched, StrikeLimits(), peers);
      hide RecordsOk;
      joined := joined + (peers - stats.Keys);
      stats := (map p | p in peers :: NEW_PEER.(provisional := true)) + stats;
    }

    method Register(peer: Peer)
      requires Valid()
      modifies this`stats, this`joined
      ensures Valid() && peer in stats
      ensures joined == old(joined) + if peer in old(stats) then {} else {peer}
      ensures stats == if peer in old(stats) then old(stats) else old(stats)[peer := NEW_PEER.(provisional := true)]
    {
      hide LoadsOk, RecordsOk;
      AddProvisional({peer});
      SameLoads(pending, inflight, old(stats), stats, strays, Limits());
    }

    /** A peer has connected: it is registered unless it is known, and a round of dispatch follows. */
    method OnConnect(peer: Peer, connected: set<Peer>, answers: (Peer, nat) -> Answer)
      requires Valid()
      modifies this
      ensures Valid() && KeptSince(old(held), old(files), old(form), old(ready)) && held == old(held)
      ensures old(inflight).Keys <= inflight.Keys
      ensures peer in connected ==> peer in stats
      ensures peer in connected && peer !in old(stats) ==>
        Loaded(peer, NEW_PEER.(provisional := true), stats[peer], answers)
      ensures forall p :: p in old(stats) ==> p in stats && Loaded(p, old(stats)[p], stats[p], answers)
      ensures strays == old(strays) && told == old(told) && OnlyGone(old(benched), benched, answers)
      ensures joined == old(joined) + if peer in connected && peer !in old(stats) then {peer} else {}
    {
      hide LoadsOk, RecordsOk;
      if peer in connected {
        Register(peer);
      }
      ghost var pending0, inflight0, stats0 := pending, inflight, stats;
      var stopped, skipped := Dispatch(connected, answers);
      AskedKeeps(pending0, inflight0, stats0, pending, inflight, stats, stopped, connected, answers);
    }

    /** A peer is gone: its requests go back to pending, and the other requests stay. */
    method OnRemoved(peer: Peer, connected: set<Peer>, answers: (Peer, nat) -> Answer)
      requires Valid()
      modifies this
      ensures Valid() && KeptSince(old(held), old(files), old(form), old(ready)) && held == old(held)
      ensures forall i :: i in old(inflight) && old(inflight)[i] == peer ==> ToDo(i, connected, answers)
      ensures forall i :: i in old(inflight) && old(inflight)[i] != peer ==> i in inflight
      ensures peer !in connected ==> forall i :: i in inflight ==> inflight[i] != peer
      ensures forall p :: p in old(stats) ==>
        p in stats && Loaded(p, if p == peer then old(stats)[p].(inflight := 0) else old(stats)[p], stats[p], answers)
      ensures strays == old(strays) && told == old(told) && joined == old(joined)
      ensures OnlyGone(old(benched), benched, answers)
    {
      hide BooksOk, FilesOk, Kept, NothingLost, ToDo, Asked, LoadsOk, RecordsOk;
      NothingUndone();
      Release(peer);
      if peer in stats {
        RecordsTouched(stats, told, joined, benched, StrikeLimits(), peer, stats[peer].(inflight := 0));
        stats := stats[peer := stats[peer].(inflight := 0)];
      }
      DroppedLoads(old(pending), old(inflight), pending, inflight, old(stats), stats, strays, Limits(), peer);
      ghost var pending0, inflight0, stats0 := pending, inflight, stats;
      var stopped, skipped := Dispatch(connected, answers);
      forall i | i in old(inflight) && old(inflight)[i] == peer ensures ToDo(i, connected, answers) {
        AskedToDo(pending0, inflight0, stats0, stopped, connected, answers, i);
      }
      AskedKeeps(pending0, inflight0, stats0, pending, inflight, stats, stopped, connected, answers);
    }

    /** Drops the requests to one peer. */
    method Release(peer: Peer)
      requires Valid()
      modifies this`inflight, this`pending
      ensures NothingLost(pending, completed, inflight)
      ensures BooksOk(sha, hashes, completed, held, doneCount, bytesTotal, ready) && FilesOk(held, files, form)
      ensures DroppedFor(old(pending), old(inflight), pending, inflight, peer)
      ensures forall i :: i in old(inflight) && old(inflight)[i] == peer ==> i < |pending| && pending[i]
    {
      hide BooksOk, FilesOk, LoadsOk;
      var rest := inflight.Keys;
      while rest != {}
        invariant NothingLost(pending, completed, inflight) && |pending| == |old(pending)|
        invariant BooksOk(sha, hashes, completed, held, doneCount, bytesTotal, ready)
        invariant rest <= old(inflight).Keys
        invariant forall i :: i in inflight <==> i in old(inflight) && (i in rest || old(inflight)[i] != peer)
        invariant forall i :: i in inflight ==> inflight[i] == old(inflight)[i]
        invariant forall i :: 0 <= i < |pending| ==>
          (pending[i] <==> old(pending)[i] || (i in old(inflight) && i !in rest && old(inflight)[i] == peer))
        decreases |rest|
      {
        var i :| i in rest;
        rest := rest - {i};
        if inflight[i] == peer {
          inflight := inflight - {i};
          pending := pending[i := true];
        }
      }
    }

    /** A peer that nothing else has benched is banned exactly when, at some reply, the mismatches since its last
        verified chunk came to its limit: provisionalStrikes while it was new and had verified nothing, else
        peerFailLimit. While it is not banned it has fewer. It is provisional exactly while it is new and has verified
        nothing. */
    lemma BannedForMismatches(p: Peer)
      requires Valid() && p in stats && peerFailLimit > 0 && provisionalStrikes > 0
      ensures stats[p].provisional <==> p in joined && Right !in Told(told, p)
      ensures p !in benched ==> (stats[p].banned <==> exists k :: LimitReached(Told(told, p), p in joined, k))
      ensures !stats[p].banned ==> p !in benched && stats[p].failures == Strikes(Told(told, p))
      ensures !stats[p].banned ==>
        Strikes(Told(told, p)) < if p in joined && Right !in Told(told, p) then provisionalStrikes else peerFailLimit
    {
      hide BooksOk, FilesOk, NothingLost, LoadsOk, Strikes;
      var h := Told(told, p);
      if StruckOut(h, p in joined, StrikeLimits()) {
        FirstOut(h, p in joined, StrikeLimits());
        var k :| 0 < k <= |h| && OutAt(h, p in joined, StrikeLimits(), k)
          && Strikes(h[..k]) == LimitNow(h[..k], p in joined, StrikeLimits());
        assert LimitReached(h, p in joined, k);
      } else {
        BelowLimit(h, p in joined, StrikeLimits());
      }
      if k :| LimitReached(h, p in joined, k) {
        assert OutAt(h, p in joined, StrikeLimits(), k);
      }
    }

    /** The k-th verdict is a mismatch, and with it the mismatches since the last verified chunk are as many as the peer
        may come to. */
    predicate LimitReached(h: History, joined: bool, k: nat) {
      && 0 < k <= |h| && h[k - 1].Wrong?
      && Strikes(h[..k]) == if joined && Right !in h[..k] then provisionalStrikes else peerFailLimit
    }

    /** No peer has more requests in flight than its ceiling and its stray replies; without stray replies the records
        are exact. So perPeer bounds every peer's requests when the probe budget is below it, and those of the proven
        peers when it is not above it. */
    lemma PeerCeiling(p: Peer)
      requires Valid()
      ensures p in stats ==> Requests(inflight, p) <= Ceiling(Limits(), stats[p].provisional) + strays[p]
      ensures strays == multiset{} ==>
        && Requests(inflight, p) == LoadOf(stats, p)
        && (provisionalInflight < perPeer ==> Requests(inflight, p) <= perPeer)
        && (provisionalInflight <= perPeer && p in stats && !stats[p].provisional ==> Requests(inflight, p) <= perPeer)
    {
      hide BooksOk, FilesOk, NothingLost, Requests;
      assert Requests(inflight, p) <= LoadOf(stats, p) + strays[p];
    }

    /** The download is over exactly when every chunk is completed. */
    lemma DoneMeansAll()
      requires Valid()
      ensures doneCount <= |hashes|
      ensures doneCount == |hashes| <==> forall i :: 0 <= i < |hashes| ==> completed[i]
    {
      AllHeld(held);
    }

    // ---------- resuming ----------

    /** A chunk file with the wanted content. */
    predicate Usable(e: DirEntry, files: map<FileName, bytes>) {
      && e.ChunkFile? && e.readable && e.name in files
      && e.name.idx < |hashes| && sha(files[e.name]) == hashes[e.name.idx]
    }

    /** A chunk file that a resume removes: out of range, or readable with other content while its chunk is missing. */
    predicate Unwanted(e: DirEntry, held: Held, files: map<FileName, bytes>)
      requires |held| == |hashes|
    {
      && e.ChunkFile? && e.removable
      && (e.name.idx >= |hashes| || (held[e.name.idx].None? && e.readable && !Usable(e, files)))
    }

    /** One entry of the snapshot directory. A chunk file whose content has the wanted hash completes its chunk;
        other chunk files are removed if they can be, unless their chunk is completed already. */
    method ResumeEntry(e: DirEntry) returns (resumed: bool, removed: bool)
      requires Valid() && (e.ChunkFile? ==> e.name in files)
      modifies this
      ensures Valid() && KeptSince(old(held), old(files), old(form), old(ready))
      ensures |hashes| == |held| == |old(held)|
      ensures resumed <==> Usable(e, old(files)) && old(held)[e.name.idx].None?
      ensures held == if resumed then old(held)[e.name.idx := Some(old(files)[e.name])] else old(held)
      ensures removed <==> (e.Leftover? && e.removed) || Unwanted(e, old(held), old(files))
      ensures files == if Unwanted(e, old(held), old(files)) then old(files) - {e.name} else old(files)
      ensures doneCount == old(doneCount) + if resumed then 1 else 0
    {
      resumed, removed := false, false;
      NothingUndone();
      Same();
      match e {
        case Leftover(gone) => removed := gone;
        case Unrelated => {}
        case ChunkFile(name, readable, removable) =>
          if name.idx >= |hashes| || !completed[name.idx] {
            if name.idx < |hashes| && !readable {
              return;
            }
            if name.idx < |hashes| && sha(files[name]) == hashes[name.idx] {
              ResumeChunk(name);
              resumed := true;
              return;
            }
            if removable {
              FileRemoved(held, files, form, ready, name);
              files := files - {name};
              removed := true;
            }
          }
      }
    }

    method ResumeChunk(name: FileName)
      requires Valid() && name in files && name.idx < |hashes| && !completed[name.idx]
      requires sha(files[name]) == hashes[name.idx]
      modifies this
      ensures Valid() && KeptSince(old(held), old(files), old(form), old(ready))
      ensures |held| == |hashes|
      ensures files == old(files) && held == old(held)[name.idx := Some(files[name])] && doneCount == old(doneCount) + 1
    {
      var i, data := name.idx, files[name];
      StillHeld(i);
      Complete(sha, hashes, completed, held, doneCount, bytesTotal, ready, i, data);
      assert files[FileName(i, name.form) := data] == files;
      FileAdded(held, files, form, ready, i, name.form, files, data);
      hide BooksOk, FilesOk, Kept;
      RequestedLoads(i);
      pending := pending[i := false];
      MarkCompleted(i, data, name.form);
    }

    lemma RequestedLoads(i: nat)
      requires LoadsOk(pending, inflight, stats, strays, Limits()) && i < |pending|
      ensures LoadsOk(pending[i := false], inflight, stats, strays, Limits())
    {
      hide Requests;
    }

    /** The scan of the directory that a new download starts with. */
    method ResumeFromDisk(entries: seq<DirEntry>) returns (resumed: nat, removed: nat)
      requires Valid()
      requires forall k :: 0 <= k < |entries| && entries[k].ChunkFile? ==> entries[k].name in files
      requires forall j, k :: 0 <= j < k < |entries| && entries[j].ChunkFile? && entries[k].ChunkFile? ==>
        entries[j].name != entries[k].name
      modifies this
      ensures Valid() && KeptSince(old(held), old(files), old(form), old(ready))
      ensures forall n :: n in files ==> n in old(files) && files[n] == old(files)[n]
      ensures |held| == |hashes| && forall k :: 0 <= k < |entries| && Usable(entries[k], old(files)) ==>
        held[entries[k].name.idx].Some?
      ensures doneCount == old(doneCount) + resumed
    {
      resumed, removed := 0, 0;
      NothingUndone();
      Same();
      hide BooksOk, FilesOk, Kept, NothingLost;
      for k := 0 to |entries|
        invariant Valid() && KeptSince(old(held), old(files), old(form), old(ready))
        invariant forall n :: n in files ==> n in old(files) && files[n] == old(files)[n]
        invariant forall j :: k <= j < |entries| && entries[j].ChunkFile? ==> entries[j].name in files
        invariant |held| == |hashes| && doneCount == old(doneCount) + resumed
        invariant forall j :: 0 <= j < k && Usable(entries[j], old(files)) ==> held[entries[j].name.idx].Some?
      {
        ghost var h, f, m, r := held, files, form, ready;
        var did, gone := ResumeEntry(entries[k]);
        KeptTransitive(old(held), h, held, old(files), f, files, old(form), m, form, old(ready), r, ready);
        resumed := resumed + if did then 1 else 0;
        removed := removed + if gone then 1 else 0;
      }
    }
  }


  // ---------- when perPeer does not bound the requests ----------

  function Always(p: Peer, i: nat): Answer { Sent }

  lemma {:induction false} CountRequests(inflight: map<nat, Peer>, p: Peer, n: nat)
    requires forall i: nat :: i in inflight <==> i < n
    requires forall i: nat :: i in inflight ==> inflight[i] == p
    ensures Requests(inflight, p) == n
  {
    if n > 0 {
      CountRequests(inflight - {n - 1}, p, n - 1);
      OneRequestLess(inflight, n - 1, p);
    }
  }

  /** The slots of a peer: a round of dispatch asks it until its record shows so many requests. */
  function Slots(s: Scheduler, provisional: bool): nat {
    if provisional then s.provisionalInflight + 1 else s.perPeer
  }

  /** Nothing has been requested but the first n chunks, from that peer; of the others, none before the last has been
      declined by it. There are more chunks than it can be asked for. */
  ghost predicate Front(s: Scheduler, p: Peer, n: nat)
    reads s
  {
    && s.Valid() && n <= |s.hashes| == |s.pending| && p in s.stats && !s.stats[p].banned
    && (forall i :: 0 <= i < |s.pending| ==> (s.pending[i] <==> i >= n))
    && (forall i: nat :: i in s.inflight <==> i < n)
    && (forall i: nat :: i in s.inflight ==> s.inflight[i] == p)
    && (forall i :: i in s.stats[p].declined ==> i >= |s.hashes| - 1)
    && |s.hashes| > Ceiling(s.Limits(), s.stats[p].provisional) + s.strays[p] + 1
  }

  /** So far the peer's requests are the first n chunks, and not too many. */
  lemma FrontRequests(s: Scheduler, p: Peer, n: nat)
    requires Front(s, p, n)
    ensures Requests(s.inflight, p) == n <= Ceiling(s.Limits(), s.stats[p].provisional) + s.strays[p]
    ensures s.strays == multiset{} ==> s.stats[p].inflight == n
  {
    hide BooksOk, FilesOk, NothingLost, LoadsOk, Ceiling;
    s.PeerCeiling(p);
    CountRequests(s.inflight, p, n);
  }

  /** A round of dispatch with one connected peer, all of whose requests are sent, goes on with the first pending
      chunks until the peer has no slot left. */
  method Advance(s: Scheduler, p: Peer, n: nat) returns (m: nat)
    requires Front(s, p, n)
    modifies s`pending, s`inflight, s`stats, s`benched
    ensures Front(s, p, m) && n <= m && (m == n ==> s.stats[p].inflight == old(s.stats[p].inflight))
    ensures s.stats[p] == old(s.stats[p]).(inflight := s.stats[p].inflight)
    ensures s.stats[p].inflight >= Slots(s, s.stats[p].provisional) || m >= |s.hashes| - 1
  {
    hide BooksOk, FilesOk, NothingLost, LoadsOk, Requests, Ceiling;
    ghost var pending0, load := s.pending, LoadOf(s.stats, p);
    var stopped, skipped := s.Dispatch({p}, Always);
    m := stopped;
    assert m == n ==> s.pending == pending0 && LoadOf(s.stats, p) == load;
    assert !HasGone(p, Always) && Loaded(p, old(s.stats[p]), s.stats[p], Always);
    assert stopped < |s.hashes| - 1 ==> s.Eligible(p, stopped, {p}, skipped);
  }

  /** The probe budget is not below perPeer: one new peer gets more than perPeer requests in the round in which it
      connects. */
  method ProbesExceed(sha: Sha, h: Hash32, perPeer: nat, probe: nat) returns (s: Scheduler)
    requires perPeer <= probe
    ensures fresh(s) && s.Valid() && s.perPeer == perPeer && s.provisionalInflight == probe && s.strays == multiset{}
    ensures Requests(s.inflight, 7) == probe + 1 > perPeer
  {
    hide BooksOk, FilesOk, NothingLost, LoadsOk, Requests;
    s := new Scheduler(sha, seq(probe + 3, i => h), {}, map[], perPeer, 3, 1, probe);
    s.Register(7);
    var n := Advance(s, 7, 0);
    FrontRequests(s, 7, n);
  }

  /** A probe budget above perPeer: the peer is promoted by its first chunk, and proven it still has more than perPeer
      requests. */
  method PromotedExceeds(sha: Sha, data: bytes, perPeer: nat, probe: nat) returns (s: Scheduler)
    requires perPeer < probe && data != []
    ensures fresh(s) && s.Valid() && s.perPeer == perPeer && s.provisionalInflight == probe && s.strays == multiset{}
    ensures 7 in s.stats && !s.stats[7].provisional && Requests(s.inflight, 7) == probe > perPeer
  {
    hide BooksOk, FilesOk, NothingLost, LoadsOk, Requests;
    s := new Scheduler(sha, seq(probe + 3, i => sha(data)), {}, map[], perPeer, 3, 1, probe);
    s.Register(7);
    var n := Advance(s, 7, 0);
    FrontRequests(s, 7, n);
    ghost var asked := s.inflight;
    var done := s.TakeReply(7, 0, false, data, true);
    OneRequestLess(asked, 0, 7);
  }

  /** A stray reply: a peer that has declined the last chunk without having been asked for it gets one request more
      than perPeer, however small the probe budget. */
  method UnaskedReply(sha: Sha, h: Hash32, perPeer: nat, probe: nat) returns (s: Scheduler)
    requires probe < perPeer
    ensures fresh(s) && s.Valid() && s.perPeer == perPeer && s.provisionalInflight == probe && s.strays == multiset{7}
    ensures 7 in s.stats && !s.stats[7].provisional && Requests(s.inflight, 7) == perPeer + 1
  {
    hide BooksOk, FilesOk, NothingLost, LoadsOk, Requests;
    s := new Scheduler(sha, seq(perPeer + 3, i => h), {7}, map[], perPeer, 3, 1, probe);
    var n := Advance(s, 7, 0);
    FrontRequests(s, 7, n);
    var done := s.TakeReply(7, perPeer + 2, true, [], false);
    n := Advance(s, 7, n);
    FrontRequests(s, 7, n);
  }
}
