/** Every frame under way is held once, and the wait-group counts the frames under way. */
module WaveOwners {
  import opened Bytes
  import opened IavlTree
  import opened WaveState
  import opened WaveInvariant

  // ---------- lines ----------

  /** Only frame f may have moved. */
  ghost predicate OnlyMoves(s: State, t: State, f: nat) {
    forall j: nat :: j != f ==> At(s, j) == At(t, j)
  }

  lemma LineSame(s: State, t: State, q: seq<nat>, p: Place, f: nat)
    requires Line(s, q, p) && OnlyMoves(s, t, f) && (At(s, f) == p <==> At(t, f) == p)
    ensures Line(t, q, p)
  {
    hide At;
  }

  lemma LineAppend(s: State, t: State, q: seq<nat>, p: Place, f: nat)
    requires Line(s, q, p) && OnlyMoves(s, t, f) && At(s, f) != p && At(t, f) == p
    ensures Line(t, q + [f], p)
  {
    hide At;
    forall j: nat | At(t, j) == p ensures j in q + [f] {
      if j != f {
        assert At(s, j) == p;
      }
    }
  }

  lemma LinePop(s: State, t: State, q: seq<nat>, p: Place)
    requires Line(s, q, p) && q != [] && OnlyMoves(s, t, q[0]) && At(t, q[0]) != p
    ensures Line(t, q[1..], p)
  {
    hide At;
    forall j: nat | At(t, j) == p ensures j in q[1..] {
      assert j in q && j != q[0];
    }
  }

  /** A step that moves frame f at most, between the places where it was and is. */
  lemma HandSame(s: State, t: State, f: nat)
    requires Owners(s) && OnlyMoves(s, t, f) && t.dispatcher == s.dispatcher
    requires At(s, f) == InHand <==> At(t, f) == InHand
    ensures forall j: nat :: At(t, j) == InHand <==> t.dispatcher == Holding(j)
  {
    hide At, Line;
    forall j: nat ensures At(t, j) == InHand <==> t.dispatcher == Holding(j) {
      assert At(s, j) == InHand <==> s.dispatcher == Holding(j);
    }
  }

  lemma WorkersSame(s: State, t: State, f: nat)
    requires Owners(s) && OnlyMoves(s, t, f) && t.workers == s.workers && !At(s, f).AtWorker? && !At(t, f).AtWorker?
    ensures forall j: nat, w: nat :: At(t, j) == AtWorker(w) <==> w < |t.workers| && t.workers[w] == Working(j)
  {
    hide At, Line;
    forall j: nat, w: nat ensures At(t, j) == AtWorker(w) <==> w < |t.workers| && t.workers[w] == Working(j) {
      assert At(s, j) == AtWorker(w) <==> w < |s.workers| && s.workers[w] == Working(j);
    }
  }

  lemma OwnersQuiet(s: State, t: State)
    requires Owners(s) && t.queue == s.queue && t.ready == s.ready && t.dispatcher == s.dispatcher
      && t.workers == s.workers
    requires forall j: nat :: At(s, j) == At(t, j)
    ensures Owners(t)
  {
    hide At;
  }

  /** A submitted frame joins the queue. */
  lemma OwnersEnqueue(s: State, t: State, f: nat)
    requires Owners(s) && OnlyMoves(s, t, f) && At(s, f) == Nowhere && At(t, f) == InQueue
    requires t.queue == s.queue + [f] && t.ready == s.ready && t.dispatcher == s.dispatcher && t.workers == s.workers
    ensures Owners(t)
  {
    hide At, Line, OnlyMoves;
    LineAppend(s, t, s.queue, InQueue, f);
    LineSame(s, t, s.ready, InChannel, f);
    HandSame(s, t, f);
    WorkersSame(s, t, f);
  }

  lemma OwnersHold(s: State, t: State, f: nat)
    requires Owners(s) && s.queue != [] && f == s.queue[0] && s.dispatcher == Looking
    requires OnlyMoves(s, t, f) && At(t, f) == InHand
    requires t.queue == s.queue[1..] && t.ready == s.ready && t.dispatcher == Holding(f) && t.workers == s.workers
    ensures Owners(t)
  {
    assert At(s, f) == InQueue;
    hide At, Line;
    LinePop(s, t, s.queue, InQueue);
    LineSame(s, t, s.ready, InChannel, f);
    WorkersSame(s, t, f);
    forall j: nat ensures At(t, j) == InHand <==> t.dispatcher == Holding(j) {
      assert At(s, j) == InHand <==> s.dispatcher == Holding(j);
    }
  }

  lemma OwnersSend(s: State, t: State, f: nat)
    requires Owners(s) && s.dispatcher == Holding(f)
    requires OnlyMoves(s, t, f) && At(t, f) == InChannel
    requires t.queue == s.queue && t.ready == s.ready + [f] && t.dispatcher == Looking && t.workers == s.workers
    ensures Owners(t)
  {
    assert At(s, f) == InHand;
    hide At, Line;
    LineSame(s, t, s.queue, InQueue, f);
    LineAppend(s, t, s.ready, InChannel, f);
    WorkersSame(s, t, f);
    forall j: nat ensures At(t, j) == InHand <==> t.dispatcher == Holding(j) {
      assert At(s, j) == InHand <==> s.dispatcher == Holding(j);
    }
  }

  lemma OwnersTake(s: State, t: State, w: nat, f: nat)
    requires Owners(s) && s.ready != [] && f == s.ready[0] && w < |s.workers| && s.workers[w] == Idle
    requires OnlyMoves(s, t, f) && At(t, f) == AtWorker(w)
    requires t.queue == s.queue && t.ready == s.ready[1..] && t.dispatcher == s.dispatcher
    requires t.workers == s.workers[w := Working(f)]
    ensures Owners(t)
  {
    assert At(s, f) == InChannel;
    hide At, Line;
    LinePop(s, t, s.ready, InChannel);
    LineSame(s, t, s.queue, InQueue, f);
    HandSame(s, t, f);
    forall j: nat, v: nat ensures At(t, j) == AtWorker(v) <==> v < |t.workers| && t.workers[v] == Working(j) {
      assert At(s, j) == AtWorker(v) <==> v < |s.workers| && s.workers[v] == Working(j);
    }
  }

  lemma OwnersDone(s: State, t: State, w: nat, f: nat)
    requires Owners(s) && w < |s.workers| && s.workers[w] == Working(f)
    requires OnlyMoves(s, t, f) && At(t, f) == Nowhere
    requires t.queue == s.queue && t.ready == s.ready && t.dispatcher == s.dispatcher
    requires t.workers == s.workers[w := Idle]
    ensures Owners(t)
  {
    assert At(s, f) == AtWorker(w);
    hide At, Line;
    LineSame(s, t, s.queue, InQueue, f);
    LineSame(s, t, s.ready, InChannel, f);
    HandSame(s, t, f);
    forall j: nat, v: nat ensures At(t, j) == AtWorker(v) <==> v < |t.workers| && t.workers[v] == Working(j) {
      assert At(s, j) == AtWorker(v) <==> v < |s.workers| && s.workers[v] == Working(j);
    }
  }

  lemma OwnersGone(s: State, t: State, w: nat)
    requires Owners(s) && w < |s.workers| && s.workers[w] == Idle && t.frames == s.frames
    requires t.queue == s.queue && t.ready == s.ready && t.dispatcher == s.dispatcher
    requires t.workers == s.workers[w := WorkerGone]
    ensures Owners(t)
  {
    assert forall j: nat :: At(s, j) == At(t, j);
    hide At;
  }

  // ---------- totals ----------

  lemma {:induction false} TotalUpdate(frames: seq<ParFrame>, f: nat, fr: ParFrame, g: ParFrame -> nat)
    requires f < |frames|
    ensures Total(frames[f := fr], g) == Total(frames, g) - g(frames[f]) + g(fr)
  {
    var n := |frames| - 1;
    if f == n {
      assert frames[f := fr][..n] == frames[..n];
    } else {
      assert frames[f := fr][..n] == frames[..n][f := fr];
      TotalUpdate(frames[..n], f, fr, g);
    }
  }

  lemma TotalAppend(frames: seq<ParFrame>, fr: ParFrame, g: ParFrame -> nat)
    ensures Total(frames + [fr], g) == Total(frames, g) + g(fr)
  {
    assert (frames + [fr])[..|frames|] == frames;
  }

  lemma {:induction false} TotalBound(frames: seq<ParFrame>, g: ParFrame -> nat, j: nat)
    requires j < |frames|
    ensures Total(frames, g) >= g(frames[j])
  {
    var n := |frames| - 1;
    if j < n {
      TotalBound(frames[..n], g, j);
    }
  }

  lemma {:induction false} TotalWitness(frames: seq<ParFrame>, g: ParFrame -> nat) returns (j: nat)
    requires Total(frames, g) > 0
    ensures j < |frames| && g(frames[j]) > 0
  {
    var n := |frames| - 1;
    if g(frames[n]) > 0 {
      j := n;
    } else {
      j := TotalWitness(frames[..n], g);
    }
  }
}
