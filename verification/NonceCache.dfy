/** The nonce counters behind their one-entry cache, for every version. A cached version of 0 means an empty cache, so
    nodes of version 0 are counted wrongly, and the theorem at the end says exactly when that does harm. */
module NonceCache {
  import opened Bytes
  import opened IavlTree

  function Count(s: Stream, version: int): (n: nat)
    ensures n <= Length(s)
  {
    if s.Start? then 0 else Count(s.before, version) + if s.item.version == version then 1 else 0
  }

  // ---------- versions other than 0 ----------

  /** How many nonces of a version the counters say have been handed out. */
  ghost function Issued(c: Cache, version: int): int {
    if version == c.version then c.counter - 1
    else if version in c.nonces && c.nonces[version] != 0 then c.nonces[version] - 1
    else 0
  }

  /** The map and the cached counter together count the items of every version but 0. */
  ghost predicate Tallies(c: Cache, s: Stream) {
    && (c.version != 0 ==> 1 <= c.counter)
    && (forall v :: v != 0 ==> Issued(c, v) == Count(s, v))
  }

  lemma IssueTallies(c: Cache, s: Stream, x: ExportNode)
    requires Tallies(c, s) && x.version != 0 && Count(s, x.version) < TWO_32 - 2
    ensures Issue(c, x.version).1 == 2 + Count(s, x.version) && Tallies(Issue(c, x.version).0, Then(s, x))
  {
    IssueMoves(c, x.version, x.version);
    hide Issued, Issue;
    assert Issued(c, x.version) == Count(s, x.version);
    forall v | v != 0 ensures Issued(Issue(c, x.version).0, v) == Count(Then(s, x), v) {
      IssueMoves(c, x.version, v);
      assert Issued(c, v) == Count(s, v);
    }
  }

  /** Handing out a nonce moves the count of its version and of no other. */
  lemma IssueMoves(c: Cache, version: int64, v: int)
    requires v != 0 && (c.version != 0 ==> 1 <= c.counter)
    requires version != 0 ==> Issued(c, version) < TWO_32 - 2
    ensures var (d, nonce) := Issue(c, version);
            && d.version == version
            && (version != 0 ==> nonce == d.counter == 2 + Issued(c, version))
            && Issued(d, v) == Issued(c, v) + if v == version then 1 else 0
  {}

  // ---------- version 0 ----------

  /** No version has more nodes than the 32-bit counter can number. */
  predicate Countable(s: Stream) {
    s.Then? ==> Count(s.before, s.item.version) < TWO_32 - 2 && Countable(s.before)
  }

  /** The number of items of version 0 at the end of the stream. */
  function ZeroRun(s: Stream): (n: nat)
    ensures n <= Count(s, 0)
  {
    if s.Then? && s.item.version == 0 then ZeroRun(s.before) + 1 else 0
  }

  predicate AllZero(s: Stream) {
    s.Then? ==> s.item.version == 0 && AllZero(s.before)
  }

  ghost predicate ZeroCounter(c: Cache, s: Stream) {
    && 0 !in c.nonces
    && (c.version == 0 <==> s.Start? || s.item.version == 0)
    && (c.version == 0 ==> c.counter == ZeroRun(s) + if AllZero(s) then 0 else 1)
  }

  lemma {:induction false} AfterCounts(s: Stream)
    requires Countable(s)
    ensures Tallies(CacheAfter(s), s) && ZeroCounter(CacheAfter(s), s)
  {
    if s.Then? {
      AfterCounts(s.before);
      ZeroStep(CacheAfter(s.before), s.before, s.item);
      if s.item.version == 0 {
        TalliesSkipZero(CacheAfter(s.before), s.before, s.item);
      } else {
        IssueTallies(CacheAfter(s.before), s.before, s.item);
      }
    }
  }

  lemma ZeroStep(c: Cache, s: Stream, x: ExportNode)
    requires ZeroCounter(c, s) && (x.version == 0 ==> ZeroRun(s) < TWO_32 - 2)
    ensures ZeroCounter(Issue(c, x.version).0, Then(s, x))
    ensures x.version == 0 ==> Issue(c, 0).1 == ZeroRun(s) + if AllZero(s) then 1 else 2
  {
    hide Issue;
    IssueZero(c, x.version);
    RunGrows(s, x);
  }

  /** Version 0 is never flushed: it goes on while it is cached and otherwise starts at 2. */
  lemma IssueZero(c: Cache, version: int64)
    requires 0 !in c.nonces && (version == 0 == c.version ==> c.counter < TWO_32 - 1)
    ensures var (d, nonce) := Issue(c, version);
            && 0 !in d.nonces && d.version == version
            && (version == 0 ==> nonce == d.counter == if c.version == 0 then c.counter + 1 else 2)
  {}

  lemma RunGrows(s: Stream, x: ExportNode)
    ensures s.Then? && s.item.version != 0 ==> ZeroRun(s) == 0 && !AllZero(s)
    ensures x.version == 0 ==> ZeroRun(Then(s, x)) == ZeroRun(s) + 1 && AllZero(Then(s, x)) == AllZero(s)
  {}

  lemma TalliesSkipZero(c: Cache, s: Stream, x: ExportNode)
    requires Tallies(c, s) && x.version == 0
    ensures Tallies(Issue(c, 0).0, Then(s, x))
  {
    hide Issued, Issue;
    IssueMoves(c, 0, 1);
    forall v | v != 0 ensures Issued(Issue(c, 0).0, v) == Count(Then(s, x), v) {
      IssueMoves(c, 0, v);
      assert Issued(c, v) == Count(s, v);
    }
  }

  /** The nonce of every item: the versions other than 0 count on from 2; version 0 starts again with each run of
      such items, at 1 when the stream begins with it. */
  lemma NonceIs(s: Stream)
    requires s.Then? && Countable(s)
    ensures Nonce(s) ==
      if s.item.version != 0 then 2 + Count(s.before, s.item.version)
      else ZeroRun(s.before) + if AllZero(s.before) then 1 else 2
  {
    hide Issue, CacheAfter, Tallies, ZeroCounter, Count;
    AfterCounts(s.before);
    if s.item.version != 0 {
      IssueTallies(CacheAfter(s.before), s.before, s.item);
    } else {
      ZeroStep(CacheAfter(s.before), s.before, s.item);
    }
  }

  // ---------- when the nonces serve as node keys ----------

  /** The items of version 0 are consecutive, and none is the first. */
  predicate ZerosTogether(s: Stream) {
    s.Then? ==>
      && (s.item.version == 0 ==> s.before.Then? && (s.before.item.version == 0 || Count(s.before, 0) == 0))
      && ZerosTogether(s.before)
  }

  /** The cached counter gives distinct nonces from 2 exactly to the streams whose version-0 items are consecutive and
      not first; streams without version 0 are among them. */
  lemma {:induction false} DistinctIff(s: Stream)
    requires Countable(s)
    ensures Distinct(s) <==> ZerosTogether(s)
  {
    if s.Then? {
      DistinctIff(s.before);
      NonceIs(s);
      var v := s.item.version;
      if v != 0 {
        CountedUnused(s.before, v, Nonce(s));
      } else if ZerosTogether(s.before) && s.before.Then? {
        NotAllZero(s.before);
        if s.before.item.version == 0 {
          RunUnused(s.before, Nonce(s));
        } else if Count(s.before, 0) == 0 {
          NoneUnused(s.before, Nonce(s));
        } else {
          SecondRunRepeats(s.before);
        }
      }
    }
  }

  lemma {:induction false} NotAllZero(s: Stream)
    requires s.Then? && ZerosTogether(s)
    ensures !AllZero(s)
  {
    if s.item.version == 0 {
      NotAllZero(s.before);
    }
  }

  lemma {:induction false} CountedUnused(s: Stream, version: int64, nonce: uint32)
    requires Countable(s) && version != 0 && nonce >= 2 + Count(s, version)
    ensures Unused(s, version, nonce)
  {
    if s.Then? {
      NonceIs(s);
      CountedUnused(s.before, version, nonce);
    }
  }

  lemma {:induction false} NoneUnused(s: Stream, nonce: uint32)
    requires Count(s, 0) == 0
    ensures Unused(s, 0, nonce)
  {
    if s.Then? {
      NoneUnused(s.before, nonce);
    }
  }

  lemma {:induction false} RunUnused(s: Stream, nonce: uint32)
    requires Countable(s) && ZerosTogether(s) && s.Then? && s.item.version == 0 && nonce >= ZeroRun(s) + 2
    ensures Unused(s, 0, nonce)
  {
    NonceIs(s);
    if s.before.item.version == 0 {
      RunUnused(s.before, nonce);
    } else {
      NoneUnused(s.before, nonce);
    }
  }

  /** A run of version 0 that does not start the stream has handed out nonce 2. */
  lemma {:induction false} SecondRunRepeats(s: Stream)
    requires Countable(s) && ZerosTogether(s) && Count(s, 0) > 0
    ensures !Unused(s, 0, 2)
  {
    NonceIs(s);
    if s.item.version == 0 && s.before.item.version != 0 {
      NotAllZero(s.before);
    } else {
      SecondRunRepeats(s.before);
    }
  }

  function Leaf0(version: int64): ExportNode {
    ExportNode(0, version, [], [])
  }

  /** The two ways to fail: a stream that begins with version 0 hands out the root's nonce 1, and a second run of
      version 0 hands out the first run's nonces again. */
  lemma VersionZeroFails()
    ensures var s := Then(Start, Leaf0(0)); Countable(s) && Nonce(s) == 1 && !Distinct(s)
    ensures var p := Then(Then(Start, Leaf0(5)), Leaf0(0));
            var s := Then(Then(p, Leaf0(5)), Leaf0(0));
            Countable(s) && p.item.version == s.item.version == 0 && Nonce(p) == Nonce(s) == 2 && !Distinct(s)
  {
    var one := Then(Start, Leaf0(5));
    var p := Then(one, Leaf0(0));
    var q := Then(p, Leaf0(5));
    var s := Then(q, Leaf0(0));
    assert Count(q, 0) == Count(p, 0) == 1 && Count(p, 5) == Count(one, 5) == 1;
    NonceIs(p);
    NonceIs(s);
    NonceIs(Then(Start, Leaf0(0)));
    assert !Unused(p, 0, 2);
    assert !Unused(q, 0, 2);
  }
}
