/** Stage 1 and the store workers on one chunk ring: the indexer opens a reader for each store segment while
    the workers of earlier segments read on, buffer ahead and close. No segment's start is evicted before its
    reader is begun, although a worker's buffered position runs past its own segment. */
module PinHandoff {
  import opened Bytes
  import opened ChunkRing

  // ---------- envelopes ----------

  datatype Kind = StoreItem | IavlItem | ExtItem | OtherItem

  /** The first envelope of a byte string, when it is complete: its length on the wire and its kind. */
  function Envelope(s: bytes): (r: Option<(nat, Kind)>)
    ensures r.Some? ==> 0 < r.value.0 <= |s|
  {
    match Uvarint(s)
    case None => None
    case Some((len, n)) =>
      if len == 0 || n + len > |s| then None
      else
        var field := s[n] / 8;
        Some((n + len, if field == 1 then StoreItem else if field == 2 then IavlItem
                       else if field == 3 || field == 4 then ExtItem else OtherItem))
  }

  lemma {:induction false} UvarintPrefix(p: bytes, s: bytes, i: nat)
    requires |p| <= |s| && p == s[..|p|] && Uvarint(p, i).Some?
    ensures Uvarint(s, i) == Uvarint(p, i)
  {
    if p[0] >= 128 {
      assert p[1..] == s[1..][..|p| - 1];
      UvarintPrefix(p[1..], s[1..], i + 1);
    }
  }

  /** A complete envelope reads the same whatever follows it. */
  lemma EnvelopePrefix(p: bytes, s: bytes)
    requires |p| <= |s| && p == s[..|p|] && Envelope(p).Some?
    ensures Envelope(s) == Envelope(p)
  {
    UvarintPrefix(p, s, 0);
  }

  // ---------- segments ----------

  /** A store's stretch of the stream: its store item, then IAVL items. */
  datatype Segment = Segment(start: nat, end: nat)

  /** IAVL items from pos to end exactly. */
  predicate IavlRun(data: bytes, pos: nat, end: nat)
    requires end <= |data|
    decreases end - pos
  {
    pos == end ||
    (pos < end &&
     match Envelope(data[pos..])
     case Some((n, kind)) => kind == IavlItem && pos + n <= end && IavlRun(data, pos + n, end)
     case None => false)
  }

  predicate SegmentOk(data: bytes, seg: Segment) {
    && seg.start < seg.end <= |data|
    && match Envelope(data[seg.start..])
       case Some((n, kind)) => kind == StoreItem && seg.start + n <= seg.end && IavlRun(data, seg.start + n, seg.end)
       case None => false
  }

  /** What follows a segment is not an IAVL item. */
  predicate Bounded(data: bytes, seg: Segment)
    requires seg.end <= |data|
  {
    match Envelope(data[seg.end..])
    case Some((_, kind)) => kind != IavlItem
    case None => true
  }

  /** The segments tile the stream up to the extensions. */
  predicate Tiled(data: bytes, segs: seq<Segment>, extStart: nat) {
    && extStart <= |data|
    && (forall k :: 0 <= k < |segs| ==> SegmentOk(data, segs[k]) && Bounded(data, segs[k]))
    && (forall k :: 0 <= k < |segs| ==> segs[k].end == if k + 1 < |segs| then segs[k + 1].start else extStart)
  }

  function NextStart(segs: seq<Segment>, begun: nat, extStart: nat): nat {
    if begun < |segs| then segs[begun].start else extStart
  }

  lemma {:induction false} SegmentsInOrder(data: bytes, segs: seq<Segment>, extStart: nat, k: nat, m: nat)
    requires Tiled(data, segs, extStart) && k < m <= |segs|
    ensures segs[k].end <= NextStart(segs, m, extStart)
    decreases m
  {
    if k + 1 < m {
      SegmentsInOrder(data, segs, extStart, k, m - 1);
    }
  }

  // ---------- one worker ----------

  /** A worker's side of a reader: what its buffer holds, the bytes of the item it returned last, the offset
      that it has consumed, and whether it has seen the boundary item. */
  datatype Snap = Snap(id: nat, buf: bytes, last: nat, consumed: nat, started: bool, first: bool, done: bool)

  predicate SnapOk(data: bytes, stream: bytes, seg: Segment, c: Cursor, w: Snap) {
    && seg.end <= |data|
    && c.start == seg.start
    && (if w.started then
          && c.manual && c.pin + w.last == w.consumed && c.pos == w.consumed + |w.buf| <= |stream|
          && w.buf == stream[w.consumed..c.pos]
        else
          && !c.manual && c.pos == seg.start && w.buf == [] && w.last == 0 && w.consumed == seg.start
          && w.first && !w.done)
    && seg.start <= c.EffectivePin() <= seg.end
    && (!w.done ==> seg.start <= w.consumed <= seg.end
                    && if w.first then w.consumed == seg.start && w.last == 0 else IavlRun(data, w.consumed, seg.end))
  }

  /** Snap k belongs to segment k, each with its own open reader. */
  ghost predicate SnapsOk(data: bytes, stream: bytes, segs: seq<Segment>, begun: nat, readers: map<nat, Cursor>,
                          active: map<nat, Snap>) {
    && (forall k :: k in active ==>
        && k < begun <= |segs| && active[k].id in readers
        && SnapOk(data, stream, segs[k], readers[active[k].id], active[k]))
    && (forall k, m :: k in active && m in active && k != m ==> active[k].id != active[m].id)
    && (forall id :: id in readers ==> exists k :: k in active && active[k].id == id)
  }

  /** Nothing at or after the next segment's start is gone. */
  lemma HeadBelowNext(data: bytes, stream: bytes, segs: seq<Segment>, extStart: nat, begun: nat,
                      readers: map<nat, Cursor>, got: map<nat, bytes>, active: map<nat, Snap>, head: nat)
    requires Tiled(data, segs, extStart) && begun <= |segs|
    requires SnapsOk(data, stream, segs, begun, readers, active) && CursorsOk(readers, got, head, stream)
    requires readers != map[]
    ensures head <= NextStart(segs, begun, extStart)
  {
    var id :| id in readers;
    var k :| k in active && active[k].id == id;
    assert CursorOk(readers[id], got[id], head, stream);
    SegmentsInOrder(data, segs, extStart, k, begun);
  }

  // ---------- steps on values ----------

  lemma SnapsUpdate(data: bytes, stream: bytes, segs: seq<Segment>, begun: nat, readers: map<nat, Cursor>,
                    active: map<nat, Snap>, k: nat, c: Cursor, w: Snap)
    requires SnapsOk(data, stream, segs, begun, readers, active) && k in active && w.id == active[k].id
    requires SnapOk(data, stream, segs[k], c, w)
    ensures SnapsOk(data, stream, segs, begun, readers[w.id := c], active[k := w])
  {
    hide SnapOk;
    var rs, ac := readers[w.id := c], active[k := w];
    forall id | id in rs ensures exists m :: m in ac && ac[m].id == id {
      var m :| m in active && active[m].id == id;
      assert ac[m].id == id;
    }
  }

  lemma SnapGrows(data: bytes, stream: bytes, more: bytes, seg: Segment, c: Cursor, w: Snap)
    requires SnapOk(data, stream, seg, c, w)
    ensures SnapOk(data, stream + more, seg, c, w)
  {
    if w.started {
      assert (stream + more)[w.consumed..c.pos] == stream[w.consumed..c.pos];
    }
  }

  lemma SnapsGrow(data: bytes, stream: bytes, more: bytes, segs: seq<Segment>, begun: nat, readers: map<nat, Cursor>,
                  active: map<nat, Snap>)
    requires SnapsOk(data, stream, segs, begun, readers, active)
    ensures SnapsOk(data, stream + more, segs, begun, readers, active)
  {
    hide SnapOk;
    forall k | k in active ensures SnapOk(data, stream + more, segs[k], readers[active[k].id], active[k]) {
      SnapGrows(data, stream, more, segs[k], readers[active[k].id], active[k]);
    }
  }

  lemma SnapsOpen(data: bytes, stream: bytes, segs: seq<Segment>, extStart: nat, begun: nat, readers: map<nat, Cursor>,
                  active: map<nat, Snap>, id: nat)
    requires SnapsOk(data, stream, segs, begun, readers, active) && Tiled(data, segs, extStart)
    requires begun < |segs| && id !in readers && SegmentOk(data, segs[begun])
    ensures begun !in active
    ensures var start := segs[begun].start;
            SnapsOk(data, stream, segs, begun + 1, readers[id := Cursor(start, start, 0, false, -1)],
                    active[begun := Snap(id, [], 0, start, false, true, false)])
  {
    hide SnapOk, SegmentOk, Bounded, Tiled, IavlRun, Envelope;
    var start := segs[begun].start;
    NewSnapOk(data, stream, segs[begun], id);
    AddSnap(data, stream, segs, begun, readers, active, Cursor(start, start, 0, false, -1),
            Snap(id, [], 0, start, false, true, false));
  }

  lemma AddSnap(data: bytes, stream: bytes, segs: seq<Segment>, begun: nat, readers: map<nat, Cursor>,
                active: map<nat, Snap>, c: Cursor, w: Snap)
    requires SnapsOk(data, stream, segs, begun, readers, active) && begun < |segs| && w.id !in readers
    requires SnapOk(data, stream, segs[begun], c, w)
    ensures begun !in active && SnapsOk(data, stream, segs, begun + 1, readers[w.id := c], active[begun := w])
  {
    hide SnapOk;
    var id, rs, ac := w.id, readers[w.id := c], active[begun := w];
    forall x | x in rs ensures exists m :: m in ac && ac[m].id == x {
      if x == id {
        assert ac[begun].id == x;
      } else {
        var m :| m in active && active[m].id == x;
        assert ac[m].id == x;
      }
    }
  }

  lemma NewSnapOk(data: bytes, stream: bytes, seg: Segment, id: nat)
    requires SegmentOk(data, seg)
    ensures SnapOk(data, stream, seg, Cursor(seg.start, seg.start, 0, false, -1),
      Snap(id, [], 0, seg.start, false, true, false))
  {
    hide IavlRun, Envelope;
  }

  lemma SnapsClose(data: bytes, stream: bytes, segs: seq<Segment>, begun: nat, readers: map<nat, Cursor>,
                   active: map<nat, Snap>, k: nat)
    requires SnapsOk(data, stream, segs, begun, readers, active) && k in active
    ensures SnapsOk(data, stream, segs, begun, readers - {active[k].id}, active - {k})
  {
    hide SnapOk;
    var rs, ac := readers - {active[k].id}, active - {k};
    forall x | x in rs ensures exists m :: m in ac && ac[m].id == x {
      var m :| m in active && active[m].id == x;
      assert m in ac && ac[m].id == x;
    }
  }

  // ---------- one worker's steps ----------

  lemma StartOk(data: bytes, stream: bytes, seg: Segment, c: Cursor, w: Snap)
    requires SnapOk(data, stream, seg, c, w) && !w.started && c.pos <= |stream|
    ensures SnapOk(data, stream, seg, Pinned(c), w.(started := true))
  {}

  /** More bytes in the buffer. */
  lemma FillOk(data: bytes, stream: bytes, seg: Segment, c: Cursor, w: Snap, got: bytes)
    requires SnapOk(data, stream, seg, c, w) && w.started
    requires c.pos + |got| <= |stream| && got == stream[c.pos..c.pos + |got|]
    ensures SnapOk(data, stream, seg, c.(pos := c.pos + |got|), w.(buf := w.buf + got))
  {
    assert stream[w.consumed..c.pos] + got == stream[w.consumed..c.pos + |got|];
  }

  /** The item returned last is committed: the pin moves to the consumed offset. */
  lemma CommitOk(data: bytes, stream: bytes, seg: Segment, c: Cursor, w: Snap)
    requires SnapOk(data, stream, seg, c, w) && w.started && !w.done && w.last > 0
    ensures SnapOk(data, stream, seg, Advanced(c, w.last), w.(last := 0))
  {}

  lemma CommitMoves(data: bytes, stream: bytes, seg: Segment, c: Cursor, w: Snap)
    requires SnapOk(data, stream, seg, c, w) && w.started && w.last > 0
    ensures Advanced(c, w.last) != Pinned(c)
  {
    hide IavlRun;
  }

  /** Whether the worker goes on after an item: the first must be the store item, the others IAVL items. */
  predicate GoesOn(w: Snap, kind: Kind) {
    if w.first then kind == StoreItem else kind == IavlItem
  }

  /** The worker after it has been given an item of n bytes. */
  function Taken(w: Snap, n: nat, kind: Kind): Snap
    requires n <= |w.buf|
  {
    w.(buf := w.buf[n..], last := n, consumed := w.consumed + n, first := false, done := !GoesOn(w, kind))
  }

  predicate Returned(before: Snap, after: Snap, n: nat, kind: Kind) {
    after.last == n && after.consumed == before.consumed + n && (after.done <==> !GoesOn(before, kind))
  }

  /** The next item leaves the buffer; a boundary item ends the worker's loop. */
  lemma NextOk(data: bytes, stream: bytes, seg: Segment, c: Cursor, w: Snap)
    requires SnapOk(data, stream, seg, c, w) && w.started && !w.done && w.last == 0
    requires SegmentOk(data, seg) && Bounded(data, seg)
    requires |stream| <= |data| && stream == data[..|stream|]
    requires Envelope(w.buf).Some?
    ensures var (n, kind) := Envelope(w.buf).value;
            && (w.consumed < seg.end <==> GoesOn(w, kind))
            && SnapOk(data, stream, seg, c, Taken(w, n, kind))
  {
    hide Envelope, IavlRun;
    var (n, kind) := Envelope(w.buf).value;
    assert w.buf == data[w.consumed..][..|w.buf|] by {
      assert stream[w.consumed..c.pos] == data[w.consumed..c.pos];
    }
    assert w.buf[n..] == stream[w.consumed + n..c.pos];
    EnvelopePrefix(w.buf, data[w.consumed..]);
    RunStep(data, w.consumed, seg.end);
  }

  lemma RunStep(data: bytes, pos: nat, end: nat)
    requires pos <= end <= |data| && Envelope(data[pos..]).Some?
    ensures var (n, kind) := Envelope(data[pos..]).value;
            IavlRun(data, pos, end) && pos < end ==> kind == IavlItem && pos + n <= end && IavlRun(data, pos + n, end)
  {
    hide Envelope;
  }

  // ---------- the order of a run ----------

  /** Where the item at an offset ends. */
  function FirstEnd(data: bytes, pos: nat): nat {
    if pos <= |data| && Envelope(data[pos..]).Some? then pos + Envelope(data[pos..]).value.0 else |data|
  }

  /** The store item of segment k is in the ring as a whole. */
  predicate InRing(data: bytes, segs: seq<Segment>, k: nat, tail: nat) {
    k < |segs| && FirstEnd(data, segs[k].start) <= tail
  }

  /** The items from an offset on, up to the first that starts at end or later, have at most room bytes each. */
  predicate ItemsFit(data: bytes, pos: nat, end: nat, room: nat)
    decreases |data| - pos
  {
    pos >= |data| ||
    match Envelope(data[pos..])
    case None => false
    case Some((n, _)) => n <= room && (pos < end ==> ItemsFit(data, pos + n, end, room))
  }

  /** A worker in an orderly run: its store item is in the ring; its end limit is the segment's end and comes after the
      next store item, and so does its boundary item; what it still has to read fits. */
  predicate WorkerOk(data: bytes, segs: seq<Segment>, extStart: nat, room: nat, k: nat, c: Cursor, w: Snap, tail: nat) {
    && InRing(data, segs, k, tail)
    && (c.endLimit >= 0 ==> c.endLimit == segs[k].end)
    && (c.endLimit >= 0 || w.done ==> k + 1 < |segs| ==> InRing(data, segs, k + 1, tail))
    && (!w.done ==> ItemsFit(data, w.consumed, extStart, room))
  }

  /** Nobody has read anything yet. */
  predicate AllFresh(segs: seq<Segment>, readers: map<nat, Cursor>, active: map<nat, Snap>) {
    forall k :: k in active ==> k < |segs| && active[k].id in readers && readers[active[k].id].pos == segs[k].start
  }

  /** A run in which stage 1 opens stores that it has parsed and workers end at their boundary: the next store to open
      is in the ring once the worker before it has gone, and eviction has followed the pins since the first read. */
  ghost predicate OrderOk(data: bytes, segs: seq<Segment>, extStart: nat, room: nat, begun: nat,
                          readers: map<nat, Cursor>, active: map<nat, Snap>, chunks: seq<Chunk>, tail: nat) {
    && begun <= |segs|
    && (0 < begun < |segs| && begun - 1 !in active ==> InRing(data, segs, begun, tail))
    && (begun < |segs| ==> ItemsFit(data, segs[begun].start, extStart, room))
    && (forall k :: k in active ==> active[k].id in readers)
    && (forall k :: k in active ==>
        WorkerOk(data, segs, extStart, room, k, readers[active[k].id], active[k], tail))
    && (Trim(chunks, readers) || AllFresh(segs, readers, active))
  }

  lemma {:induction false} FitAlong(data: bytes, pos: nat, end: nat, extStart: nat, room: nat)
    requires end <= |data| && IavlRun(data, pos, end) && end <= extStart && ItemsFit(data, pos, extStart, room)
    ensures ItemsFit(data, end, extStart, room)
    decreases end - pos
  {
    hide Envelope;
    if pos < end {
      FitAlong(data, pos + Envelope(data[pos..]).value.0, end, extStart, room);
    }
  }

  lemma FitPastSegment(data: bytes, seg: Segment, extStart: nat, room: nat)
    requires SegmentOk(data, seg) && seg.end <= extStart && ItemsFit(data, seg.start, extStart, room)
    ensures ItemsFit(data, seg.end, extStart, room)
  {
    hide Envelope, IavlRun;
    FitAlong(data, seg.start + Envelope(data[seg.start..]).value.0, seg.end, extStart, room);
  }

  lemma {:induction false} UvarintOfPrefix(p: bytes, s: bytes, i: nat)
    requires |p| <= |s| && p == s[..|p|] && Uvarint(s, i).Some? && Uvarint(s, i).value.1 <= |p|
    ensures Uvarint(p, i) == Uvarint(s, i)
  {
    if s[0] >= 128 {
      assert p[1..] == s[1..][..|p| - 1];
      UvarintOfPrefix(p[1..], s[1..], i + 1);
    }
  }

  /** Enough of a string has its first envelope. */
  lemma EnvelopeInside(p: bytes, s: bytes)
    requires |p| <= |s| && p == s[..|p|] && Envelope(s).Some? && Envelope(s).value.0 <= |p|
    ensures Envelope(p) == Envelope(s)
  {
    UvarintOfPrefix(p, s, 0);
  }

  // ---------- an orderly run, step by step ----------

  lemma OrderGrows(data: bytes, segs: seq<Segment>, extStart: nat, room: nat, begun: nat, readers: map<nat, Cursor>,
                   active: map<nat, Snap>, chunks: seq<Chunk>, tail: nat, chunks': seq<Chunk>, tail': nat)
    requires OrderOk(data, segs, extStart, room, begun, readers, active, chunks, tail) && tail <= tail'
    requires Trim(chunks, readers) ==> Trim(chunks', readers)
    ensures OrderOk(data, segs, extStart, room, begun, readers, active, chunks', tail')
  {
    hide FirstEnd, ItemsFit, Trim;
  }

  lemma OrderOpens(data: bytes, segs: seq<Segment>, extStart: nat, room: nat, begun: nat, readers: map<nat, Cursor>,
                   active: map<nat, Snap>, chunks: seq<Chunk>, tail: nat, id: nat)
    requires OrderOk(data, segs, extStart, room, begun, readers, active, chunks, tail)
    requires Tiled(data, segs, extStart) && InRing(data, segs, begun, tail) && id !in readers
    requires active == map[] <==> readers == map[]
    ensures var start := segs[begun].start;
            OrderOk(data, segs, extStart, room, begun + 1, readers[id := Cursor(start, start, 0, false, -1)],
                    active[begun := Snap(id, [], 0, start, false, true, false)], chunks, tail)
  {
    OpenFits(data, segs, extStart, room, begun);
    var start := segs[begun].start;
    var c, w := Cursor(start, start, 0, false, -1), Snap(id, [], 0, start, false, true, false);
    if readers != map[] {
      OpenTrims(chunks, readers, id, c);
    }
    FreshOpens(segs, readers, active, begun, id, c, w);
    assert WorkerOk(data, segs, extStart, room, begun, c, w, tail);
    hide InRing, ItemsFit, Trim, AllFresh, WorkerOk;
    var rs, ac := readers[id := c], active[begun := w];
    forall k | k in ac ensures ac[k].id in rs && WorkerOk(data, segs, extStart, room, k, rs[ac[k].id], ac[k], tail) {
      if k != begun {
        assert ac[k] == active[k] && rs[ac[k].id] == readers[ac[k].id];
      }
    }
  }

  lemma FreshOpens(segs: seq<Segment>, readers: map<nat, Cursor>, active: map<nat, Snap>, begun: nat, id: nat,
                   c: Cursor,
                   w: Snap)
    requires begun < |segs| && c.pos == segs[begun].start && w.id == id && id !in readers
    ensures active == map[] || AllFresh(segs, readers, active) ==>
      AllFresh(segs, readers[id := c], active[begun := w])
  {}

  lemma OpenFits(data: bytes, segs: seq<Segment>, extStart: nat, room: nat, begun: nat)
    requires Tiled(data, segs, extStart) && begun < |segs| && ItemsFit(data, segs[begun].start, extStart, room)
    ensures begun + 1 < |segs| ==> ItemsFit(data, segs[begun + 1].start, extStart, room)
  {
    assert SegmentOk(data, segs[begun]);
    SegmentsInOrder(data, segs, extStart, begun, |segs|);
    LastStart(segs, extStart);
    hide SegmentOk, Bounded, ItemsFit;
    FitPastSegment(data, segs[begun], extStart, room);
  }

  lemma OpenTrims(chunks: seq<Chunk>, readers: map<nat, Cursor>, id: nat, c: Cursor)
    requires id !in readers && readers != map[]
    ensures Trim(chunks, readers) ==> Trim(chunks, readers[id := c])
  {
    if Trim(chunks, readers) && chunks != [] {
      var x :| x in readers && readers[x].EffectivePin() < chunks[0].End();
      assert readers[id := c][x] == readers[x];
    }
  }

  /** One worker's cursor and state change. */
  lemma OrderMoves(data: bytes, segs: seq<Segment>, extStart: nat, room: nat, begun: nat, readers: map<nat, Cursor>,
                   active: map<nat, Snap>, chunks: seq<Chunk>, tail: nat, chunks': seq<Chunk>, k: nat, c: Cursor,
                   w: Snap)
    requires OrderOk(data, segs, extStart, room, begun, readers, active, chunks, tail) && k in active
    requires w.id == active[k].id && forall m :: m in active && m != k ==> active[m].id != w.id
    requires WorkerOk(data, segs, extStart, room, k, c, w, tail)
    requires Trim(chunks', readers[w.id := c]) || (c.pos == readers[w.id].pos && AllFresh(segs, readers, active))
    ensures OrderOk(data, segs, extStart, room, begun, readers[w.id := c], active[k := w], chunks', tail)
  {
    hide WorkerOk, InRing, ItemsFit, Trim;
  }

  lemma OrderCloses(data: bytes, segs: seq<Segment>, extStart: nat, room: nat, begun: nat, readers: map<nat, Cursor>,
                    active: map<nat, Snap>, chunks: seq<Chunk>, tail: nat, chunks': seq<Chunk>, k: nat)
    requires OrderOk(data, segs, extStart, room, begun, readers, active, chunks, tail) && k in active
    requires forall m :: m in active && m != k ==> active[m].id != active[k].id
    requires active[k].done || readers[active[k].id].endLimit >= 0
    requires Trim(chunks', readers - {active[k].id})
    ensures OrderOk(data, segs, extStart, room, begun, readers - {active[k].id}, active - {k}, chunks', tail)
  {
    hide InRing, ItemsFit, Trim;
  }

  lemma SamePins(chunks: seq<Chunk>, readers: map<nat, Cursor>, id: nat, c: Cursor)
    requires id in readers && c.EffectivePin() == readers[id].EffectivePin()
    ensures Trim(chunks, readers) ==> Trim(chunks, readers[id := c])
  {
    if Trim(chunks, readers) && chunks != [] && readers != map[] {
      var x :| x in readers && readers[x].EffectivePin() < chunks[0].End();
      assert readers[id := c][x].EffectivePin() < chunks[0].End();
    }
  }

  /** The item handed to a worker: what follows still fits, or it was the boundary item, which is in the ring. */
  lemma TakenOk(data: bytes, stream: bytes, segs: seq<Segment>, extStart: nat, room: nat, k: nat, c: Cursor, w: Snap)
    requires Tiled(data, segs, extStart) && k < |segs| && SnapOk(data, stream, segs[k], c, w)
    requires w.started && !w.done && w.last == 0 && Envelope(w.buf).Some?
    requires |stream| <= |data| && stream == data[..|stream|]
    requires WorkerOk(data, segs, extStart, room, k, c, w, |stream|)
    ensures var (n, kind) := Envelope(w.buf).value; WorkerOk(data, segs, extStart, room, k, c, Taken(w, n, kind),
      |stream|)
  {
    TakenFacts(data, stream, segs, extStart, k, c, w);
    hide Envelope, Tiled, GoesOn, SnapOk;
  }

  lemma TakenFacts(data: bytes, stream: bytes, segs: seq<Segment>, extStart: nat, k: nat, c: Cursor, w: Snap)
    requires Tiled(data, segs, extStart) && k < |segs| && SnapOk(data, stream, segs[k], c, w)
    requires w.started && !w.done && w.last == 0 && Envelope(w.buf).Some?
    requires |stream| <= |data| && stream == data[..|stream|]
    ensures w.consumed <= segs[k].end <= extStart && w.consumed < |data|
    ensures w.consumed < segs[k].end <==> GoesOn(w, Envelope(w.buf).value.1)
    ensures k + 1 < |segs| ==> segs[k + 1].start == segs[k].end
    ensures Envelope(data[w.consumed..]) == Envelope(w.buf) && w.consumed + Envelope(w.buf).value.0 <= |stream|
  {
    assert SegmentOk(data, segs[k]) && Bounded(data, segs[k]);
    SegmentsInOrder(data, segs, extStart, k, |segs|);
    LastStart(segs, extStart);
    assert k + 1 < |segs| ==> segs[k + 1].start == segs[k].end;
    hide Tiled;
    NextOk(data, stream, segs[k], c, w);
    BufferOf(data, stream, segs[k], c, w);
    ActiveRange(data, stream, segs[k], c, w);
    hide Envelope, IavlRun, SegmentOk, Bounded, GoesOn, SnapOk;
    assert w.buf == data[w.consumed..][..|w.buf|];
    EnvelopePrefix(w.buf, data[w.consumed..]);
  }

  lemma MovesStart(data: bytes, segs: seq<Segment>, extStart: nat, room: nat, k: nat, c: Cursor, w: Snap, tail: nat)
    ensures WorkerOk(data, segs, extStart, room, k, c, w, tail) ==>
      WorkerOk(data, segs, extStart, room, k, Pinned(c), w.(started := true), tail)
    ensures Pinned(c).pos == c.pos && Pinned(c).EffectivePin() == c.EffectivePin()
  {
    hide InRing, ItemsFit;
  }

  lemma MovesFill(data: bytes, segs: seq<Segment>, extStart: nat, room: nat, k: nat, c: Cursor, w: Snap, tail: nat,
                  got: bytes)
    ensures WorkerOk(data, segs, extStart, room, k, c, w, tail) ==>
      WorkerOk(data, segs, extStart, room, k, c.(pos := c.pos + |got|), w.(buf := w.buf + got), tail)
  {
    hide InRing, ItemsFit;
  }

  lemma MovesCommit(data: bytes, segs: seq<Segment>, extStart: nat, room: nat, k: nat, c: Cursor, w: Snap, tail: nat)
    ensures WorkerOk(data, segs, extStart, room, k, c, w, tail) ==>
      WorkerOk(data, segs, extStart, room, k, Advanced(c, w.last), w.(last := 0), tail)
  {
    hide InRing, ItemsFit;
  }

  lemma MovesEnd(data: bytes, segs: seq<Segment>, extStart: nat, room: nat, k: nat, c: Cursor, w: Snap, tail: nat)
    requires k < |segs| && (k + 1 < |segs| ==> InRing(data, segs, k + 1, tail))
    ensures WorkerOk(data, segs, extStart, room, k, c, w, tail) ==>
      WorkerOk(data, segs, extStart, room, k, c.(endLimit := segs[k].end), w, tail)
  {
    hide InRing, ItemsFit;
  }

  /** The same readers with the same end limits. */
  predicate SameLimits(readers: map<nat, Cursor>, readers': map<nat, Cursor>) {
    readers'.Keys == readers.Keys && forall id :: id in readers ==> readers'[id].endLimit == readers[id].endLimit
  }

  // ---------- the pipeline ----------

  class Pipeline {
    const ring: ChunkRing
    const data: bytes            // the decompressed stream
    const segs: seq<Segment>
    const extStart: nat

    var begun: nat               // stores whose reader is open or has been
    var active: map<nat, Snap>   // the workers' snapReaders by segment

    ghost predicate Valid()
      reads this, ring
    {
      && ring.Valid()
      && Tiled(data, segs, extStart) && begun <= |segs|
      && ring.tail <= |data| && ring.stream == data[..ring.tail]
      && SnapsOk(data, ring.stream, segs, begun, ring.readers, active)
      && ring.head <= NextStart(segs, begun, extStart)
    }

    /** The most that an item may have: with more, a worker's item and the ring's last chunk may not fit together. */
    function Room(): nat
      reads ring
    {
      if ring.chunkSize <= ring.maxBytes then ring.maxBytes - ring.chunkSize else 0
    }

    /** The run so far has been orderly. */
    ghost predicate Orderly()
      reads this, ring
    {
      ring.orderly && OrderOk(data, segs, extStart, Room(), begun, ring.readers, active, ring.chunks, ring.tail)
    }

    constructor (data: bytes, segs: seq<Segment>, extStart: nat, chunkSize: nat, maxBytes: nat)
      requires Tiled(data, segs, extStart) && 0 < chunkSize <= maxBytes
      ensures Valid() && this.data == data && this.segs == segs && this.extStart == extStart && fresh(ring)
      ensures begun == 0 && active == map[] && !ring.closed && ring.maxBytes == maxBytes && ring.chunkSize == chunkSize
      ensures ring.tail == ring.head == 0 && ring.readers == map[]
      ensures ItemsFit(data, NextStart(segs, 0, extStart), extStart, maxBytes - chunkSize) ==> Orderly()
    {
      this.data, this.segs, this.extStart := data, segs, extStart;
      ring := new ChunkRing(chunkSize, maxBytes);
      begun, active := 0, map[];
    }

    /** The ring's offsets and whether it is closed. */
    predicate SameRing(head: nat, tail: nat, closed: bool)
      reads ring
    {
      ring.head == head && ring.tail == tail && ring.closed == closed
    }

    /** Stage 1 tees the next bytes into the ring. */
    method WriteMore(n: nat)
      requires Valid() && 0 < n <= |data| - ring.tail
      modifies ring
      ensures Valid() && begun == old(begun) && active == old(active) && ring.readers == old(ring.readers)
      ensures ring.head == old(ring.head) && ring.closed == old(ring.closed)
      ensures old(ring.tail) <= ring.tail <= old(ring.tail) + n
      ensures ring.tail == old(ring.tail) <==> ring.closed || old(ring.tail) - ring.head >= ring.maxBytes
      ensures old(Orderly()) ==> Orderly()
    {
      ghost var before, chunks, from := ring.stream, ring.chunks, ring.tail;
      var p := data[ring.tail..ring.tail + n];
      hide SnapsOk, Tiled, ChunkRing.Valid, OrderOk, Trim;
      TailIs(ring);
      var taken, ok := ring.WriteSome(p);
      TailIs(ring);
      Teed(data, before, from, n, taken);
      if old(Orderly()) {
        OrderGrows(data, segs, extStart, Room(), begun, ring.readers, active, chunks, from, ring.chunks, ring.tail);
      }
      SnapsGrow(data, before, p[..taken], segs, begun, ring.readers, active);
    }

    /** Segment k has an open reader that stands at its start. */
    ghost predicate AtStart(k: nat)
      reads this, ring
    {
      && k < |segs| && k in active && active[k].id in ring.readers
      && ring.readers[active[k].id].pos == segs[k].start
    }

    /** Stage 1 has parsed a store item: it opens the store's reader at once, and always can. */
    method OpenStore()
      requires Valid() && begun < |segs|
      modifies this, ring
      ensures Valid() && begun == old(begun) + 1 && AtStart(old(begun))
      ensures active == old(active)[old(begun) := Snap(active[old(begun)].id, [], 0, segs[old(begun)].start, false,
        true, false)]
      ensures ring.readers == old(ring.readers)[active[old(begun)].id :=
        Cursor(segs[old(begun)].start, segs[old(begun)].start, 0, false, -1)]
      ensures SameRing(old(ring.head), old(ring.tail), old(ring.closed))
      ensures old(Orderly()) && InRing(data, segs, old(begun), ring.tail) ==> Orderly()
    {
      hide ChunkRing.Valid, SnapsOk, SegmentOk, Bounded, OrderOk;
      ghost var readers := ring.readers;
      NoneOpen(data, ring.stream, segs, begun, readers, active);
      var start := segs[begun].start;
      var id := ring.NewReader(start, -1);
      SnapsOpen(data, ring.stream, segs, extStart, begun, readers, active, id.value);
      SegmentsInOrder(data, segs, extStart, begun, begun + 1);
      SegmentSpan(data, segs, extStart, begun);
      if old(Orderly()) && InRing(data, segs, begun, ring.tail) {
        OrderOpens(data, segs, extStart, Room(), begun, readers, active, ring.chunks, ring.tail, id.value);
        ParsedBehind(data, segs[begun], ring.tail);
      }
      hide Tiled;
      active := active[begun := Snap(id.value, [], 0, start, false, true, false)];
      begun := begun + 1;
    }

    /** The worker of a store has received it: newSnapReader switches the reader to manual pins. */
    method Start(k: nat)
      requires Valid() && k in active && !active[k].started && segs[k].start <= ring.tail
      modifies this, ring
      ensures Valid() && begun == old(begun) && active == old(active)[k := old(active)[k].(started := true)]
      ensures SameRing(old(ring.head), old(ring.tail), old(ring.closed)) && (old(Orderly()) ==> Orderly())
      ensures ring.readers == old(ring.readers[active[k].id := Pinned(CursorOf(k))])
    {
      hide ChunkRing.Valid, Tiled, OrderOk, WorkerOk, Trim, SnapsOk, SnapOk;
      ghost var readers, stream := ring.readers, ring.stream;
      var w := active[k];
      TailIs(ring);
      ActiveAt(data, stream, segs, begun, readers, active, k);
      StartSnaps(data, stream, segs, begun, readers, active, k);
      MovesStart(data, segs, extStart, Room(), k, readers[w.id], w, ring.tail);
      StaysOrderly(data, stream, segs, extStart, Room(), begun, readers, active, ring.chunks, ring.tail, ring.chunks, k,
        Pinned(readers[w.id]), w.(started := true));
      ring.EnableManualPin(w.id);
      active := active[k := w.(started := true)];
    }

    /** The reader of an active store. */
    function CursorOf(k: nat): Cursor
      reads this, ring
      requires k in active && active[k].id in ring.readers
    {
      ring.readers[active[k].id]
    }

    /** The worker's buffered reader pulls up to n bytes, however far past the segment they reach. */
    method Fill(k: nat, n: nat) returns (r: ReadResult)
      requires Valid() && k in active && active[k].started
      modifies this, ring
      ensures Valid() && begun == old(begun)
      ensures r != Evicted
      ensures active == old(active)[k := old(active)[k].(buf := old(active)[k].buf + if r.Served? then r.data else [])]
      ensures r == Blocked <==> old(!AtEnd(CursorOf(k)) && CursorOf(k).pos >= ring.tail && !ring.closed)
      ensures r == Eof ==> old(AtEnd(CursorOf(k)) || (ring.closed && CursorOf(k).pos >= ring.tail))
      ensures old(AtEnd(CursorOf(k))) ==> r == Eof
      ensures if r.Served? then n > 0 ==> r.data != [] else ring.readers == old(ring.readers)
      ensures r.Failed? ==> ring.closed
      ensures active[k].id in ring.readers && CursorOf(k) == old(CursorOf(k)).(pos := CursorOf(k).pos)
      ensures SameLimits(old(ring.readers), ring.readers)
      ensures ring.tail == old(ring.tail) && ring.closed == old(ring.closed) && (old(Orderly()) ==> Orderly())
    {
      hide ChunkRing.Valid, Tiled, SnapsOk, SnapOk, CursorOk, OrderOk, WorkerOk, Trim;
      ghost var readers, stream, got, head := ring.readers, ring.stream, ring.got, ring.head;
      var w := active[k];
      ActiveAt(data, stream, segs, begun, readers, active, k);
      ExactAt(ring, w.id);
      ghost var chunks := ring.chunks;
      r := ring.Read(w.id, n);
      if r.Served? {
        MovesFill(data, segs, extStart, Room(), k, readers[w.id], w, ring.tail, r.data);
        StaysOrderly(data, stream, segs, extStart, Room(), begun, readers, active, chunks, ring.tail, ring.chunks, k,
          ring.readers[w.id], w.(buf := w.buf + r.data));
        ExactAt(ring, w.id);
        Filled(data, stream, segs, begun, readers, active, k, got[w.id], r.data, head, ring.head);
        active := active[k := w.(buf := w.buf + r.data)];
        HeadStays(ring, data, segs, extStart, begun, active, w.id);
      } else {
        assert w.buf + [] == w.buf;
        assert active[k := w] == active;
      }
    }

    /** The buffered reader pulls all that there is for it. */
    method Pull(k: nat) returns (r: ReadResult)
      requires Valid() && k in active && active[k].started && !ring.closed
      modifies this, ring
      ensures Valid() && begun == old(begun) && ring.tail == old(ring.tail) && !ring.closed
      ensures active.Keys == old(active).Keys && (forall m :: m in active && m != k ==> active[m] == old(active)[m])
      ensures k in active && active[k] == old(active)[k].(buf := active[k].buf) && active[k].id in ring.readers
      ensures CursorOf(k) == old(CursorOf(k)).(pos := CursorOf(k).pos) && SameLimits(old(ring.readers), ring.readers)
      ensures r == Blocked || r == Eof
      ensures r == Blocked ==> CursorOf(k).pos == ring.tail
      ensures r == Eof ==> AtEnd(CursorOf(k))
      ensures old(Orderly()) ==> Orderly()
    {
      hide Valid, OrderOk;
      ReaderOf(k);
      while true
        invariant Valid() && begun == old(begun) && ring.tail == old(ring.tail) && !ring.closed
        invariant active.Keys == old(active).Keys && (forall m :: m in active && m != k ==> active[m] == old(active)[m])
        invariant k in active && active[k] == old(active)[k].(buf := active[k].buf) && active[k].id in ring.readers
        invariant CursorOf(k) == old(CursorOf(k)).(pos := CursorOf(k).pos)
          && SameLimits(old(ring.readers), ring.readers)
        invariant CursorOf(k).pos == active[k].consumed + |active[k].buf| <= ring.tail
        invariant old(Orderly()) ==> Orderly()
        decreases ring.tail - CursorOf(k).pos
      {
        r := Fill(k, 1048576);
        ReaderOf(k);
        if !r.Served? {
          return;
        }
      }
    }

    lemma ReaderOf(k: nat)
      requires Valid() && k in active
      ensures active[k].id in ring.readers
      ensures active[k].started ==> CursorOf(k).pos == active[k].consumed + |active[k].buf| <= ring.tail
    {
      ActiveAt(data, ring.stream, segs, begun, ring.readers, active, k);
      hide SnapsOk, IavlRun, Envelope;
    }

    /** What a worker holds is the stream from what it has consumed on. */
    lemma BufferIs(k: nat)
      requires Valid() && k in active && active[k].started
      ensures active[k].id in ring.readers
      ensures CursorOf(k).pos == active[k].consumed + |active[k].buf| <= ring.tail <= |data|
      ensures active[k].buf == data[active[k].consumed..CursorOf(k).pos]
    {
      ActiveAt(data, ring.stream, segs, begun, ring.readers, active, k);
      TailIs(ring);
      BufferOf(data, ring.stream, segs[k], CursorOf(k), active[k]);
    }

    /** snapReader.Next, up to the bytes at hand: commits the item returned before, and returns the next one when
        the buffer holds all of it. After a boundary item the worker's loop ends. */
    method Next(k: nat) returns (item: Option<(nat, Kind)>)
      requires Valid() && k in active && active[k].started && !active[k].done
      modifies this, ring
      ensures Valid() && begun == old(begun)
      ensures k in active && active[k].started
      ensures item.Some? ==> Returned(old(active[k]), active[k], item.value.0, item.value.1)
      ensures item.Some? && k < |segs| ==> (active[k].done <==> old(active[k]).consumed == segs[k].end)
      ensures item == Envelope(old(active)[k].buf) && SameLimits(old(ring.readers), ring.readers)
      ensures active == old(active)[k := if item.None? then old(active)[k].(last := 0)
                                         else Taken(old(active)[k].(last := 0), item.value.0, item.value.1)]
      ensures ring.tail == old(ring.tail) && ring.closed == old(ring.closed) && (old(Orderly()) ==> Orderly())
    {
      hide Valid;
      Commit(k);
      item := Envelope(active[k].buf);
      if item.Some? {
        Decode(k, item.value.0, item.value.1);
      }
    }

    /** The item at the front of the buffer is handed to the worker. */
    method Decode(k: nat, n: nat, kind: Kind)
      requires Valid() && k in active && active[k].started && !active[k].done && active[k].last == 0
      requires Envelope(active[k].buf) == Some((n, kind))
      modifies this
      ensures Valid() && begun == old(begun)
      ensures active == old(active)[k := Taken(old(active)[k], n, kind)]
      ensures k < |segs| && (active[k].done <==> old(active)[k].consumed == segs[k].end)
      ensures old(Orderly()) ==> Orderly()
    {
      hide ChunkRing.Valid, SnapsOk, SnapOk, Bounded, SegmentOk, GoesOn, OrderOk, WorkerOk, Trim;
      ghost var readers, stream := ring.readers, ring.stream;
      var w := active[k];
      ActiveAt(data, stream, segs, begun, readers, active, k);
      ActiveRange(data, stream, segs[k], readers[w.id], w);
      NextOk(data, stream, segs[k], readers[w.id], w);
      SnapsUpdate(data, stream, segs, begun, readers, active, k, readers[w.id], Taken(w, n, kind));
      assert readers[w.id := readers[w.id]] == readers;
      if WorkerOk(data, segs, extStart, Room(), k, readers[w.id], w, ring.tail) {
        TailIs(ring);
        TakenOk(data, stream, segs, extStart, Room(), k, readers[w.id], w);
      }
      StaysOrderly(data, stream, segs, extStart, Room(), begun, readers, active, ring.chunks, ring.tail, ring.chunks, k,
        readers[w.id], Taken(w, n, kind));
      hide Tiled;
      active := active[k := Taken(w, n, kind)];
    }

    method Commit(k: nat)
      requires Valid() && k in active && active[k].started && !active[k].done
      modifies this, ring
      ensures Valid() && begun == old(begun) && active == old(active)[k := old(active)[k].(last := 0)]
      ensures ring.tail == old(ring.tail) && ring.closed == old(ring.closed) && (old(Orderly()) ==> Orderly())
      ensures SameLimits(old(ring.readers), ring.readers)
    {
      hide ChunkRing.Valid, Tiled, SnapsOk, SnapOk, OrderOk, WorkerOk, Trim;
      ghost var readers, stream := ring.readers, ring.stream;
      var w := active[k];
      if w.last > 0 {
        ActiveAt(data, stream, segs, begun, readers, active, k);
        CommitOk(data, stream, segs[k], readers[w.id], w);
        SnapsUpdate(data, stream, segs, begun, readers, active, k, Advanced(readers[w.id], w.last), w.(last := 0));
        ghost var chunks := ring.chunks;
        CommitMoves(data, stream, segs[k], readers[w.id], w);
        ring.AdvancePin(w.id, w.last);
        MovesCommit(data, segs, extStart, Room(), k, readers[w.id], w, ring.tail);
        StaysOrderly(data, stream, segs, extStart, Room(), begun, readers, active, chunks, ring.tail, ring.chunks, k,
          Advanced(readers[w.id], w.last), w.(last := 0));
        active := active[k := w.(last := 0)];
        HeadStays(ring, data, segs, extStart, begun, active, w.id);
      } else {
        assert active[k := w.(last := 0)] == active;
      }
    }

    /** The end of a segment becomes known, however late. */
    method SetEnd(k: nat)
      requires Valid() && k in active
      modifies ring
      ensures Valid() && begun == old(begun) && active == old(active)
      ensures active[k].id in ring.readers && k < |segs| && CursorOf(k) == old(CursorOf(k)).(endLimit := segs[k].end)
      ensures SameRing(old(ring.head), old(ring.tail), old(ring.closed))
      ensures old(Orderly()) && (k + 1 < |segs| ==> InRing(data, segs, k + 1, ring.tail)) ==> Orderly()
    {
      hide ChunkRing.Valid, Tiled, SnapsOk, SnapOk, OrderOk, WorkerOk, Trim, InRing;
      ghost var readers, stream := ring.readers, ring.stream;
      var w := active[k];
      ActiveAt(data, stream, segs, begun, readers, active, k);
      var c := readers[w.id].(endLimit := segs[k].end);
      EndOk(data, stream, segs[k], readers[w.id], c, w);
      SnapsUpdate(data, stream, segs, begun, readers, active, k, c, w);
      assert active[k := w] == active;
      if k + 1 < |segs| ==> InRing(data, segs, k + 1, ring.tail) {
        MovesEnd(data, segs, extStart, Room(), k, readers[w.id], w, ring.tail);
        StaysOrderly(data, stream, segs, extStart, Room(), begun, readers, active, ring.chunks, ring.tail, ring.chunks,
          k,
          c, w);
      }
      ring.SetEnd(w.id, segs[k].end);
    }

    /** The worker of segment k is at the end of its loop: it has been given the boundary item, or its reader is at its
        end limit with nothing left in the buffer. */
    predicate Ended(k: nat)
      reads this, ring
    {
      && k in active && active[k].id in ring.readers
      && (active[k].done || (active[k].started && active[k].buf == [] && AtEnd(CursorOf(k))))
    }

    /** The worker closes its reader, when it has finished its store or on an error. */
    method Finish(k: nat)
      requires Valid() && k in active
      modifies this, ring
      ensures Valid() && begun == old(begun) && active == old(active) - {k}
      ensures ring.closed == old(ring.closed) && ring.tail == old(ring.tail)
      ensures active == map[] ==> ring.head == old(ring.head)
      ensures old(Orderly() && Ended(k)) ==> Orderly()
    {
      hide ChunkRing.Valid, Tiled, SnapsOk, SnapOk, OrderOk, WorkerOk, Trim;
      ghost var readers, stream := ring.readers, ring.stream;
      var w := active[k];
      SnapsClose(data, stream, segs, begun, readers, active, k);
      ghost var chunks, before := ring.chunks, active;
      ring.CloseReader(w.id);
      if old(Orderly() && Ended(k)) {
        DistinctIds(data, stream, segs, begun, readers, active, k);
        OrderCloses(data, segs, extStart, Room(), begun, readers, active, chunks, ring.tail, ring.chunks, k);
      }
      active := active - {k};
      NoneOpen(data, stream, segs, begun, ring.readers, active);
      if ring.readers != map[] {
        ghost var id :| id in ring.readers;
        HeadStays(ring, data, segs, extStart, begun, active, id);
      }
    }

    /** One call of the ring's Write, up to an offset of the stream, while no worker moves: it comes to its end exactly
        when what lies past head fits the ring, and otherwise blocks with the ring full. */
    method WriteUpTo(goal: nat) returns (all: bool)
      requires Valid() && ring.tail <= goal <= |data| && !ring.closed
      modifies ring
      ensures Valid() && begun == old(begun) && active == old(active) && ring.readers == old(ring.readers)
      ensures ring.head == old(ring.head) && !ring.closed && (old(Orderly()) ==> Orderly())
      ensures all <==> ring.tail == goal
      ensures all <==> old(ring.tail) == goal || goal - ring.head <= ring.maxBytes
      ensures !all ==> ring.tail < goal && ring.tail - ring.head == ring.maxBytes
    {
      hide Valid, OrderOk;
      InBounds();
      while ring.tail < goal
        invariant Valid() && begun == old(begun) && active == old(active) && ring.readers == old(ring.readers)
        invariant ring.head == old(ring.head) && !ring.closed && (old(Orderly()) ==> Orderly())
        invariant old(ring.tail) <= ring.tail <= goal && ring.tail - ring.head <= ring.maxBytes
        decreases goal - ring.tail
      {
        var from := ring.tail;
        WriteMore(goal - ring.tail);
        InBounds();
        if ring.tail == from {
          return false;
        }
      }
      all := true;
    }

    /** The head is not past the end of an active store. */
    lemma HeadBelow(k: nat)
      requires Valid() && k in active
      ensures k < |segs| && ring.head <= segs[k].end
    {
      ActiveAt(data, ring.stream, segs, begun, ring.readers, active, k);
      ExactAt(ring, active[k].id);
    }

    lemma InBounds()
      requires Valid()
      ensures ring.tail - ring.head <= ring.maxBytes && ring.tail <= |data|
    {
      RingBounds(ring);
    }

    /** Stage 1 writes what is left of the stream when every store has been opened and closed. Only stage 1 can act
        then: no reader is open, so nothing is evicted, and stage 3 waits for stage 1. It gets to the end of the stream
        exactly when the rest fits the ring; otherwise it is blocked for good, and so it is for every extension tail
        that is longer than maxBytes. */
    method WriteRest() returns (all: bool)
      requires Valid() && begun == |segs| && active == map[] && !ring.closed
      modifies ring
      ensures Valid() && ring.head == old(ring.head) <= extStart && ring.readers == map[]
      ensures all <==> |data| - ring.head <= ring.maxBytes
      ensures all ==> ring.tail == |data|
      ensures !all ==> ring.tail < |data| && ring.tail - ring.head == ring.maxBytes
      ensures |data| - extStart > ring.maxBytes ==> !all
      ensures begun == old(begun) && active == old(active) && (old(Orderly()) ==> Orderly())
    {
      hide SnapsOk, Tiled, ChunkRing.Valid;
      NoneOpen(data, ring.stream, segs, begun, ring.readers, active);
      LastStart(segs, extStart);
      InBounds();
      all := WriteUpTo(|data|);
    }

    /** Where the end limit stops a worker that has no whole item at hand, all items of its store have been taken. The
        loop ends cleanly exactly when nothing past the segment has been pulled; otherwise the buffer holds a part of
        the boundary item, and the read fails with an unexpected end. */
    lemma AtTheEnd(k: nat)
      requires Valid() && Orderly() && k in active && active[k].started && !active[k].done && active[k].last == 0
      requires Envelope(active[k].buf).None? && active[k].id in ring.readers && AtEnd(CursorOf(k))
      ensures k < |segs| && active[k].consumed == segs[k].end
      ensures active[k].buf == [] <==> CursorOf(k).pos == segs[k].end
    {
      ActiveAt(data, ring.stream, segs, begun, ring.readers, active, k);
      assert WorkerOk(data, segs, extStart, Room(), k, CursorOf(k), active[k], ring.tail);
      assert SegmentOk(data, segs[k]);
      AllTaken(data, ring.stream, segs[k], CursorOf(k), active[k]);
    }

    /** The worker of an active store can take a step: start, commit the item before, take the next item off its buffer,
        read from the ring without blocking, or end. */
    predicate WorkerCan(k: nat)
      reads this, ring
    {
      && k in active && active[k].id in ring.readers
      && var w := active[k];
         || !w.started || w.done || w.last > 0 || Envelope(w.buf).Some?
         || AtEnd(CursorOf(k)) || CursorOf(k).pos < ring.tail || ring.closed
    }

    /** In an orderly run whose items fit, while a store is active: the worker of the first active store can step, or
        stage 1 can write, or it has written everything and closes the ring. */
    lemma SomeStep(k: nat)
      requires Valid() && Orderly() && k in active && forall m :: m in active ==> k <= m
      ensures WorkerCan(k) || (ring.tail < |data| && ring.tail - ring.head < ring.maxBytes)
        || (ring.tail == |data| && !ring.closed)
    {
      var w, room := active[k], Room();
      ReaderOf(k);
      ActiveAt(data, ring.stream, segs, begun, ring.readers, active, k);
      assert WorkerOk(data, segs, extStart, room, k, CursorOf(k), w, ring.tail);
      if !WorkerCan(k) && ring.tail < |data| && ring.tail - ring.head >= ring.maxBytes {
        FirstPinIsLeast(data, ring.stream, segs, extStart, begun, ring.readers, active, k);
        NotFresh(data, segs, extStart, room, k, ring.readers, active, ring.tail);
        BlockedWriterLeavesRoom(ring, w.consumed);
        HeldItem(data, ring.stream, segs, extStart, room, k, CursorOf(k), w);
      }
    }

    /** Stage 3: when every store has been opened and closed, the extension tail is still in the ring. */
    method OpenExtensions(extEnd: nat) returns (id: Option<nat>)
      requires Valid() && begun == |segs| && active == map[]
      modifies ring
      ensures id.Some? && id.value in ring.readers && ring.readers[id.value].pos == extStart
    {
      hide ChunkRing.Valid, Tiled, SnapsOk;
      id := ring.NewReader(extStart, extEnd);
    }
  }

  /** One worker's move keeps a run orderly. */
  lemma StaysOrderly(data: bytes, stream: bytes, segs: seq<Segment>, extStart: nat, room: nat, begun: nat,
                     readers: map<nat, Cursor>, active: map<nat, Snap>, chunks: seq<Chunk>, tail: nat,
                     chunks': seq<Chunk>, k: nat, c: Cursor, w: Snap)
    requires SnapsOk(data, stream, segs, begun, readers, active) && k in active && w.id == active[k].id
    requires WorkerOk(data, segs, extStart, room, k, readers[w.id], active[k], tail) ==>
      WorkerOk(data, segs, extStart, room, k, c, w, tail)
    requires Trim(chunks', readers[w.id := c])
      || (chunks' == chunks && c.pos == readers[w.id].pos && c.EffectivePin() == readers[w.id].EffectivePin())
    ensures OrderOk(data, segs, extStart, room, begun, readers, active, chunks, tail) ==>
      OrderOk(data, segs, extStart, room, begun, readers[w.id := c], active[k := w], chunks', tail)
  {
    hide SnapOk, WorkerOk, AllFresh, Trim;
    if OrderOk(data, segs, extStart, room, begun, readers, active, chunks, tail) {
      if !Trim(chunks', readers[w.id := c]) {
        SamePins(chunks, readers, w.id, c);
      }
      OrderMoves(data, segs, extStart, room, begun, readers, active, chunks, tail, chunks', k, c, w);
    }
  }

  /** The pin of the first active store is the slowest. */
  lemma FirstPinIsLeast(data: bytes, stream: bytes, segs: seq<Segment>, extStart: nat, begun: nat,
                        readers: map<nat, Cursor>, active: map<nat, Snap>, k: nat)
    requires SnapsOk(data, stream, segs, begun, readers, active) && Tiled(data, segs, extStart)
    requires k in active && forall m :: m in active ==> k <= m
    requires active[k].started && !active[k].done && active[k].last == 0
    ensures IsMinPin(readers, active[k].consumed)
  {
    var w := active[k];
    assert readers[w.id].EffectivePin() == w.consumed <= segs[k].end;
    forall id | id in readers ensures w.consumed <= readers[id].EffectivePin() {
      var m :| m in active && active[m].id == id;
      if k < m {
        SegmentsInOrder(data, segs, extStart, k, m);
      }
    }
  }

  lemma AllTaken(data: bytes, stream: bytes, seg: Segment, c: Cursor, w: Snap)
    requires SegmentOk(data, seg) && SnapOk(data, stream, seg, c, w) && w.started && !w.done
    requires |stream| <= |data| && stream == data[..|stream|] && Envelope(w.buf).None? && c.pos >= seg.end
    ensures w.consumed == seg.end
  {
    hide Envelope;
    if w.consumed < seg.end {
      assert w.buf == data[w.consumed..][..|w.buf|] by {
        assert stream[w.consumed..c.pos] == data[w.consumed..c.pos];
      }
      EnvelopeInside(w.buf, data[w.consumed..]);
    }
  }

  lemma NotFresh(data: bytes, segs: seq<Segment>, extStart: nat, room: nat, k: nat, readers: map<nat, Cursor>,
                 active: map<nat, Snap>, tail: nat)
    requires Tiled(data, segs, extStart) && k in active && active[k].id in readers
    requires WorkerOk(data, segs, extStart, room, k, readers[active[k].id], active[k], tail)
    requires readers[active[k].id].pos >= tail
    ensures !AllFresh(segs, readers, active)
  {
    ParsedBehind(data, segs[k], tail);
  }

  /** A worker whose buffer has more than room bytes has its next item. */
  lemma HeldItem(data: bytes, stream: bytes, segs: seq<Segment>, extStart: nat, room: nat, k: nat, c: Cursor, w: Snap)
    requires k < |segs| && SnapOk(data, stream, segs[k], c, w) && w.started && !w.done
    requires |stream| <= |data| && stream == data[..|stream|]
    requires WorkerOk(data, segs, extStart, room, k, c, w, |stream|) && |w.buf| > room
    ensures Envelope(w.buf).Some?
  {
    hide Envelope, IavlRun, InRing;
    assert w.buf == data[w.consumed..][..|w.buf|] by {
      assert stream[w.consumed..c.pos] == data[w.consumed..c.pos];
    }
    EnvelopeInside(w.buf, data[w.consumed..]);
  }

  lemma StartSnaps(data: bytes, stream: bytes, segs: seq<Segment>, begun: nat, readers: map<nat, Cursor>,
                   active: map<nat, Snap>, k: nat)
    requires SnapsOk(data, stream, segs, begun, readers, active) && k in active && !active[k].started
    requires k < |segs| && segs[k].start <= |stream|
    ensures active[k].id in readers
    ensures var w := active[k];
            SnapsOk(data, stream, segs, begun, readers[w.id := Pinned(readers[w.id])], active[k := w.(started := true)])
  {
    hide IavlRun;
    ActiveAt(data, stream, segs, begun, readers, active, k);
    var w := active[k];
    assert readers[w.id].pos == segs[k].start;
    StartOk(data, stream, segs[k], readers[w.id], w);
    hide SnapsOk, SnapOk;
    SnapsUpdate(data, stream, segs, begun, readers, active, k, Pinned(readers[w.id]), w.(started := true));
  }

  lemma BufferOf(data: bytes, stream: bytes, seg: Segment, c: Cursor, w: Snap)
    requires SnapOk(data, stream, seg, c, w) && w.started && |stream| <= |data| && stream == data[..|stream|]
    ensures c.pos == w.consumed + |w.buf| <= |stream| && w.buf == data[w.consumed..c.pos]
  {
    hide IavlRun;
    assert stream[w.consumed..c.pos] == data[w.consumed..c.pos];
  }

  lemma Teed(data: bytes, before: bytes, from: nat, n: nat, taken: nat)
    requires |before| == from && from + n <= |data| && before == data[..from] && taken <= n
    ensures before + data[from..from + n][..taken] == data[..from + taken]
  {}

  lemma DistinctIds(data: bytes, stream: bytes, segs: seq<Segment>, begun: nat, readers: map<nat, Cursor>,
                    active: map<nat, Snap>, k: nat)
    requires SnapsOk(data, stream, segs, begun, readers, active) && k in active
    ensures forall m :: m in active && m != k ==> active[m].id != active[k].id
  {
    hide SnapOk;
  }

  lemma NoneOpen(data: bytes, stream: bytes, segs: seq<Segment>, begun: nat, readers: map<nat, Cursor>,
                 active: map<nat, Snap>)
    requires SnapsOk(data, stream, segs, begun, readers, active)
    ensures active == map[] <==> readers == map[]
  {
    hide SnapOk;
    assert forall k :: k in active ==> active[k].id in readers;
  }

  /** A parsed store starts behind the tail. */
  lemma ParsedBehind(data: bytes, seg: Segment, tail: nat)
    requires SegmentOk(data, seg) && FirstEnd(data, seg.start) <= tail
    ensures seg.start < tail
  {}

  lemma LastStart(segs: seq<Segment>, extStart: nat)
    ensures NextStart(segs, |segs|, extStart) == extStart
  {}

  lemma RingBounds(ring: ChunkRing)
    requires ring.Valid()
    ensures ring.tail - ring.head <= ring.maxBytes && ring.tail == |ring.stream|
  {}

  // ---------- three runs ----------

  /** The worker of a store that is one item of two bytes, with a boundary item of two bytes in the ring, goes through
      its loop: it pulls what there is and takes both items. */
  method RunWorker(p: Pipeline, k: nat, ghost from: nat)
    requires p.Valid() && !p.ring.closed && k in p.active && k < |p.segs| && p.active[k].id in p.ring.readers
    requires p.active[k] == Snap(p.active[k].id, [], 0, from, false, true, false) && p.CursorOf(k).endLimit < 0
    requires p.segs[k] == Segment(from, from + 2) && TwoItems(p.data, from) && from + 4 <= p.ring.tail <= |p.data|
    modifies p, p.ring
    ensures p.Valid() && !p.ring.closed && p.begun == old(p.begun) && p.ring.tail == old(p.ring.tail)
    ensures p.active.Keys == old(p.active).Keys
    ensures forall m :: m in p.active && m != k ==> p.active[m] == old(p.active)[m]
    ensures k in p.active && p.active[k].done && (old(p.Orderly()) ==> p.Orderly())
    ensures SameLimits(old(p.ring.readers), p.ring.readers)
  {
    hide Pipeline.Valid, Pipeline.Orderly, TwoItems, Envelope, GoesOn;
    p.Start(k);
    p.ReaderOf(k);
    var r := p.Pull(k);
    p.BufferIs(k);
    TakeTwo(p, k, from);
  }

  method TakeTwo(p: Pipeline, k: nat, ghost from: nat)
    requires p.Valid() && !p.ring.closed && k in p.active && k < |p.segs| && p.segs[k] == Segment(from, from + 2)
    requires p.active[k] == Snap(p.active[k].id, p.active[k].buf, 0, from, true, true, false) && TwoItems(p.data, from)
    requires 4 <= |p.active[k].buf| <= |p.data| - from
    requires p.active[k].buf == p.data[from..from + |p.active[k].buf|]
    modifies p, p.ring
    ensures p.Valid() && !p.ring.closed && p.begun == old(p.begun) && p.ring.tail == old(p.ring.tail)
    ensures p.active.Keys == old(p.active).Keys
    ensures forall m :: m in p.active && m != k ==> p.active[m] == old(p.active)[m]
    ensures k in p.active && p.active[k].done && (old(p.Orderly()) ==> p.Orderly())
    ensures SameLimits(old(p.ring.readers), p.ring.readers)
  {
    hide Pipeline.Valid, Pipeline.Orderly, TwoItems, Envelope, GoesOn;
    FrontItems(p.data, from, p.active[k].buf);
    var item := p.Next(k);
    var boundary := p.Next(k);
  }

  predicate TwoItems(data: bytes, from: nat) {
    && from + 4 <= |data| && data[from] == data[from + 2] == 1 && data[from + 1] == 10
  }

  lemma FrontItems(data: bytes, from: nat, buf: bytes)
    requires TwoItems(data, from) && 4 <= |buf| <= |data| - from && buf == data[from..from + |buf|]
    ensures Envelope(buf) == Some((2, StoreItem)) && Envelope(buf[2..]).Some? && Envelope(buf[2..]).value.0 == 2
  {
    assert buf[0] == 1 && buf[1] == 10 && buf[2..][0] == 1;
    assert Uvarint(buf) == Some((1, 1)) && Uvarint(buf[2..]) == Some((1, 1));
  }

  const LONG_TAIL: bytes := [1, 10, 1, 26, 2, 26, 0]

  lemma LongTailTiled()
    ensures Tiled(LONG_TAIL, [Segment(0, 2)], 2) && TwoItems(LONG_TAIL, 0) && ItemsFit(LONG_TAIL, 0, 2, 3)
  {
    var data := LONG_TAIL;
    assert Uvarint(data[0..]) == Some((1, 1)) && Uvarint(data[2..]) == Some((1, 1));
    assert Envelope(data[0..]) == Some((2, StoreItem)) && Envelope(data[2..]) == Some((2, ExtItem));
    hide Envelope;
    assert IavlRun(data, 2, 2) && ItemsFit(data, 2, 2, 3);
  }

  /** A store of two bytes and an extension tail of five on a ring of four: the store's worker takes the store item and
      the extension item behind it and ends, and stage 1 cannot write the tail. */
  method LongTailBlocks() returns (p: Pipeline, all: bool)
    ensures fresh(p) && p.Valid() && p.Orderly() && p.begun == |p.segs| && p.active == map[]
    ensures !all && p.ring.tail < |p.data| && p.ring.tail - p.ring.head == p.ring.maxBytes
  {
    hide Pipeline.Valid, Pipeline.Orderly, Tiled, TwoItems;
    LongTailTiled();
    p := new Pipeline(LONG_TAIL, [Segment(0, 2)], 2, 1, 4);
    var begins := p.WriteUpTo(4);
    OpenAtFirst(p.data, p.segs, 0, p.ring.tail);
    p.OpenStore();
    p.ReaderOf(0);
    RunWorker(p, 0, 0);
    p.ReaderOf(0);
    p.Finish(0);
    all := p.WriteRest();
  }

  const THREE_STORES: bytes := [1, 10, 1, 10, 1, 10, 3, 18, 0, 0]
  const THREE_SEGMENTS := [Segment(0, 2), Segment(2, 4), Segment(4, 10)]

  /** An envelope with a one-byte length. */
  lemma SmallItem(data: bytes, pos: nat)
    requires pos < |data| && 0 < data[pos] < 128 && pos + 1 + data[pos] <= |data|
    ensures Envelope(data[pos..]).Some? && Envelope(data[pos..]).value.0 == 1 + data[pos]
    ensures data[pos + 1] / 8 == 1 ==> Envelope(data[pos..]).value.1 == StoreItem
    ensures data[pos + 1] / 8 == 2 ==> Envelope(data[pos..]).value.1 == IavlItem
    ensures data[pos + 1] / 8 == 3 ==> Envelope(data[pos..]).value.1 == ExtItem
  {
    var s := data[pos..];
    assert s[0] == data[pos] && s[1] == data[pos + 1] && Uvarint(s) == Some((data[pos] as nat, 1));
  }

  lemma ThreeStoresTiled()
    ensures Tiled(THREE_STORES, THREE_SEGMENTS, 10) && ItemsFit(THREE_STORES, 0, 10, 5)
    ensures TwoItems(THREE_STORES, 0) && TwoItems(THREE_STORES, 2)
  {
    var data := THREE_STORES;
    hide Envelope;
    SmallItem(data, 0);
    SmallItem(data, 2);
    SmallItem(data, 4);
    SmallItem(data, 6);
    assert Envelope(data[10..]).None? by {
      NoEnvelope(data[10..]);
    }
    assert IavlRun(data, 2, 2) && IavlRun(data, 4, 4) && IavlRun(data, 10, 10);
    assert ItemsFit(data, 10, 10, 5);
    assert ItemsFit(data, 6, 10, 5);
    assert ItemsFit(data, 4, 10, 5);
    assert ItemsFit(data, 2, 10, 5);
    hide ItemsFit;
    assert IavlRun(data, 6, 10);
  }

  lemma NoEnvelope(s: bytes)
    requires s == []
    ensures Envelope(s).None?
  {}

  /** The first n stores are open and nobody has acted on them. */
  ghost predicate JustOpened(p: Pipeline, n: nat)
    reads p, p.ring
  {
    && p.Valid() && p.Orderly() && p.begun == n <= |p.segs| && !p.ring.closed
    && (forall k: nat :: k in p.active <==> k < n)
    && (forall k :: k in p.active ==>
        p.active[k] == Snap(p.active[k].id, [], 0, p.segs[k].start, false, true, false))
    && (forall id :: id in p.ring.readers ==> p.ring.readers[id].endLimit < 0)
  }

  method OpenNext(p: Pipeline, n: nat)
    requires JustOpened(p, n) && n < |p.segs| && InRing(p.data, p.segs, n, p.ring.tail)
    modifies p, p.ring
    ensures JustOpened(p, n + 1) && p.ring.tail == old(p.ring.tail) && p.ring.head == old(p.ring.head)
  {
    hide Pipeline.Valid, Pipeline.Orderly, InRing;
    p.OpenStore();
  }

  lemma TwoInRing()
    ensures InRing(THREE_STORES, THREE_SEGMENTS, 0, 4) && InRing(THREE_STORES, THREE_SEGMENTS, 1, 4)
  {
    ThreeStoresTiled();
    hide TwoItems, Tiled, ItemsFit;
    OpenAtFirst(THREE_STORES, THREE_SEGMENTS, 0, 4);
    OpenAtFirst(THREE_STORES, THREE_SEGMENTS, 1, 4);
  }

  method ThreeStores() returns (p: Pipeline)
    ensures fresh(p) && fresh(p.ring) && p.data == THREE_STORES && p.segs == THREE_SEGMENTS
    ensures JustOpened(p, 0) && p.ring.tail == p.ring.head == 0 && p.ring.maxBytes == 6
  {
    hide Pipeline.Valid, Pipeline.Orderly, Tiled, TwoItems;
    ThreeStoresTiled();
    p := new Pipeline(THREE_STORES, THREE_SEGMENTS, 10, 1, 6);
  }

  /** Three stores of which two are open, and a Write of the rest of the stream that blocks. */
  method TwoOpen() returns (p: Pipeline)
    ensures fresh(p) && fresh(p.ring) && p.data == THREE_STORES && p.segs == THREE_SEGMENTS
    ensures JustOpened(p, 2) && p.ring.tail == p.ring.maxBytes == 6
  {
    hide JustOpened, InRing;
    p := ThreeStores();
    TwoInRing();
    WriteOn(p, 4, 0);
    OpenNext(p, 0);
    OpenNext(p, 1);
    WriteOn(p, 10, 2);
  }

  method WriteOn(p: Pipeline, goal: nat, ghost n: nat)
    requires JustOpened(p, n) && p.ring.tail < goal <= |p.data|
    modifies p.ring
    ensures JustOpened(p, n) && p.ring.head == old(p.ring.head)
    ensures p.ring.tail == if goal - p.ring.head <= p.ring.maxBytes then goal else p.ring.head + p.ring.maxBytes
  {
    hide Pipeline.Valid, Pipeline.Orderly;
    var all := p.WriteUpTo(goal);
  }

  /** Three stores on a ring of six, every item of which fits. Stage 1 has opened two, and its next Write, of the rest
      of the stream, blocks. The second store's worker ends before the first one's. Then no reader is open, the ring
      is kept from the first store's end on, the Write cannot end, and the third store is never opened. */
  method NextStoreBlocks() returns (p: Pipeline, all: bool)
    ensures fresh(p) && p.Valid() && p.Orderly() && p.begun < |p.segs| && p.active == map[]
    ensures !all && p.ring.tail < |p.data| && p.ring.tail - p.ring.head == p.ring.maxBytes
  {
    hide Pipeline.Valid, Pipeline.Orderly, Tiled, TwoItems, InRing;
    ThreeStoresTiled();
    p := TwoOpen();
    p.ReaderOf(0);
    p.ReaderOf(1);
    RunWorker(p, 0, 0);
    p.ReaderOf(1);
    RunWorker(p, 1, 2);
    p.ReaderOf(0);
    p.ReaderOf(1);
    p.Finish(1);
    p.ReaderOf(0);
    p.HeadBelow(0);
    p.Finish(0);
    p.InBounds();
    all := p.WriteUpTo(10);
  }

  const CUT_TAIL: bytes := [1, 10, 3, 26, 0, 0]

  lemma CutTailTiled()
    ensures Tiled(CUT_TAIL, [Segment(0, 2)], 2) && ItemsFit(CUT_TAIL, 0, 2, 5)
      && InRing(CUT_TAIL, [Segment(0, 2)], 0, 4)
    ensures Envelope([1, 10, 3, 26]) == Some((2, StoreItem)) && Envelope([3, 26]).None?
  {
    var data := CUT_TAIL;
    assert [3, 26][0] == 3 && Uvarint([3, 26]) == Some((3, 1));
    SmallItem([1, 10, 3, 26], 0);
    assert [1, 10, 3, 26][0..] == [1, 10, 3, 26];
    hide Envelope;
    SmallItem(data, 0);
    SmallItem(data, 2);
    assert IavlRun(data, 2, 2) && ItemsFit(data, 2, 2, 5);
  }

  /** The store has been opened, and stage 1 has parsed the header of the extension item behind it. */
  method CutTail() returns (p: Pipeline)
    ensures fresh(p) && fresh(p.ring) && p.data == CUT_TAIL && p.segs == [Segment(0, 2)]
    ensures JustOpened(p, 1) && p.ring.tail == 4
  {
    hide Pipeline.Valid, Pipeline.Orderly, Tiled, InRing, Envelope;
    CutTailTiled();
    p := new Pipeline(CUT_TAIL, [Segment(0, 2)], 2, 1, 6);
    assert JustOpened(p, 0);
    hide JustOpened;
    WriteOn(p, 4, 0);
    OpenNext(p, 0);
  }

  /** The worker has taken its store item, and asked for the next item: it holds half of it. */
  method HalfItem() returns (p: Pipeline)
    ensures fresh(p) && fresh(p.ring) && p.Valid() && p.Orderly() && p.segs == [Segment(0, 2)] && !p.ring.closed
    ensures p.active.Keys == {0} && p.active[0] == Snap(p.active[0].id, [3, 26], 0, 2, true, false, false)
  {
    hide Pipeline.Valid, Pipeline.Orderly, Tiled, InRing, Envelope, ItemsFit;
    CutTailTiled();
    p := CutTail();
    p.ReaderOf(0);
    p.Start(0);
    var pulled := p.Pull(0);
    p.BufferIs(0);
    assert p.active[0].buf == [1, 10, 3, 26] && [1, 10, 3, 26][2..] == [3, 26];
    var item := p.Next(0);
    var none := p.Next(0);
  }

  /** The end limit comes while the worker holds half of the boundary item, an extension item of which stage 1 has
      parsed the header: the worker's next read ends in the middle of an item. */
  method LateEndCuts() returns (p: Pipeline, r: ReadResult)
    ensures fresh(p) && p.Valid() && p.Orderly() && p.active.Keys == {0} && !p.active[0].done && p.active[0].last == 0
    ensures r == Eof && p.active[0].buf != [] && Envelope(p.active[0].buf).None?
  {
    hide Pipeline.Valid, Pipeline.Orderly, Tiled, InRing, Envelope;
    CutTailTiled();
    p := HalfItem();
    p.BufferIs(0);
    p.SetEnd(0);
    assert AtEnd(p.CursorOf(0));
    r := p.Fill(0, 1);
    assert p.active[0].buf == [3, 26];
  }

  lemma OpenAtFirst(data: bytes, segs: seq<Segment>, k: nat, tail: nat)
    requires k < |segs| && TwoItems(data, segs[k].start) && segs[k].start + 2 <= tail
    ensures InRing(data, segs, k, tail)
  {
    var s := data[segs[k].start..];
    assert s[0] == 1 && Uvarint(s) == Some((1, 1));
  }

  lemma EndOk(data: bytes, stream: bytes, seg: Segment, c: Cursor, d: Cursor, w: Snap)
    requires SnapOk(data, stream, seg, c, w) && d == c.(endLimit := d.endLimit)
    ensures SnapOk(data, stream, seg, d, w)
  {}

  lemma ActiveRange(data: bytes, stream: bytes, seg: Segment, c: Cursor, w: Snap)
    requires SnapOk(data, stream, seg, c, w)
    ensures w.started && !w.done ==> seg.start <= w.consumed <= seg.end <= |data|
  {}

  lemma Filled(data: bytes, stream: bytes, segs: seq<Segment>, begun: nat, readers: map<nat, Cursor>,
               active: map<nat, Snap>, k: nat, got: bytes, more: bytes, head: nat, newHead: nat)
    requires SnapsOk(data, stream, segs, begun, readers, active) && k in active && active[k].started
    requires active[k].id in readers
    requires var c := readers[active[k].id];
             && CursorOk(c, got, head, stream)
             && CursorOk(c.(pos := c.pos + |more|), got + more, newHead, stream)
    ensures var w := active[k];
            SnapsOk(data, stream, segs, begun, readers[w.id := readers[w.id].(pos := readers[w.id].pos + |more|)],
                    active[k := w.(buf := w.buf + more)])
  {
    var w := active[k];
    var c := readers[w.id];
    ActiveAt(data, stream, segs, begun, readers, active, k);
    hide SnapsOk, IavlRun, Envelope;
    if c.pos + |more| <= |stream| {
      ReadSlice(stream, c.start, c.pos, c.pos + |more|, got, more);
      FillOk(data, stream, segs[k], c, w, more);
    }
    hide SnapOk;
    SnapsUpdate(data, stream, segs, begun, readers, active, k, c.(pos := c.pos + |more|), w.(buf := w.buf + more));
  }

  /** While a reader is open, the slowest pin keeps the head at or below the next segment's start. */
  lemma HeadStays(ring: ChunkRing, data: bytes, segs: seq<Segment>, extStart: nat, begun: nat, active: map<nat, Snap>,
                  id: nat)
    requires ring.Valid() && Tiled(data, segs, extStart) && begun <= |segs| && id in ring.readers
    requires SnapsOk(data, ring.stream, segs, begun, ring.readers, active)
    ensures ring.head <= NextStart(segs, begun, extStart)
  {
    hide SnapsOk, Tiled, Chain, ChunksHold, CursorsOk, Lively;
    HeadBelowNext(data, ring.stream, segs, extStart, begun, ring.readers, ring.got, active, ring.head);
  }

  lemma ActiveAt(data: bytes, stream: bytes, segs: seq<Segment>, begun: nat, readers: map<nat, Cursor>,
                 active: map<nat, Snap>, k: nat)
    requires SnapsOk(data, stream, segs, begun, readers, active) && k in active
    ensures k < begun <= |segs| && active[k].id in readers
      && SnapOk(data, stream, segs[k], readers[active[k].id], active[k])
  {}

  lemma ExactAt(ring: ChunkRing, id: nat)
    requires ring.Valid() && id in ring.readers
    ensures id in ring.got && CursorOk(ring.readers[id], ring.got[id], ring.head, ring.stream)
  {}

  /** What a read has added to the received bytes is a slice of the stream. */
  lemma ReadSlice(stream: bytes, start: nat, pos: nat, next: nat, got: bytes, more: bytes)
    requires start <= pos <= next <= |stream| && got == stream[start..pos] && |more| == next - pos
    requires got + more == stream[start..next]
    ensures more == stream[pos..next]
  {
    assert more == (got + more)[|got|..] == stream[start..next][pos - start..];
  }

  lemma SegmentSpan(data: bytes, segs: seq<Segment>, extStart: nat, k: nat)
    requires Tiled(data, segs, extStart) && k < |segs|
    ensures segs[k].start < segs[k].end
  {}

  lemma TailIs(ring: ChunkRing)
    requires ring.Valid()
    ensures ring.tail == |ring.stream|
  {}
}
