/** The in-memory chunk ring: one writer, many readers, eviction behind the slowest pin. Every method runs
    under the ring's mutex, so each call is one step of a run; a call that would wait returns Blocked or
    takes nothing, and is tried again after other steps. */
module ChunkRing {
  import opened Bytes

  datatype Chunk = Chunk(start: nat, data: bytes) {
    function End(): nat { start + |data| }
  }

  /** A reader; endLimit -1 means until the ring is closed. The field start records where it was opened. */
  datatype Cursor = Cursor(start: nat, pos: nat, pin: nat, manual: bool, endLimit: int) {
    function EffectivePin(): nat { if manual then pin else pos }
  }

  datatype ReadResult = Served(data: bytes) | Eof | Failed(err: nat) | Evicted | Blocked

  // ---------- chunk lists ----------

  /** Contiguous chunks from one offset to another, of which all but the last are full. */
  predicate Chain(chunks: seq<Chunk>, from: nat, to: nat, size: nat) {
    if chunks == [] then from == to
    else
      && chunks[0].start == from && 1 <= |chunks[0].data| <= size
      && (|chunks| > 1 ==> |chunks[0].data| == size)
      && Chain(chunks[1..], chunks[0].End(), to, size)
  }

  /** Each chunk holds the stream's bytes at its offset. */
  predicate ChunksHold(chunks: seq<Chunk>, stream: bytes) {
    forall c :: c in chunks ==> c.End() <= |stream| && c.data == stream[c.start..c.End()]
  }

  lemma {:induction false} ChainBounds(chunks: seq<Chunk>, from: nat, to: nat, size: nat)
    requires Chain(chunks, from, to, size)
    ensures from <= to && (chunks == [] <==> from == to)
    ensures chunks != [] ==> chunks[|chunks| - 1].End() == to && from < chunks[0].End() <= to
    ensures chunks != [] ==> |chunks[|chunks| - 1].data| <= size
  {
    if |chunks| > 1 {
      ChainBounds(chunks[1..], chunks[0].End(), to, size);
    } else if |chunks| == 1 {
      assert chunks[1..] == [];
    }
  }

  lemma {:induction false} ChainAppend(chunks: seq<Chunk>, from: nat, to: nat, size: nat, c: Chunk)
    requires Chain(chunks, from, to, size) && c.start == to && 1 <= |c.data| <= size
    requires chunks != [] ==> |chunks[|chunks| - 1].data| == size
    ensures Chain(chunks + [c], from, c.End(), size)
  {
    if chunks == [] {
      assert [c][1..] == [];
    } else {
      assert (chunks + [c])[1..] == chunks[1..] + [c];
      ChainAppend(chunks[1..], chunks[0].End(), to, size, c);
    }
  }

  /** The last chunk grows by some bytes. */
  lemma {:induction false} ChainGrow(chunks: seq<Chunk>, from: nat, to: nat, size: nat, c: Chunk)
    requires Chain(chunks, from, to, size) && chunks != []
    requires c.start == chunks[|chunks| - 1].start && |chunks[|chunks| - 1].data| <= |c.data| <= size
    ensures Chain(chunks[|chunks| - 1 := c], from, c.End(), size)
  {
    var n := |chunks| - 1;
    if n == 0 {
      assert chunks[n := c][1..] == [] && chunks[1..] == [];
    } else {
      assert chunks[n := c][1..] == chunks[1..][n - 1 := c];
      ChainGrow(chunks[1..], chunks[0].End(), to, size, c);
    }
  }

  /** An offset between the ends lies in some chunk. */
  lemma {:induction false} ChainCovers(chunks: seq<Chunk>, from: nat, to: nat, size: nat, pos: nat) returns (i: nat)
    requires Chain(chunks, from, to, size) && from <= pos < to
    ensures i < |chunks| && chunks[i].start <= pos < chunks[i].End()
  {
    if pos < chunks[0].End() {
      i := 0;
    } else {
      i := ChainCovers(chunks[1..], chunks[0].End(), to, size, pos);
      i := i + 1;
    }
  }

  /** Every chunk but the last is full, so their number is the bytes over the chunk size, rounded up. */
  lemma {:induction false} ChainCount(chunks: seq<Chunk>, from: nat, to: nat, size: nat)
    requires Chain(chunks, from, to, size)
    ensures chunks != [] ==> (|chunks| - 1) * size < to - from
  {
    if |chunks| > 1 {
      ChainCount(chunks[1..], chunks[0].End(), to, size);
      assert (|chunks| - 1) * size == (|chunks| - 2) * size + size;
    } else if |chunks| == 1 {
      assert chunks[1..] == [];
    }
  }

  /** maxBytes over chunkSize, rounded up. */
  function MaxBuffers(maxBytes: nat, size: nat): nat
    requires size > 0
  {
    (maxBytes + size - 1) / size
  }

  lemma CountWithinCap(n: nat, size: nat, bytes: nat, maxBytes: nat)
    requires size > 0 && (n > 0 ==> (n - 1) * size < bytes) && bytes <= maxBytes
    ensures n <= MaxBuffers(maxBytes, size)
  {
    if n > 0 {
      var q := (maxBytes + size - 1) / size;
      assert n * size <= maxBytes + size - 1 by { assert n * size == (n - 1) * size + size; }
      DivAtLeast(n, size, maxBytes + size - 1);
    }
  }

  lemma DivAtLeast(n: nat, size: nat, x: nat)
    requires size > 0 && n * size <= x
    ensures n <= x / size
  {
    var q := x / size;
    if q < n {
      MulStep(n, q, size);
      assert false;
    }
  }

  lemma MulStep(n: nat, q: nat, size: nat)
    requires q < n
    ensures n * size >= q * size + size
  {
    assert n * size == (n - q - 1) * size + (q * size + size);
  }

  // ---------- cursors ----------

  /** A reader has received exactly the stream from its start to its position, and pins nothing evicted. */
  predicate CursorOk(c: Cursor, got: bytes, head: nat, stream: bytes) {
    && head <= c.EffectivePin() <= c.pos
    && c.start <= c.pos
    && (if c.pos <= |stream| then got == stream[c.start..c.pos] else c.pos == c.start && got == [])
  }

  predicate CursorsOk(readers: map<nat, Cursor>, got: map<nat, bytes>, head: nat, stream: bytes) {
    forall id :: id in readers ==> id in got && CursorOk(readers[id], got[id], head, stream)
  }

  lemma StreamGrows(readers: map<nat, Cursor>, got: map<nat, bytes>, head: nat, stream: bytes, more: bytes)
    requires CursorsOk(readers, got, head, stream)
    ensures CursorsOk(readers, got, head, stream + more)
  {
    forall id | id in readers ensures id in got && CursorOk(readers[id], got[id], head, stream + more) {
      var c := readers[id];
      assert CursorOk(c, got[id], head, stream);
      if c.pos <= |stream| {
        assert (stream + more)[c.start..c.pos] == stream[c.start..c.pos];
      } else if c.pos <= |stream + more| {
        assert (stream + more)[c.start..c.pos] == [];
      }
    }
  }

  lemma HoldsGrows(chunks: seq<Chunk>, stream: bytes, more: bytes)
    requires ChunksHold(chunks, stream)
    ensures ChunksHold(chunks, stream + more)
  {
    forall c | c in chunks ensures c.End() <= |stream + more| && c.data == (stream + more)[c.start..c.End()] {
      assert (stream + more)[c.start..c.End()] == stream[c.start..c.End()];
    }
  }

  /** A lower bound of all pins that one of them attains. */
  predicate IsMinPin(readers: map<nat, Cursor>, m: nat) {
    && (forall id :: id in readers ==> m <= readers[id].EffectivePin())
    && (exists id :: id in readers && readers[id].EffectivePin() == m)
  }

  /** No chunk lies wholly behind the slowest pin. */
  predicate Trim(chunks: seq<Chunk>, readers: map<nat, Cursor>) {
    chunks != [] && readers != map[] ==> exists id :: id in readers && readers[id].EffectivePin() < chunks[0].End()
  }

  /** Some reader is behind the tail while the ring holds bytes. */
  predicate Lively(chunks: seq<Chunk>, readers: map<nat, Cursor>, tail: nat) {
    chunks != [] && readers != map[] ==> exists id :: id in readers && readers[id].EffectivePin() < tail
  }

  predicate AllBehind(readers: map<nat, Cursor>, tail: nat) {
    forall id :: id in readers ==> readers[id].pos <= tail
  }

  lemma TrimIsLively(chunks: seq<Chunk>, readers: map<nat, Cursor>, from: nat, tail: nat, size: nat)
    requires Trim(chunks, readers) && Chain(chunks, from, tail, size)
    ensures Lively(chunks, readers, tail)
  {
    ChainBounds(chunks, from, tail, size);
  }

  class ChunkRing {
    const chunkSize: nat
    const maxBytes: nat

    var chunks: seq<Chunk>
    var tail: nat
    var head: nat
    var closed: bool
    var err: Option<nat>
    var readers: map<nat, Cursor>
    var nextId: nat
    var freeBufs: nat               // pooled buffers

    ghost var stream: bytes         // everything written so far
    ghost var got: map<nat, bytes>  // what each reader has received
    ghost var orderly: bool         // every reader was opened behind the tail

    ghost predicate Sound()
      reads this
    {
      && 0 < chunkSize <= maxBytes
      && |stream| == tail && tail - head <= maxBytes
      && Chain(chunks, head, tail, chunkSize) && ChunksHold(chunks, stream)
      && CursorsOk(readers, got, head, stream)
      && (forall id :: id in readers ==> id < nextId)
      && freeBufs <= maxBytes / chunkSize
      && |chunks| + freeBufs <= MaxBuffers(maxBytes, chunkSize)
      && (orderly ==> AllBehind(readers, tail))
    }

    ghost predicate Valid()
      reads this
    {
      Sound() && (orderly ==> Lively(chunks, readers, tail))
    }

    constructor (chunkSize: nat, maxBytes: nat)
      requires 0 < chunkSize <= maxBytes
      ensures Valid() && this.chunkSize == chunkSize && this.maxBytes == maxBytes
      ensures stream == [] && readers == map[] && !closed && orderly
    {
      this.chunkSize, this.maxBytes := chunkSize, maxBytes;
      chunks, tail, head, closed, err, readers, nextId, freeBufs := [], 0, 0, false, None, map[], 0, 0;
      stream, got, orderly := [], map[], true;
    }

    // ---------- eviction ----------

    /** The slowest pin. */
    method MinPin() returns (m: nat)
      requires readers != map[]
      ensures IsMinPin(readers, m)
    {
      var first :| first in readers;
      m := readers[first].EffectivePin();
      var rest := readers.Keys - {first};
      while rest != {}
        invariant rest <= readers.Keys
        invariant forall id :: id in readers && id !in rest ==> m <= readers[id].EffectivePin()
        invariant exists id :: id in readers && readers[id].EffectivePin() == m
        decreases |rest|
      {
        var id :| id in rest;
        rest := rest - {id};
        if readers[id].EffectivePin() < m {
          m := readers[id].EffectivePin();
        }
      }
    }

    /** Drops the chunks that lie wholly behind the slowest pin; without readers it keeps everything. */
    method EvictLocked()
      requires Sound()
      modifies this`chunks, this`head, this`freeBufs
      ensures Sound() && Trim(chunks, readers)
      ensures old(head) <= head
      ensures readers == map[] ==> chunks == old(chunks) && head == old(head) && freeBufs == old(freeBufs)
      ensures |chunks| + freeBufs <= old(|chunks| + freeBufs)
    {
      if readers == map[] {
        return;
      }
      var minPin := MinPin();
      while |chunks| > 0 && chunks[0].End() <= minPin
        invariant Sound() && IsMinPin(readers, minPin)
        invariant old(head) <= head
        invariant |chunks| + freeBufs <= old(|chunks| + freeBufs)
        decreases |chunks|
      {
        DropFirst(minPin);
      }
    }

    method DropFirst(ghost minPin: nat)
      requires Sound() && chunks != [] && IsMinPin(readers, minPin) && chunks[0].End() <= minPin
      modifies this`chunks, this`head, this`freeBufs
      ensures Sound() && head == old(chunks[0].End()) && chunks == old(chunks)[1..]
      ensures |chunks| + freeBufs <= old(|chunks| + freeBufs)
    {
      ChainBounds(chunks, head, tail, chunkSize);
      PinsAbove(readers, got, head, stream, chunks[0].End(), minPin);
      hide CursorsOk, IsMinPin;
      head := chunks[0].End();
      chunks := chunks[1..];
      if freeBufs < maxBytes / chunkSize {
        freeBufs := freeBufs + 1;
      }
    }

    // ---------- the writer ----------

    /** One round of Write's loop: appends to the last chunk while it has room, otherwise starts a chunk, both
        bounded by the cap; takes nothing when the ring is at its cap, and fails when it is closed. */
    method WriteSome(p: bytes) returns (taken: nat, ok: bool)
      requires Valid() && p != []
      modifies this`chunks, this`tail, this`freeBufs, this`stream
      ensures Valid()
      ensures ok <==> !closed
      ensures taken <= |p| && stream == old(stream) + p[..taken]
      ensures taken == 0 <==> closed || old(tail) - head >= maxBytes
      ensures orderly && old(Trim(chunks, readers)) ==> Trim(chunks, readers)
    {
      ChainBounds(chunks, head, tail, chunkSize);
      hide Chain, ChunksHold, CursorsOk, Lively, MaxBuffers;
      if closed {
        assert stream + p[..0] == stream;
        return 0, false;
      }
      if tail - head >= maxBytes {
        assert stream + p[..0] == stream;
        return 0, true;
      }
      var room := maxBytes - (tail - head);
      if |chunks| > 0 && |chunks[|chunks| - 1].data| < chunkSize {
        var last := chunks[|chunks| - 1];
        taken := Least(Least(|p|, chunkSize - |last.data|), room);
        Grow(p[..taken]);
      } else {
        taken := Least(Least(|p|, chunkSize), room);
        Append(p[..taken]);
      }
      ok := true;
    }

    method Grow(more: bytes)
      requires Valid() && more != [] && tail - head + |more| <= maxBytes
      requires chunks != [] && |chunks[|chunks| - 1].data| + |more| <= chunkSize
      modifies this`chunks, this`tail, this`stream
      ensures Valid() && stream == old(stream) + more
      ensures old(Trim(chunks, readers)) ==> Trim(chunks, readers)
    {
      hide Chain, ChunksHold, CursorsOk, Lively, Trim, MaxBuffers, AllBehind;
      var n := |chunks| - 1;
      var c := Chunk(chunks[n].start, chunks[n].data + more);
      BehindGrows(readers, tail, tail + |more|);
      GrowOk(chunks, head, tail, chunkSize, stream, c, more);
      StreamGrows(readers, got, head, stream, more);
      GrowLively(chunks, readers, tail, c, tail + |more|);
      chunks, tail, stream := chunks[n := c], tail + |more|, stream + more;
    }

    /** A new chunk, in a pooled buffer when there is one. */
    method Append(more: bytes)
      requires Valid() && more != [] && |more| <= chunkSize && tail - head + |more| <= maxBytes
      requires chunks != [] ==> |chunks[|chunks| - 1].data| == chunkSize
      modifies this`chunks, this`tail, this`freeBufs, this`stream
      ensures Valid() && stream == old(stream) + more
      ensures orderly && old(Trim(chunks, readers)) ==> Trim(chunks, readers)
    {
      hide Chain, ChunksHold, CursorsOk, Lively, MaxBuffers, Trim, AllBehind;
      var c := Chunk(tail, more);
      AppendTrim(chunks, readers, got, head, stream, tail, c);
      ChainAppend(chunks, head, tail, chunkSize, c);
      AppendHolds(chunks, stream, c, more);
      StreamGrows(readers, got, head, stream, more);
      ChainCount(chunks + [c], head, c.End(), chunkSize);
      CountWithinCap(|chunks| + 1, chunkSize, c.End() - head, maxBytes);
      AppendLively(chunks, readers, got, head, stream, tail, c, tail + |more|);
      chunks, tail, stream := chunks + [c], tail + |more|, stream + more;
      if freeBufs > 0 {
        freeBufs := freeBufs - 1;
      }
    }

    method Close(e: Option<nat>)
      requires Valid()
      modifies this`closed, this`err
      ensures Valid() && closed && err == if old(err).None? then e else old(err)
    {
      closed := true;
      if err.None? {
        err := e;
      }
    }

    // ---------- the readers ----------

    /** Opens a reader at an offset that is still in the ring. */
    method NewReader(start: nat, endLimit: int) returns (id: Option<nat>)
      requires Valid()
      modifies this`readers, this`nextId, this`got, this`orderly
      ensures Valid()
      ensures id.Some? <==> start >= head
      ensures id.None? ==> readers == old(readers) && got == old(got)
      ensures id.Some? ==>
        && id.value !in old(readers)
        && readers == old(readers)[id.value := Cursor(start, start, 0, false, endLimit)]
        && got[id.value] == [] && forall x :: x in old(readers) ==> x in got && got[x] == old(got)[x]
      ensures orderly == (old(orderly) && (start < head || start < tail))
    {
      if start < head {
        return None;
      }
      var c := Cursor(start, start, 0, false, endLimit);
      id := Some(nextId);
      orderly := orderly && start < tail;
      OpenOk(readers, got, head, stream, nextId, c);
      if start < tail {
        OpenLively(chunks, readers, tail, nextId, c);
      }
      hide Chain, ChunksHold, CursorsOk, Lively;
      readers, got, nextId := readers[nextId := c], got[nextId := []], nextId + 1;
    }

    /** From here on eviction follows the pin instead of the pull position. */
    method EnableManualPin(id: nat)
      requires Valid() && id in readers
      modifies this`readers
      ensures Valid()
      ensures readers == old(readers)[id := Pinned(old(readers)[id])]
    {
      PinOk(chunks, readers, got, head, stream, id, Pinned(readers[id]), tail);
      hide Chain, ChunksHold, CursorsOk, Lively;
      readers := readers[id := Pinned(readers[id])];
    }

    /** Commits n bytes: the pin moves up, never past the pull position, and eviction runs. */
    method AdvancePin(id: nat, n: nat)
      requires Valid() && id in readers
      modifies this`readers, this`got, this`chunks, this`head, this`freeBufs
      ensures Valid() && got == old(got)
      ensures readers == if n == 0 then old(readers) else old(readers)[id := Advanced(old(readers)[id], n)]
      ensures old(head) <= head
      ensures n > 0 && Advanced(old(readers)[id], n) != Pinned(old(readers)[id]) ==> Trim(chunks, readers)
    {
      hide Valid, Trim;
      if n == 0 {
        return;
      }
      EnableManualPin(id);
      CommitPin(id, n);
    }

    method CommitPin(id: nat, n: nat)
      requires Valid() && id in readers && readers[id].manual
      modifies this`readers, this`got, this`chunks, this`head, this`freeBufs
      ensures Valid() && got == old(got)
      ensures readers == old(readers)[id := Advanced(old(readers)[id], n)]
      ensures old(head) <= head
      ensures Advanced(old(readers)[id], n) != old(readers)[id] ==> Trim(chunks, readers)
    {
      var c := readers[id];
      hide Chain, ChunksHold, CursorsOk, Lively, MaxBuffers, Trim, AllBehind;
      var target := Least(c.pin + n, c.pos);
      if target <= c.pin {
        return;
      }
      BehindAt(readers, tail, id);
      PinUpOk(readers, got, head, stream, id, c.(pin := target));
      Move(id, c.(pin := target), got);
    }

    /** The chunk that holds an offset, by a scan. */
    method FindChunk(pos: nat) returns (i: int)
      requires Valid()
      ensures i >= 0 ==> i < |chunks| && chunks[i].start <= pos < chunks[i].End() <= tail
      ensures i < 0 <==> !(head <= pos < tail)
    {
      if head <= pos < tail {
        ghost var k := ChainCovers(chunks, head, tail, chunkSize, pos);
      }
      i := 0;
      while i < |chunks|
        invariant 0 <= i <= |chunks|
        invariant forall j :: 0 <= j < i ==> !(chunks[j].start <= pos < chunks[j].End())
      {
        if chunks[i].start <= pos < chunks[i].End() {
          ChunkInside(chunks, head, tail, chunkSize, i);
          return i;
        }
        i := i + 1;
      }
      return -1;
    }

    /** Copies bytes to a reader from the chunk at its position, and runs eviction. */
    method Serve(id: nat, i: nat, n: nat) returns (data: bytes)
      requires Valid() && id in readers && !AtEnd(readers[id])
      requires i < |chunks| && chunks[i].start <= readers[id].pos < chunks[i].End() <= tail
      modifies this`readers, this`got, this`chunks, this`head, this`freeBufs
      ensures Valid()
      ensures |data| <= n && (n > 0 ==> data != [])
      ensures readers == old(readers)[id := old(readers)[id].(pos := old(readers)[id].pos + |data|)]
      ensures got == old(got)[id := old(got)[id] + data]
      ensures readers[id].endLimit >= 0 ==> readers[id].pos <= readers[id].endLimit
      ensures Trim(chunks, readers) && old(head) <= head
    {
      hide Chain, CursorsOk, Lively, MaxBuffers, Trim, Take;
      var c, chunk := readers[id], chunks[i];
      assert chunk in chunks;
      hide ChunksHold;
      TakeOk(chunk, c, n);
      data := Take(chunk, c, n);
      ReadOk(readers, got, head, stream, id, data, chunk);
      Move(id, c.(pos := c.pos + |data|), got[id := got[id] + data]);
    }

    /** Stores a cursor that has moved, and evicts behind the slowest pin. */
    method Move(id: nat, c: Cursor, ghost got': map<nat, bytes>)
      requires Valid() && id in readers && CursorsOk(readers[id := c], got', head, stream)
      requires orderly ==> c.pos <= tail
      modifies this`readers, this`got, this`chunks, this`head, this`freeBufs
      ensures Valid() && Trim(chunks, readers) && old(head) <= head
      ensures readers == old(readers)[id := c] && got == got'
    {
      hide Chain, ChunksHold, CursorsOk, Lively, MaxBuffers, Trim;
      readers, got := readers[id := c], got';
      EvictLocked();
      TrimIsLively(chunks, readers, head, tail, chunkSize);
    }

    /** One round of Read's loop for at most n bytes. */
    method Read(id: nat, n: nat) returns (r: ReadResult)
      requires Valid() && id in readers
      modifies this`readers, this`got, this`chunks, this`head, this`freeBufs
      ensures Valid()
      ensures r != Evicted
      ensures r == Blocked <==> !AtEnd(old(readers)[id]) && old(readers)[id].pos >= tail && !closed
      ensures r == Eof <==> AtEnd(old(readers)[id]) || (old(readers)[id].pos >= tail && closed && err.None?)
      ensures r.Served? ==>
        && |r.data| <= n && (n > 0 ==> r.data != [])
        && readers == old(readers)[id := old(readers)[id].(pos := old(readers)[id].pos + |r.data|)]
        && got == old(got)[id := old(got)[id] + r.data]
        && (readers[id].endLimit >= 0 ==> readers[id].pos <= readers[id].endLimit)
        && Trim(chunks, readers)
      ensures r.Failed? ==> closed
      ensures !r.Served? ==> readers == old(readers) && got == old(got) && chunks == old(chunks) && head == old(head)
      ensures old(head) <= head
    {
      var c := readers[id];
      assert CursorOk(c, got[id], head, stream);
      hide Chain, ChunksHold, CursorsOk, Lively, MaxBuffers, Trim;
      if AtEnd(c) {
        return Eof;
      }
      var i := FindChunk(c.pos);
      if i >= 0 {
        var data := Serve(id, i, n);
        return Served(data);
      }
      if c.pos < head {
        return Evicted;
      }
      if closed && c.pos >= tail {
        return if err.Some? then Failed(err.value) else Eof;
      }
      return Blocked;
    }

    method SetEnd(id: nat, end: nat)
      requires Valid() && id in readers
      modifies this`readers
      ensures Valid() && readers == old(readers)[id := old(readers)[id].(endLimit := end)]
    {
      PinOk(chunks, readers, got, head, stream, id, readers[id].(endLimit := end), tail);
      hide Chain, ChunksHold, CursorsOk, Lively;
      readers := readers[id := readers[id].(endLimit := end)];
    }

    method CloseReader(id: nat)
      requires Valid()
      modifies this`readers, this`chunks, this`head, this`freeBufs
      ensures Valid() && readers == old(readers) - {id} && old(head) <= head && Trim(chunks, readers)
      ensures readers == map[] ==> head == old(head)
      ensures got == old(got)
    {
      readers := readers - {id};
      EvictLocked();
      TrimIsLively(chunks, readers, head, tail, chunkSize);
    }
  }

  function Least(a: nat, b: nat): nat { if a < b then a else b }

  predicate AtEnd(c: Cursor) { c.endLimit >= 0 && c.pos >= c.endLimit }

  /** The cursor in manual mode, anchored at its pull position if it was not. */
  function Pinned(c: Cursor): Cursor {
    if c.manual then c else c.(pin := c.pos, manual := true)
  }

  /** The cursor after committing n bytes. */
  function Advanced(c: Cursor, n: nat): Cursor {
    var p := Pinned(c);
    var target := Least(p.pin + n, p.pos);
    if target <= p.pin then p else p.(pin := target)
  }

  /** The bytes that a read returns from the chunk at its position. */
  function Take(chunk: Chunk, c: Cursor, n: nat): bytes
    requires chunk.start <= c.pos < chunk.End() && !AtEnd(c)
  {
    var off := c.pos - chunk.start;
    var k := Least(|chunk.data| - off, n);
    var k := if c.endLimit >= 0 && c.pos + k > c.endLimit then c.endLimit - c.pos else k;
    chunk.data[off..off + k]
  }

  // ---------- steps on values ----------

  lemma TakeOk(chunk: Chunk, c: Cursor, n: nat)
    requires chunk.start <= c.pos < chunk.End() && !AtEnd(c)
    ensures var data := Take(chunk, c, n);
            && |data| <= n && (n > 0 ==> data != []) && c.pos + |data| <= chunk.End()
            && (c.endLimit >= 0 ==> c.pos + |data| <= c.endLimit)
            && data == chunk.data[c.pos - chunk.start..][..|data|]
  {
    var data, off := Take(chunk, c, n), c.pos - chunk.start;
    assert chunk.data[off..off + |data|] == chunk.data[off..][..|data|];
  }

  lemma GrowOk(chunks: seq<Chunk>, head: nat, tail: nat, size: nat, stream: bytes, c: Chunk, more: bytes)
    requires Chain(chunks, head, tail, size) && ChunksHold(chunks, stream) && |stream| == tail && chunks != []
    requires c == Chunk(chunks[|chunks| - 1].start, chunks[|chunks| - 1].data + more) && |c.data| <= size
    ensures Chain(chunks[|chunks| - 1 := c], head, tail + |more|, size)
    ensures ChunksHold(chunks[|chunks| - 1 := c], stream + more)
  {
    ChainBounds(chunks, head, tail, size);
    ChainGrow(chunks, head, tail, size, c);
    HoldsGrows(chunks, stream, more);
    var last := chunks[|chunks| - 1];
    assert last in chunks;
    assert (stream + more)[c.start..c.End()] == stream[c.start..] + more;
    forall d | d in chunks[|chunks| - 1 := c]
      ensures d.End() <= |stream + more| && d.data == (stream + more)[d.start..d.End()]
    {
      if d != c { assert d in chunks; }
    }
  }

  lemma AppendHolds(chunks: seq<Chunk>, stream: bytes, c: Chunk, more: bytes)
    requires ChunksHold(chunks, stream) && c == Chunk(|stream|, more)
    ensures ChunksHold(chunks + [c], stream + more)
  {
    HoldsGrows(chunks, stream, more);
    assert (stream + more)[c.start..c.End()] == more;
  }

  lemma GrowLively(chunks: seq<Chunk>, readers: map<nat, Cursor>, tail: nat, c: Chunk, newTail: nat)
    requires chunks != [] && tail <= newTail
    requires chunks[|chunks| - 1].End() <= c.End()
    ensures Lively(chunks, readers, tail) ==> Lively(chunks[|chunks| - 1 := c], readers, newTail)
    ensures Trim(chunks, readers) ==> Trim(chunks[|chunks| - 1 := c], readers)
  {
    if Trim(chunks, readers) && readers != map[] {
      var id :| id in readers && readers[id].EffectivePin() < chunks[0].End();
      assert readers[id].EffectivePin() < chunks[|chunks| - 1 := c][0].End();
    }
    if Lively(chunks, readers, tail) && readers != map[] {
      var id :| id in readers && readers[id].EffectivePin() < tail;
    }
  }

  lemma BehindAt(readers: map<nat, Cursor>, tail: nat, id: nat)
    requires id in readers
    ensures AllBehind(readers, tail) ==> readers[id].pos <= tail
  {}

  lemma BehindGrows(readers: map<nat, Cursor>, tail: nat, newTail: nat)
    requires tail <= newTail
    ensures AllBehind(readers, tail) ==> AllBehind(readers, newTail)
  {}

  lemma AppendTrim(chunks: seq<Chunk>, readers: map<nat, Cursor>, got: map<nat, bytes>, head: nat, stream: bytes,
                   tail: nat, c: Chunk)
    requires tail < c.End() && CursorsOk(readers, got, head, stream)
    ensures AllBehind(readers, tail) && Trim(chunks, readers) ==> Trim(chunks + [c], readers)
    ensures AllBehind(readers, tail) ==> AllBehind(readers, c.End())
  {
    if AllBehind(readers, tail) && Trim(chunks, readers) && readers != map[] {
      if chunks == [] {
        var id :| id in readers;
        assert readers[id].EffectivePin() < (chunks + [c])[0].End();
      } else {
        var id :| id in readers && readers[id].EffectivePin() < chunks[0].End();
        assert readers[id].EffectivePin() < (chunks + [c])[0].End();
      }
    }
  }

  /** A reader that was not past the tail is behind the new one. */
  lemma AppendLively(chunks: seq<Chunk>, readers: map<nat, Cursor>, got: map<nat, bytes>, head: nat, stream: bytes,
                     tail: nat, c: Chunk, newTail: nat)
    requires tail < newTail && CursorsOk(readers, got, head, stream)
    ensures AllBehind(readers, tail) ==> Lively(chunks + [c], readers, newTail)
  {
    if AllBehind(readers, tail) && readers != map[] {
      var id :| id in readers;
      assert readers[id].EffectivePin() < newTail;
    }
  }

  lemma OpenOk(readers: map<nat, Cursor>, got: map<nat, bytes>, head: nat, stream: bytes, id: nat, c: Cursor)
    requires CursorsOk(readers, got, head, stream) && id !in readers && c.start == c.pos >= head && !c.manual
    ensures CursorsOk(readers[id := c], got[id := []], head, stream)
  {
    var rs, gs := readers[id := c], got[id := []];
    forall x | x in rs ensures x in gs && CursorOk(rs[x], gs[x], head, stream) {
      if x != id { assert CursorOk(readers[x], got[x], head, stream); }
    }
  }

  lemma OpenLively(chunks: seq<Chunk>, readers: map<nat, Cursor>, tail: nat, id: nat, c: Cursor)
    requires c.EffectivePin() < tail && id !in readers
    ensures Lively(chunks, readers[id := c], tail)
  {
    assert readers[id := c][id] == c;
  }

  lemma PinOk(chunks: seq<Chunk>, readers: map<nat, Cursor>, got: map<nat, bytes>, head: nat, stream: bytes, id: nat,
              c: Cursor, tail: nat)
    requires CursorsOk(readers, got, head, stream) && id in readers
    requires c.pos == readers[id].pos && c.start == readers[id].start && c.EffectivePin() == readers[id].EffectivePin()
    ensures CursorsOk(readers[id := c], got, head, stream)
    ensures Lively(chunks, readers, tail) ==> Lively(chunks, readers[id := c], tail)
  {
    forall x | x in readers[id := c] ensures x in got && CursorOk(readers[id := c][x], got[x], head, stream) {
      assert CursorOk(readers[x], got[x], head, stream);
    }
    if Lively(chunks, readers, tail) && chunks != [] {
      var x :| x in readers && readers[x].EffectivePin() < tail;
      assert readers[id := c][x].EffectivePin() < tail;
    }
  }

  lemma PinUpOk(readers: map<nat, Cursor>, got: map<nat, bytes>, head: nat, stream: bytes, id: nat, c: Cursor)
    requires CursorsOk(readers, got, head, stream) && id in readers
    requires c == readers[id].(pin := c.pin) && c.manual && readers[id].pin <= c.pin <= c.pos
    ensures CursorsOk(readers[id := c], got, head, stream)
  {
    forall x | x in readers[id := c] ensures x in got && CursorOk(readers[id := c][x], got[x], head, stream) {
      assert CursorOk(readers[x], got[x], head, stream);
    }
  }

  lemma {:induction false} ChunkInside(chunks: seq<Chunk>, from: nat, to: nat, size: nat, i: nat)
    requires Chain(chunks, from, to, size) && i < |chunks|
    ensures from <= chunks[i].start && chunks[i].End() <= to
  {
    ChainBounds(chunks, from, to, size);
    if i > 0 {
      ChunkInside(chunks[1..], chunks[0].End(), to, size, i - 1);
    }
  }

  lemma ReadOk(readers: map<nat, Cursor>, got: map<nat, bytes>, head: nat, stream: bytes, id: nat, data: bytes,
               chunk: Chunk)
    requires CursorsOk(readers, got, head, stream) && id in readers
    requires chunk.End() <= |stream| && chunk.data == stream[chunk.start..chunk.End()]
    requires chunk.start <= readers[id].pos < chunk.End()
    requires readers[id].pos + |data| <= chunk.End()
    requires data == chunk.data[readers[id].pos - chunk.start..][..|data|]
    ensures id in got
    ensures CursorsOk(readers[id := readers[id].(pos := readers[id].pos + |data|)], got[id := got[id] + data], head,
      stream)
  {
    var c := readers[id];
    assert CursorOk(c, got[id], head, stream);
    var d := c.(pos := c.pos + |data|);
    assert data == stream[c.pos..d.pos];
    assert stream[c.start..d.pos] == stream[c.start..c.pos] + stream[c.pos..d.pos];
    var rs, gs := readers[id := d], got[id := got[id] + data];
    forall x | x in rs ensures x in gs && CursorOk(rs[x], gs[x], head, stream) {
      if x != id { assert CursorOk(readers[x], got[x], head, stream); }
    }
  }

  /** The head may move up to the slowest pin. */
  lemma PinsAbove(readers: map<nat, Cursor>, got: map<nat, bytes>, head: nat, stream: bytes, newHead: nat, minPin: nat)
    requires CursorsOk(readers, got, head, stream) && IsMinPin(readers, minPin) && newHead <= minPin
    ensures CursorsOk(readers, got, newHead, stream)
  {
    forall id | id in readers ensures id in got && CursorOk(readers[id], got[id], newHead, stream) {
      assert CursorOk(readers[id], got[id], head, stream);
    }
  }

  // ---------- memory and progress ----------

  /** Active and pooled buffers together exceed maxBytes by less than one chunk. */
  lemma MemoryBound(ring: ChunkRing)
    requires ring.Valid()
    ensures (|ring.chunks| + ring.freeBufs) * ring.chunkSize < ring.maxBytes + ring.chunkSize
    ensures ring.tail - ring.head <= ring.maxBytes
  {
    var n, size := |ring.chunks| + ring.freeBufs, ring.chunkSize;
    var m, x := MaxBuffers(ring.maxBytes, size), ring.maxBytes + size - 1;
    assert x == m * size + x % size;
    assert m * size == (m - n) * size + n * size;
    MulNat(m - n, size);
  }

  lemma MulNat(a: nat, b: nat)
    ensures a * b >= 0
  {}

  /** A writer that is blocked has more than maxBytes - chunkSize bytes past the slowest pin, provided the pins
      are current (eviction has run since the last commit): any item up to that size can be completed. */
  lemma BlockedWriterLeavesRoom(ring: ChunkRing, minPin: nat)
    requires ring.Valid() && Trim(ring.chunks, ring.readers)
    requires ring.readers != map[] && IsMinPin(ring.readers, minPin)
    requires ring.tail - ring.head >= ring.maxBytes
    ensures ring.tail - minPin > ring.maxBytes - ring.chunkSize
  {
    ChainBounds(ring.chunks, ring.head, ring.tail, ring.chunkSize);
  }

  /** With readers that follow their pull position and were opened behind the tail, writer and readers are never
      all blocked: when the writer is, some reader has bytes to read or is at its end. */
  lemma SomebodyCanMove(ring: ChunkRing) returns (id: nat)
    requires ring.Valid() && ring.orderly && ring.readers != map[]
    requires forall x :: x in ring.readers ==> !ring.readers[x].manual
    requires ring.tail - ring.head >= ring.maxBytes
    ensures id in ring.readers && ring.readers[id].pos < ring.tail
  {
    ChainBounds(ring.chunks, ring.head, ring.tail, ring.chunkSize);
    id :| id in ring.readers && ring.readers[id].EffectivePin() < ring.tail;
  }

  /** A reader has received exactly the stream's bytes from its start to its position. */
  lemma ReadersAreExact(ring: ChunkRing, id: nat)
    requires ring.Valid() && id in ring.readers && ring.readers[id].pos <= ring.tail
    ensures ring.head <= ring.readers[id].EffectivePin() <= ring.readers[id].pos
    ensures id in ring.got && ring.got[id] == ring.stream[ring.readers[id].start..ring.readers[id].pos]
  {
    assert CursorOk(ring.readers[id], ring.got[id], ring.head, ring.stream);
  }
}
