/** Building the index of a decompressed snapshot: the entries tile the bytes before the extensions, and each
    is one store item followed by its IAVL items. */
module SegmentIndex {
  import opened Bytes
  import opened PinHandoff
  import opened IndexScanner

  datatype Entry = Entry(name: bytes, start: nat, end: nat, iavlBytes: nat, items: nat)

  /** Where the scan stands in a well-formed stream: stores first, then extensions. */
  datatype Phase = Begin | InStore | InExt

  /** The store item at an offset carries that name. */
  predicate Named(data: bytes, pos: nat, name: bytes) {
    && pos <= |data| && |name| < 0x1_0000_0000
    && match Uvarint(data[pos..])
       case None => false
       case Some((len, m)) => m + len <= |data[pos..]| && data[pos..][m..m + len] == StoreBody(name)
  }

  predicate Allowed(phase: Phase, kind: Kind) {
    match kind
    case StoreItem => phase != InExt
    case IavlItem => phase == InStore
    case ExtItem => phase != Begin
    case OtherItem => false
  }

  function After(kind: Kind): Phase {
    if kind == ExtItem then InExt else InStore
  }

  ghost predicate WellFormed(data: bytes, pos: nat, phase: Phase)
    decreases |data| - pos
  {
    pos <= |data| &&
    (pos == |data| ||
     match Envelope(data[pos..])
     case None => false
     case Some((n, kind)) =>
       && Allowed(phase, kind)
       && (kind == StoreItem ==> exists name :: Named(data, pos, name))
       && WellFormed(data, pos + n, After(kind)))
  }

  // ---------- the entries so far ----------

  predicate EntryOk(data: bytes, e: Entry) {
    SegmentOk(data, Segment(e.start, e.end)) && Bounded(data, Segment(e.start, e.end)) && Named(data, e.start, e.name)
  }

  function StartAfter(entries: seq<Entry>, k: nat, next: nat): nat {
    if k + 1 < |entries| then entries[k + 1].start else next
  }

  /** Closed entries that follow each other without a gap, from the start of the stream up to next. */
  ghost predicate Closed(data: bytes, entries: seq<Entry>, next: nat) {
    && (forall k :: 0 <= k < |entries| ==> EntryOk(data, entries[k]))
    && (forall k :: 0 <= k < |entries| ==> entries[k].end == StartAfter(entries, k, next))
    && (if entries == [] then next == 0 else entries[0].start == 0)
  }

  /** The store that the scan is in, read up to pos. */
  ghost predicate Open(data: bytes, entries: seq<Entry>, start: nat, name: bytes, pos: nat) {
    Closed(data, entries, start) && SegmentOk(data, Segment(start, pos)) && Named(data, start, name)
  }

  ghost predicate Indexed(data: bytes, entries: seq<Entry>, cur: Option<Entry>, ext: nat, pos: nat, phase: Phase) {
    match phase
    case Begin => entries == [] && cur.None? && pos == 0
    case InStore => cur.Some? && Open(data, entries, cur.value.start, cur.value.name, pos)
    case InExt => cur.None? && Closed(data, entries, ext) && 0 < ext <= pos <= |data| && AtExtension(data, ext)
  }

  /** An extension item starts there. */
  predicate AtExtension(data: bytes, pos: nat) {
    pos <= |data| && Envelope(data[pos..]).Some? && Envelope(data[pos..]).value.1 == ExtItem
  }

  lemma {:induction false} RunExtends(data: bytes, pos: nat, end: nat)
    requires end <= |data| && IavlRun(data, pos, end) && Envelope(data[end..]).Some?
      && Envelope(data[end..]).value.1 == IavlItem
    ensures IavlRun(data, pos, end + Envelope(data[end..]).value.0)
    decreases end - pos
  {
    hide Envelope;
    if pos < end {
      RunExtends(data, pos + Envelope(data[pos..]).value.0, end);
    }
  }

  /** One more IAVL item in the open store. */
  lemma OpenExtends(data: bytes, entries: seq<Entry>, cur: Entry, pos: nat)
    requires Open(data, entries, cur.start, cur.name, pos) && Envelope(data[pos..]).Some?
      && Envelope(data[pos..]).value.1 == IavlItem
    ensures Open(data, entries, cur.start, cur.name, pos + Envelope(data[pos..]).value.0)
  {
    hide Envelope, Closed, Named, IavlRun;
    RunExtends(data, cur.start + Envelope(data[cur.start..]).value.0, pos);
  }

  /** The open store ends where another item starts, or at the end of the stream. */
  lemma Closes(data: bytes, entries: seq<Entry>, cur: Entry, pos: nat)
    requires Open(data, entries, cur.start, cur.name, pos) && pos <= |data|
    requires Envelope(data[pos..]).Some? ==> Envelope(data[pos..]).value.1 != IavlItem
    ensures Closed(data, entries + [cur.(end := pos)], pos)
  {
    hide Envelope, SegmentOk, Named;
    var all := entries + [cur.(end := pos)];
    assert Bounded(data, Segment(cur.start, pos));
    forall k | 0 <= k < |all| ensures EntryOk(data, all[k]) && all[k].end == StartAfter(all, k, pos) {
      if k < |entries| {
        assert all[k] == entries[k] && entries[k].end == StartAfter(entries, k, cur.start);
      }
    }
  }

  /** A new store opens after the closed ones. */
  lemma Opens(data: bytes, entries: seq<Entry>, pos: nat, cur: Entry)
    requires Closed(data, entries, pos) && pos <= |data| && cur.start == pos && Named(data, pos, cur.name)
    requires Envelope(data[pos..]).Some? && Envelope(data[pos..]).value.1 == StoreItem
    ensures Open(data, entries, cur.start, cur.name, pos + Envelope(data[pos..]).value.0)
  {
    hide Envelope, Closed, Named;
  }

  /** The finished index tiles the stream. */
  lemma Tiles(data: bytes, entries: seq<Entry>, next: nat)
    requires Closed(data, entries, next) && next <= |data|
    ensures Tiled(data, SegmentsOf(entries), next)
  {
    hide SegmentOk, Bounded, Named;
    SegmentsAt(entries);
    var segs := SegmentsOf(entries);
    forall k | 0 <= k < |segs|
      ensures SegmentOk(data, segs[k]) && segs[k].end <= |data| && Bounded(data, segs[k])
      ensures segs[k].end == if k + 1 < |segs| then segs[k + 1].start else next
    {
      assert EntryOk(data, entries[k]) && entries[k].end == StartAfter(entries, k, next);
      SegmentFitsData(data, segs[k]);
    }
  }

  lemma SegmentFitsData(data: bytes, seg: Segment)
    requires SegmentOk(data, seg)
    ensures seg.start < seg.end <= |data|
  {}

  function SegmentsOf(entries: seq<Entry>): (segs: seq<Segment>)
    ensures |segs| == |entries|
  {
    if entries == [] then []
    else
      var last := entries[|entries| - 1];
      SegmentsOf(entries[..|entries| - 1]) + [Segment(last.start, last.end)]
  }

  lemma {:induction false} SegmentsAt(entries: seq<Entry>)
    ensures forall k :: 0 <= k < |entries| ==> SegmentsOf(entries)[k] == Segment(entries[k].start, entries[k].end)
  {
    if entries != [] {
      SegmentsAt(entries[..|entries| - 1]);
    }
  }

  // ---------- the scan ----------

  /** The envelope at an offset, from its length and its tag byte. */
  lemma EnvelopeFrom(s: bytes)
    requires Envelope(s).Some?
    ensures Uvarint(s).Some?
    ensures var (len, m) := Uvarint(s).value;
            && len > 0 && m + len <= |s|
            && Envelope(s) == Some((m + len, KindOf(s[m])))
  {}

  function KindOf(tag: byte): Kind {
    var field := tag / 8;
    if field == 1 then StoreItem else if field == 2 then IavlItem
    else if field == 3 || field == 4 then ExtItem else OtherItem
  }

  /** What the scan knows about the next item of a well-formed stream. */
  lemma NextItem(data: bytes, pos: nat, phase: Phase)
    requires WellFormed(data, pos, phase) && pos < |data|
    ensures Envelope(data[pos..]).Some?
    ensures var (n, kind) := Envelope(data[pos..]).value;
            && Allowed(phase, kind) && WellFormed(data, pos + n, After(kind))
            && (kind == StoreItem ==> exists name :: Named(data, pos, name))
  {
    hide Envelope, Named;
  }

  /** Reads the length and the tag of the next envelope; None at the end of the stream. */
  method ReadHeader(scanner: Scanner, ghost phase: Phase) returns (h: Option<(nat, Kind)>, ghost m: nat)
    requires scanner.Valid() && WellFormed(scanner.src.data, scanner.pos, phase)
    modifies scanner, scanner.buf, scanner.src
    ensures scanner.Valid() && (scanner.buf == old(scanner.buf) || fresh(scanner.buf))
    ensures h.None? <==> old(scanner.pos) == |scanner.src.data|
    ensures h.None? ==> scanner.pos == old(scanner.pos)
    ensures h.Some? ==>
      && scanner.pos == old(scanner.pos) + m
      && Uvarint(scanner.src.data[old(scanner.pos)..]) == Some((h.value.0, m))
      && Envelope(scanner.src.data[old(scanner.pos)..]) == Some((m + h.value.0, h.value.1))
      && scanner.pos + h.value.0 <= |scanner.src.data|
  {
    hide Envelope, Uvarint, ScanUvarint, Allowed;
    ghost var data, pos := scanner.src.data, scanner.pos;
    if pos < |data| {
      NextItem(data, pos, phase);
      EnvelopeFrom(data[pos..]);
    }
    ScanAgrees(data[pos..]);
    var len := scanner.ReadUvarint();
    if len.CleanEnd? {
      return None, 0;
    }
    m := scanner.pos - pos;
    assert data[pos..][m..] == data[pos + m..];
    var tag := scanner.PeekByte();
    h := Some((len.v, KindOf(tag.value)));
  }

  /** What one item does to the entries. */
  lemma ItemKeeps(data: bytes, entries: seq<Entry>, cur: Option<Entry>, ext: nat, pos: nat, phase: Phase)
    requires Indexed(data, entries, cur, ext, pos, phase) && pos < |data| && WellFormed(data, pos, phase)
    ensures Envelope(data[pos..]).Some?
    ensures var (n, kind) := Envelope(data[pos..]).value;
            && (kind == IavlItem ==> phase == InStore && Open(data, entries, cur.value.start, cur.value.name, pos + n))
            && (kind != IavlItem ==> Closed(data, Flush(entries, cur, pos), if phase == InExt then ext else pos))
            && (kind == ExtItem ==> 0 < pos) && kind != OtherItem && (kind == StoreItem ==> phase != InExt)
            && WellFormed(data, pos + n, After(kind))
  {
    NextItem(data, pos, phase);
    hide Envelope, WellFormed, SegmentOk, Named, EntryOk, Closed;
    var kind := Envelope(data[pos..]).value.1;
    if phase == InStore {
      if kind == IavlItem {
        OpenExtends(data, entries, cur.value, pos);
      } else {
        Closes(data, entries, cur.value, pos);
      }
      OpenSpan(data, entries, cur.value, pos);
    } else if phase == Begin {
      NoneClosed(data);
    }
  }

  lemma NoneClosed(data: bytes)
    ensures Closed(data, [], 0)
  {}

  lemma OpenSpan(data: bytes, entries: seq<Entry>, cur: Entry, pos: nat)
    requires Open(data, entries, cur.start, cur.name, pos)
    ensures cur.start < pos
  {}

  /** The entries with the open one closed at an offset. */
  function Flush(entries: seq<Entry>, cur: Option<Entry>, pos: nat): seq<Entry> {
    match cur
    case None => entries
    case Some(e) => entries + [e.(end := pos)]
  }

  lemma SliceSlice(data: bytes, pos: nat, m: nat, len: nat)
    requires pos + m + len <= |data|
    ensures data[pos..][m..m + len] == data[pos + m..][..len]
  {
    assert data[pos..][m..m + len] == data[pos + m..pos + m + len];
  }

  /** The content of a store item of that length, as the indexer finds it. */
  lemma BodyIs(data: bytes, pos: nat, len: nat, m: nat)
    requires pos <= |data| && Uvarint(data[pos..]) == Some((len, m)) && m + len <= |data[pos..]|
    requires exists name :: Named(data, pos, name)
    ensures exists name :: Named(data, pos, name) && |name| < 0x1_0000_0000 && data[pos + m..][..len] == StoreBody(name)
  {
    hide StoreBody, Uvarint;
    var name :| Named(data, pos, name);
    SliceSlice(data, pos, m, len);
  }

  lemma AtEndOfStream(data: bytes, entries: seq<Entry>, cur: Option<Entry>, ext: nat, phase: Phase)
    requires Indexed(data, entries, cur, ext, |data|, phase)
    ensures Closed(data, Flush(entries, cur, |data|), if phase == InExt then ext else |data|)
    ensures phase == InExt ==> AtExtension(data, ext)
  {
    assert data[|data|..] == [] && Envelope([]).None?;
    hide Envelope, SegmentOk, Named, EntryOk, Closed;
    if phase == InStore {
      Closes(data, entries, cur.value, |data|);
    } else if phase == Begin {
      NoneClosed(data);
    }
  }

  /** The name of the store item whose header has been read. */
  method StoreNameHere(scanner: Scanner, len: nat, ghost envStart: nat, ghost m: nat) returns (name: bytes)
    requires scanner.Valid() && scanner.pos == envStart + m && scanner.pos + len <= |scanner.src.data|
    requires Uvarint(scanner.src.data[envStart..]) == Some((len, m))
    requires exists x :: Named(scanner.src.data, envStart, x)
    modifies scanner, scanner.buf, scanner.src
    ensures scanner.Valid() && (scanner.buf == old(scanner.buf) || fresh(scanner.buf))
    ensures scanner.pos == old(scanner.pos) + len && Named(scanner.src.data, envStart, name)
  {
    hide Uvarint, StoreBody, Named;
    BodyIs(scanner.src.data, envStart, len, m);
    ghost var x :| Named(scanner.src.data, envStart, x) && |x| < 0x1_0000_0000
                   && scanner.src.data[envStart + m..][..len] == StoreBody(x);
    name := scanner.ReadStoreName(len, x);
  }

  method Jump(scanner: Scanner, len: nat)
    requires scanner.Valid() && scanner.pos + len <= |scanner.src.data|
    modifies scanner, scanner.buf, scanner.src
    ensures scanner.Valid() && scanner.buf == old(scanner.buf) && scanner.pos == old(scanner.pos) + len
  {
    var ok := scanner.Discard(len);
  }

  /** The index of a well-formed stream, in stream order, and where the extensions start (the stream's end when
      there are none). */
  method BuildIndex(scanner: Scanner) returns (entries: seq<Entry>, extStart: nat)
    requires scanner.Valid() && scanner.pos == 0 && WellFormed(scanner.src.data, 0, Begin)
    modifies scanner, scanner.buf, scanner.src
    ensures Tiled(scanner.src.data, SegmentsOf(entries), extStart)
    ensures Closed(scanner.src.data, entries, extStart)
    ensures extStart == |scanner.src.data| || AtExtension(scanner.src.data, extStart)
  {
    hide Envelope, Uvarint, WellFormed, Open, Closed, Scanner.Valid, Scanner.Rest, StoreBody;
    ghost var data := scanner.src.data;
    ghost var phase := Begin;
    var cur: Option<Entry> := None;
    var ext := 0;
    entries := [];
    while true
      invariant scanner.Valid() && scanner.src.data == data
      invariant scanner.buf == old(scanner.buf) || fresh(scanner.buf)
      invariant scanner.pos <= |data| && WellFormed(data, scanner.pos, phase)
      invariant Indexed(data, entries, cur, ext, scanner.pos, phase)
      invariant ext == 0 <==> phase != InExt
      decreases |data| - scanner.pos
    {
      var envStart := scanner.pos;
      var h;
      ghost var m;
      h, m := ReadHeader(scanner, phase);
      if h.None? {
        AtEndOfStream(data, entries, cur, ext, phase);
        entries := Flush(entries, cur, envStart);
        extStart := if ext == 0 then envStart else ext;
        Tiles(data, entries, extStart);
        return;
      }
      ItemKeeps(data, entries, cur, ext, envStart, phase);
      var (len, kind) := h.value;
      // a well-formed stream has no other kind; the indexer fails on one
      if kind == StoreItem {
        NextItem(data, envStart, phase);
        var name := StoreNameHere(scanner, len, envStart, m);
        entries := Flush(entries, cur, envStart);
        var e := Entry(name, envStart, 0, 0, 1);
        Opens(data, entries, envStart, e);
        cur := Some(e);
      } else if kind == IavlItem {
        Jump(scanner, len);
        cur := Some(cur.value.(iavlBytes := cur.value.iavlBytes + len, items := cur.value.items + 1));
      } else {
        entries, cur := Flush(entries, cur, envStart), None;
        if ext == 0 {
          ext := envStart;
        }
        Jump(scanner, len);
      }
      phase := After(kind);
    }
  }
}
