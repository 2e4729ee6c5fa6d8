/** Snapshot items as a snapshot writer encodes them: a writer leaves out zero fields or writes them. Whatever it does,
    the reader gets the items back. */
module SnapStream {
  import opened Bytes
  import opened Proto
  import opened IavlTree
  import opened SnapshotImport
  import opened SnapReader

  // ---------- fields that may be left out ----------

  predicate HasBytes(field: nat, b: bytes, s: bytes)
    requires 1 <= field < 16
  {
    s == BytesField(field, b) || (b == [] && s == [])
  }

  predicate HasVarint(field: nat, v: uint64, s: bytes)
    requires 1 <= field < 16
  {
    s == VarintField(field, v) || (v == 0 && s == [])
  }

  /** A bytes field in front is found under its number, and skipped under any other. */
  lemma PassBytes(field: nat, b: bytes, s: bytes, rest: bytes, other: nat)
    requires 1 <= field < 16 && |b| < TWO_64 && HasBytes(field, b, s) && other != field
    ensures FindBytes(s + rest, other) == FindBytes(rest, other)
    ensures FindVarint(s + rest, other) == FindVarint(rest, other)
  {
    if s == [] {
      assert s + rest == rest;
    } else {
      FindLater(field, b, rest, other);
    }
  }

  lemma PassVarint(field: nat, v: uint64, s: bytes, rest: bytes, other: nat)
    requires 1 <= field < 16 && HasVarint(field, v, s) && other != field
    ensures FindBytes(s + rest, other) == FindBytes(rest, other)
    ensures FindVarint(s + rest, other) == FindVarint(rest, other)
  {
    if s == [] {
      assert s + rest == rest;
    } else {
      SkipVarintField(field, v, rest);
      hide GetUvarint, SkipField, PutUvarint;
    }
  }

  lemma TakeBytes(field: nat, b: bytes, s: bytes, rest: bytes)
    requires 1 <= field < 16 && |b| < TWO_64 && HasBytes(field, b, s) && FindBytes(rest, field) == []
    ensures FindBytes(s + rest, field) == b
  {
    if s == [] {
      assert s + rest == rest;
    } else {
      FindFirst(field, b, rest);
    }
  }

  lemma TakeVarint(field: nat, v: uint64, s: bytes, rest: bytes)
    requires 1 <= field < 16 && HasVarint(field, v, s) && FindVarint(rest, field) == 0
    ensures FindVarint(s + rest, field) == v
  {
    if s == [] {
      assert s + rest == rest;
    } else {
      FindVarintFirst(field, v, rest);
    }
  }

  lemma Nothing(field: nat)
    ensures FindBytes([], field) == [] && FindVarint([], field) == 0
  {}

  // ---------- the inner messages ----------

  function FieldOf(x: SnapItem): nat {
    match x
    case StoreItem(_) => 1
    case IavlItem(_) => 2
    case ExtMeta(_, _) => 3
    case ExtPayload(_) => 4
  }

  /** The four fields of an IAVL item: key, value, version and height. */
  ghost predicate WritesNode(x: ExportNode, inner: bytes) {
    exists k: bytes, v: bytes, n: bytes, h: bytes ::
      && HasBytes(1, x.key, k) && HasBytes(2, x.value, v)
      && HasVarint(3, U64(x.version), n) && HasVarint(4, U64(x.height), h)
      && inner == k + (v + (n + h))
  }

  /** The message of an item, as some writer encodes it. */
  ghost predicate Writes(x: SnapItem, inner: bytes) {
    match x
    case StoreItem(name) => HasBytes(1, name, inner)
    case IavlItem(node) => WritesNode(node, inner)
    case ExtMeta(name, format) =>
      exists n: bytes, f: bytes :: HasBytes(1, name, n) && HasVarint(2, format, f) && inner == n + f
    case ExtPayload(payload) => HasBytes(1, payload, inner)
  }

  predicate ShortItem(x: SnapItem) {
    match x
    case StoreItem(name) => |name| < TWO_64
    case IavlItem(node) => |node.key| < TWO_64 && |node.value| < TWO_64
    case ExtMeta(name, _) => |name| < TWO_64
    case ExtPayload(payload) => |payload| < TWO_64
  }

  /** Truncation gives a value back that was widened to 64 bits. */
  lemma Truncates(x: int64, h: int8)
    ensures ToInt64(U64(x)) == x && ToInt8(U64(h)) == h
  {
    assert (U64(x) + TWO_64 / 2) % TWO_64 == x + TWO_64 / 2;
    assert (U64(h) + 128) % 256 == h + 128;
  }

  lemma NodeReads(x: ExportNode, inner: bytes)
    requires WritesNode(x, inner) && ShortItem(IavlItem(x))
    ensures DecodeOneOf(2, inner) == Some(IavlItem(x))
  {
    hide FindBytes, FindVarint, BytesField, VarintField, ToInt64, ToInt8;
    var k: bytes, v: bytes, n: bytes, h: bytes :|
      HasBytes(1, x.key, k) && HasBytes(2, x.value, v)
      && HasVarint(3, U64(x.version), n) && HasVarint(4, U64(x.height), h)
      && inner == k + (v + (n + h));
    hide HasBytes, HasVarint;
    Truncates(x.version, x.height);
    assert h + [] == h;
    Nothing(1);
    Nothing(2);
    Nothing(3);
    Nothing(4);
    PassVarint(4, U64(x.height), h, [], 1);
    PassVarint(3, U64(x.version), n, h, 1);
    PassBytes(2, x.value, v, n + h, 1);
    TakeBytes(1, x.key, k, v + (n + h));
    PassVarint(4, U64(x.height), h, [], 2);
    PassVarint(3, U64(x.version), n, h, 2);
    TakeBytes(2, x.value, v, n + h);
    PassBytes(1, x.key, k, v + (n + h), 2);
    PassVarint(4, U64(x.height), h, [], 3);
    TakeVarint(3, U64(x.version), n, h);
    PassBytes(2, x.value, v, n + h, 3);
    PassBytes(1, x.key, k, v + (n + h), 3);
    TakeVarint(4, U64(x.height), h, []);
    PassVarint(3, U64(x.version), n, h, 4);
    PassBytes(2, x.value, v, n + h, 4);
    PassBytes(1, x.key, k, v + (n + h), 4);
  }

  lemma MetaReads(name: bytes, format: uint32, inner: bytes)
    requires Writes(ExtMeta(name, format), inner) && |name| < TWO_64
    ensures DecodeOneOf(3, inner) == Some(ExtMeta(name, format))
  {
    hide FindBytes, FindVarint, BytesField, VarintField;
    var n: bytes, f: bytes :| HasBytes(1, name, n) && HasVarint(2, format, f) && inner == n + f;
    hide HasBytes, HasVarint;
    assert f + [] == f;
    Nothing(1);
    Nothing(2);
    PassVarint(2, format, f, [], 1);
    TakeBytes(1, name, n, f);
    TakeVarint(2, format, f, []);
    PassBytes(1, name, n, f, 2);
    assert format % TWO_32 == format;
  }

  /** The message of an item is read as that item, whatever writer encoded it. */
  lemma InnerReads(x: SnapItem, inner: bytes)
    requires Writes(x, inner) && ShortItem(x)
    ensures DecodeOneOf(FieldOf(x), inner) == Some(x)
  {
    hide FindBytes, FindVarint, BytesField, VarintField, WritesNode;
    match x {
      case IavlItem(node) => NodeReads(node, inner);
      case ExtMeta(name, format) => MetaReads(name, format, inner);
      case StoreItem(name) =>
        Nothing(1);
        TakeBytes(1, name, inner, []);
        assert inner + [] == inner;
      case ExtPayload(payload) =>
        Nothing(1);
        TakeBytes(1, payload, inner, []);
        assert inner + [] == inner;
    }
  }

  // ---------- the stream ----------

  /** An envelope: the length, then the message under its field number. */
  function Enveloped(x: SnapItem, inner: bytes): bytes {
    PutBytes(OneOf(FieldOf(x), inner))
  }

  /** A written item with its message. */
  type Written = (SnapItem, bytes)

  function StreamOf(ws: seq<Written>): bytes {
    if ws == [] then [] else Enveloped(ws[0].0, ws[0].1) + StreamOf(ws[1..])
  }

  function ItemsOf(ws: seq<Written>): seq<SnapItem> {
    if ws == [] then [] else [ws[0].0] + ItemsOf(ws[1..])
  }

  ghost predicate Fits(w: Written) {
    Writes(w.0, w.1) && ShortItem(w.0) && |OneOf(FieldOf(w.0), w.1)| <= MAX_ENVELOPE
  }

  lemma EnvelopeReads(x: SnapItem, inner: bytes)
    requires Fits((x, inner))
    ensures DecodeEnvelope(OneOf(FieldOf(x), inner)) == Some(x)
  {
    hide GetBytes, PutBytes, DecodeOneOf, Writes, ShortItem, Uvarint;
    InnerReads(x, inner);
    var field, buf := FieldOf(x), OneOf(FieldOf(x), inner);
    assert buf[0] == 8 * field + 2 && buf[0] % 8 == 2 && buf[0] / 8 == field;
    assert buf[1..] == PutBytes(inner) && PutBytes(inner) + [] == PutBytes(inner);
    InnerShort(inner);
    GetBytesRoundTrip(inner, []);
  }

  lemma InnerShort(inner: bytes)
    ensures |inner| < |PutBytes(inner)|
  {}

  lemma StepReads(x: SnapItem, inner: bytes, rest: bytes)
    requires Fits((x, inner))
    ensures NextStep(Enveloped(x, inner) + rest) == Item(x, rest)
  {
    hide DecodeEnvelope, Writes, Uvarint, PutUvarint;
    EnvelopeReads(x, inner);
    var buf := OneOf(FieldOf(x), inner);
    var s := Enveloped(x, inner) + rest;
    assert s == PutUvarint(|buf|) + (buf + rest);
    UvarintRoundTrip(|buf|, buf + rest);
    var m := |PutUvarint(|buf|)|;
    assert s[m..m + |buf|] == buf && s[m + |buf|..] == rest;
  }

  /** Reading a written stream gives its items. */
  lemma {:induction false} StreamReads(ws: seq<Written>)
    requires forall w :: w in ws ==> Fits(w)
    ensures Items(StreamOf(ws)) == Some(ItemsOf(ws))
  {
    hide NextStep, Enveloped, Fits;
    if ws == [] {
      NoneLeft();
    } else {
      StepReads(ws[0].0, ws[0].1, StreamOf(ws[1..]));
      StreamReads(ws[1..]);
    }
  }

  lemma NoneLeft()
    ensures NextStep([]) == End
  {}
}
