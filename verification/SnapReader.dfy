/** Reading snapshot items off the decompressed bytes: envelopes, the item in each, and the reader's calls. */
module SnapReader {
  import opened Bytes
  import opened Proto
  import opened IavlTree
  import opened SnapshotImport

  // ---------- one item ----------

  /** Two's complement truncation of a 64-bit value, as the casts to int64 and int8 do it. */
  function ToInt64(v: nat): int64 {
    (v + TWO_64 / 2) % TWO_64 - TWO_64 / 2
  }

  function ToInt8(v: nat): int8 {
    (v + 128) % 256 - 128
  }

  /** The inner message of an item of that field number. */
  function DecodeOneOf(field: nat, inner: bytes): Option<SnapItem> {
    if field == 1 then Some(StoreItem(FindBytes(inner, 1)))
    else if field == 2 then
      var height, version := ToInt8(FindVarint(inner, 4)), ToInt64(FindVarint(inner, 3));
      Some(IavlItem(ExportNode(height, version, FindBytes(inner, 1), FindBytes(inner, 2))))
    else if field == 3 then Some(ExtMeta(FindBytes(inner, 1), FindVarint(inner, 2) % TWO_32))
    else if field == 4 then Some(ExtPayload(FindBytes(inner, 1)))
    else None
  }

  /** The content of an envelope: a tag of wire type 2, a length and the inner message. */
  function DecodeEnvelope(buf: bytes): Option<SnapItem> {
    if buf == [] || buf[0] % 8 != 2 then None
    else
      match GetBytes(buf[1..])
      case Fail => None
      case Got(inner, _) => DecodeOneOf(buf[0] / 8, inner)
  }

  const MAX_ENVELOPE: nat := 64_000_000

  /** One call of Next: the item and what follows it. Envelopes of length zero are skipped. */
  datatype Step = End | Broken | Item(x: SnapItem, rest: bytes)

  function NextStep(s: bytes): (r: Step)
    ensures r.Item? ==> |r.rest| < |s|
    decreases |s|
  {
    if s == [] then End
    else
      match Uvarint(s)
      case None => Broken
      case Some((len, m)) =>
        if len == 0 then NextStep(s[m..])
        else if len > MAX_ENVELOPE || m + len > |s| then Broken
        else
          match DecodeEnvelope(s[m..m + len])
          case None => Broken
          case Some(x) => Item(x, s[m + len..])
  }

  /** The items of a byte string; None when reading fails somewhere. */
  function Items(s: bytes): Option<seq<SnapItem>>
    decreases |s|
  {
    match NextStep(s)
    case End => Some([])
    case Broken => None
    case Item(x, rest) =>
      match Items(rest)
      case None => None
      case Some(more) => Some([x] + more)
  }

  /** The reader over a stream. */
  class Reader {
    const data: bytes
    var pos: nat

    ghost predicate Valid() reads this { pos <= |data| }
    ghost function Todo(): bytes reads this requires Valid() { data[pos..] }

    constructor (data: bytes)
      ensures Valid() && this.data == data && Todo() == data
    {
      this.data, pos := data, 0;
    }

    method Next() returns (r: Option<SnapItem>, failed: bool)
      requires Valid()
      modifies this
      ensures Valid()
      ensures match NextStep(old(Todo()))
              case End => r.None? && !failed
              case Broken => r.None? && failed
              case Item(x, rest) => r == Some(x) && !failed && Todo() == rest
    {
      hide Uvarint, DecodeEnvelope;
      ghost var s := Todo();
      while true
        invariant Valid() && NextStep(s) == NextStep(data[pos..])
        decreases |data| - pos
      {
        if pos == |data| {
          return None, false;
        }
        var len, m;
        match Uvarint(data[pos..]) {
          case None => return None, true;
          case Some((l, n)) => len, m := l, n;
        }
        assert data[pos..][m..] == data[pos + m..];
        if len == 0 {
          pos := pos + m;
          continue;
        }
        if len > MAX_ENVELOPE || m + len > |data| - pos {
          return None, true;
        }
        assert data[pos..][m..m + len] == data[pos + m..pos + m + len]
          && data[pos..][m + len..] == data[pos + m + len..];
        var x := DecodeEnvelope(data[pos + m..pos + m + len]);
        pos := pos + m + len;
        return x, x.None?;
      }
    }
  }

  /** Reads a stream to its end. */
  method ReadAll(data: bytes) returns (items: Option<seq<SnapItem>>)
    ensures items == Items(data)
  {
    hide NextStep, Reader.Todo;
    var reader := new Reader(data);
    var done: seq<SnapItem> := [];
    PrefixedNone(Items(data));
    while true
      invariant reader.Valid() && fresh(reader) && reader.data == data
      invariant Items(data) == Prefixed(done, Items(reader.Todo()))
      decreases |reader.Todo()|
    {
      ghost var before := reader.Todo();
      NextShrinks(before);
      var x, failed := reader.Next();
      if failed {
        return None;
      }
      if x.None? {
        assert done + [] == done;
        return Some(done);
      }
      PrefixedMore(done, x.value, Items(reader.Todo()));
      done := done + [x.value];
    }
  }

  function Prefixed(done: seq<SnapItem>, more: Option<seq<SnapItem>>): Option<seq<SnapItem>> {
    if more.None? then None else Some(done + more.value)
  }

  lemma PrefixedNone(more: Option<seq<SnapItem>>)
    ensures Prefixed([], more) == more
  {
    if more.Some? {
      assert [] + more.value == more.value;
    }
  }

  lemma PrefixedMore(done: seq<SnapItem>, x: SnapItem, more: Option<seq<SnapItem>>)
    ensures Prefixed(done, Prefixed([x], more)) == Prefixed(done + [x], more)
  {
    if more.Some? {
      assert done + ([x] + more.value) == done + [x] + more.value;
    }
  }

  lemma NextShrinks(s: bytes)
    ensures NextStep(s).Item? ==> |NextStep(s).rest| < |s|
  {}
}
