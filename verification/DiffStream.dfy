/** The body of a diff: length-prefixed records, grouped in store and extension sections, and its reader. */
module DiffStream {
  import opened Bytes
  import opened Proto
  import opened LeafDiff
  import opened LeafApply

  datatype DiffRecord =
    | StoreEnter(name: bytes) | StoreLeave
    | Changed(change: Change)
    | ExtEnter(ext: bytes, format: uint32) | ExtLeave
    | ExtAdd(payload: bytes) | ExtRemove(payload: bytes)

  function TagOf(r: DiffRecord): (tag: nat)
    ensures 1 <= tag <= 9
  {
    match r
    case StoreEnter(_) => 1
    case StoreLeave => 2
    case Changed(Insert(_, _)) => 3
    case Changed(Update(_, _)) => 4
    case Changed(Delete(_)) => 5
    case ExtEnter(_, _) => 6
    case ExtLeave => 7
    case ExtAdd(_) => 8
    case ExtRemove(_) => 9
  }

  function BodyOf(r: DiffRecord): bytes {
    match r
    case StoreEnter(name) => BytesField(1, name)
    case StoreLeave => []
    case Changed(Insert(k, v)) => OutItem(k, v)
    case Changed(Update(k, v)) => OutItem(k, v)
    case Changed(Delete(k)) => BytesField(1, k)
    case ExtEnter(name, format) => BytesField(1, name) + VarintField(2, format)
    case ExtLeave => []
    case ExtAdd(p) => BytesField(1, p)
    case ExtRemove(p) => BytesField(1, p)
  }

  /** A record on the wire: the length of the message, then the message. */
  function Framed(r: DiffRecord): bytes {
    PutBytes(OneOf(TagOf(r), BodyOf(r)))
  }

  function Written(rs: seq<DiffRecord>): bytes {
    if rs == [] then [] else Framed(rs[0]) + Written(rs[1..])
  }

  /** Byte strings short enough for every length prefix around them. */
  predicate Short(b: bytes) { |b| < 0x1_0000_0000_0000 }

  predicate Fits(r: DiffRecord) {
    match r
    case StoreEnter(name) => Short(name)
    case Changed(Insert(k, v)) => Short(k) && Short(v)
    case Changed(Update(k, v)) => Short(k) && Short(v)
    case Changed(Delete(k)) => Short(k)
    case ExtEnter(name, _) => Short(name)
    case ExtAdd(p) => Short(p)
    case ExtRemove(p) => Short(p)
    case _ => true
  }

  predicate AllFit(rs: seq<DiffRecord>) {
    forall r :: r in rs ==> Fits(r)
  }

  // ---------- reading one record ----------

  datatype Peek = End | Broken | Record(tag: nat, body: bytes, rest: bytes)

  /** The next record of a stream: records of length zero are skipped, and a stream that ends inside a record
      has ended. */
  function Next(s: bytes): Peek
    decreases |s|
  {
    match GetUvarint(s)
    case Fail => if |s| < 10 then End else Broken
    case Got(n, rest) =>
      if n == 0 then Next(rest)
      else if n > |rest| then End
      else
        var rec := rest[..n];
        match GetBytes(rec[1..])
        case Fail => Broken
        case Got(body, _) => Record(rec[0] / 8, body, rest[n..])
  }

  lemma {:induction false} UvarintLength(x: nat)
    requires x < 0x1_0000_0000_0000_0000
    ensures |PutUvarint(x)| <= 10
  {
    RoomIs64Bits();
    UvarintShort(x, 0);
  }

  lemma {:induction false} UvarintShort(x: nat, i: nat)
    requires i <= 9 && x < Room(i)
    ensures |PutUvarint(x)| <= 10 - i
    decreases 10 - i
  {
    if x >= 128 {
      UvarintShort(x / 128, i + 1);
    }
  }

  lemma FieldLength(field: nat, b: bytes)
    requires 1 <= field < 16 && |b| < TWO_64
    ensures |BytesField(field, b)| <= |b| + 11
  {
    UvarintLength(|b|);
    hide PutUvarint;
  }

  lemma BodyShort(r: DiffRecord)
    requires Fits(r)
    ensures |BodyOf(r)| < 0x4_0000_0000_0000
  {
    hide BytesField, VarintField;
    match r {
      case StoreEnter(name) => FieldLength(1, name);
      case Changed(Insert(k, v)) => FieldLength(1, k); FieldLength(2, v);
      case Changed(Update(k, v)) => FieldLength(1, k); FieldLength(2, v);
      case Changed(Delete(k)) => FieldLength(1, k);
      case ExtEnter(name, format) => FieldLength(1, name); VarintLength(2, format);
      case ExtAdd(p) => FieldLength(1, p);
      case ExtRemove(p) => FieldLength(1, p);
      case _ => {}
    }
  }

  lemma VarintLength(field: nat, v: uint64)
    requires 1 <= field < 16
    ensures |VarintField(field, v)| <= 11
  {
    UvarintLength(v);
  }

  /** What is written is read back: tag, body, and the rest of the stream. */
  lemma NextRoundTrip(r: DiffRecord, rest: bytes)
    requires Fits(r)
    ensures Next(Framed(r) + rest) == Record(TagOf(r), BodyOf(r), rest)
  {
    var body, tag := BodyOf(r), TagOf(r);
    var msg := OneOf(tag, body);
    BodyShort(r);
    hide TagOf, BodyOf, Fits;
    assert |msg| <= |body| + 11 by {
      UvarintLength(|body|);
      hide PutUvarint;
    }
    assert Framed(r) + rest == PutUvarint(|msg|) + (msg + rest);
    GetUvarintRoundTrip(|msg|, msg + rest);
    assert (msg + rest)[..|msg|] == msg && (msg + rest)[|msg|..] == rest;
    assert msg[1..] == PutBytes(body) == PutBytes(body) + [];
    GetBytesRoundTrip(body, []);
    hide PutUvarint, GetBytes, GetUvarint;
  }

  // ---------- what a record means ----------

  /** The change of a store record, from its tag and body. */
  function ChangeOf(tag: nat, body: bytes): Option<Change> {
    if tag == 3 then Some(Insert(FindBytes(body, 1), FindBytes(body, 2)))
    else if tag == 4 then Some(Update(FindBytes(body, 1), FindBytes(body, 2)))
    else if tag == 5 then Some(Delete(FindBytes(body, 1)))
    else None
  }

  lemma ChangeRoundTrip(r: DiffRecord)
    requires Fits(r)
    ensures ChangeOf(TagOf(r), BodyOf(r)) == if r.Changed? then Some(r.change) else None
  {
    hide BytesField, FindBytes, VarintField;
    match r {
      case Changed(Insert(k, v)) => OutItemReads(k, v);
      case Changed(Update(k, v)) => OutItemReads(k, v);
      case Changed(Delete(k)) => FindOnly(1, k);
      case _ => {}
    }
  }

  lemma FindOnly(field: nat, b: bytes)
    requires 1 <= field < 16 && |b| < TWO_64
    ensures FindBytes(BytesField(field, b), field) == b
  {
    assert BytesField(field, b) + [] == BytesField(field, b);
    FindFirst(field, b, []);
  }

  /** Names, formats and payloads are read back. */
  lemma BodyRoundTrip(r: DiffRecord)
    requires Fits(r)
    ensures r.StoreEnter? ==> FindBytes(BodyOf(r), 1) == r.name
    ensures r.ExtEnter? ==> FindBytes(BodyOf(r), 1) == r.ext && FindVarint(BodyOf(r), 2) == r.format
    ensures r.ExtAdd? || r.ExtRemove? ==> FindBytes(BodyOf(r), 1) == r.payload
  {
    hide BytesField, FindBytes, FindVarint, VarintField;
    match r {
      case StoreEnter(name) => FindOnly(1, name);
      case ExtEnter(name, format) =>
        var v := VarintField(2, format);
        FindFirst(1, name, v);
        FindLater(1, name, v, 2);
        assert v + [] == v;
        FindVarintFirst(2, format, []);
      case ExtAdd(p) => FindOnly(1, p);
      case ExtRemove(p) => FindOnly(1, p);
      case _ => {}
    }
  }

  // ---------- sections ----------

  /** The changes up to the end of a store section, and what follows it. A section ends with its leave record,
      or where the next section starts. */
  function TakeChanges(rs: seq<DiffRecord>): (r: (seq<Change>, seq<DiffRecord>))
    ensures |r.1| <= |rs|
  {
    if rs == [] then ([], [])
    else match rs[0]
      case StoreLeave => ([], rs[1..])
      case StoreEnter(_) => ([], rs)
      case ExtEnter(_, _) => ([], rs)
      case Changed(c) =>
        var (cs, rest) := TakeChanges(rs[1..]);
        ([c] + cs, rest)
      case _ => TakeChanges(rs[1..])
  }

  datatype ExtChanges = ExtChanges(format: uint32, adds: seq<bytes>, removes: seq<bytes>)

  /** The payloads added and removed up to the end of an extension section. */
  function TakeExt(rs: seq<DiffRecord>): (r: (seq<bytes>, seq<bytes>, seq<DiffRecord>))
    ensures |r.2| <= |rs|
  {
    if rs == [] then ([], [], [])
    else match rs[0]
      case ExtLeave => ([], [], rs[1..])
      case StoreEnter(_) => ([], [], rs)
      case ExtEnter(_, _) => ([], [], rs)
      case ExtAdd(p) =>
        var (adds, removes, rest) := TakeExt(rs[1..]);
        ([p] + adds, removes, rest)
      case ExtRemove(p) =>
        var (adds, removes, rest) := TakeExt(rs[1..]);
        (adds, [p] + removes, rest)
      case _ => TakeExt(rs[1..])
  }

  /** One record of an extension section, by its tag. */
  lemma TakeExtStep(rs: seq<DiffRecord>)
    requires rs != []
    ensures var tag, r, rest := TagOf(rs[0]), TakeExt(rs), TakeExt(rs[1..]);
            if tag == 1 || tag == 6 then r == ([], [], rs)
            else if tag == 7 then r == ([], [], rs[1..])
            else if tag == 8 then rs[0].ExtAdd? && r == ([rs[0].payload] + rest.0, rest.1, rest.2)
            else if tag == 9 then rs[0].ExtRemove? && r == (rest.0, [rs[0].payload] + rest.1, rest.2)
            else r == rest
  {}

  /** The stream from the next section header on. */
  function ToSection(rs: seq<DiffRecord>): (r: seq<DiffRecord>)
    ensures r != [] ==> r[0].StoreEnter? || r[0].ExtEnter?
    ensures |r| <= |rs|
  {
    if rs == [] || rs[0].StoreEnter? || rs[0].ExtEnter? then rs else ToSection(rs[1..])
  }

  datatype Section = StoreSection(name: bytes) | ExtSection(name: bytes, format: uint32) | NoSection

  function SectionOf(rs: seq<DiffRecord>): Section {
    if rs == [] then NoSection
    else match rs[0]
      case StoreEnter(name) => StoreSection(name)
      case ExtEnter(name, format) => ExtSection(name, format)
      case _ => NoSection
  }

  /** The lazy reader of a diff body, with a one-record look-ahead. */
  class DiffReader {
    var stream: bytes
    var pending: bool
    var pendingTag: nat
    var pendingBody: bytes
    var eof: bool
    ghost var todo: seq<DiffRecord>   // the records that have not been consumed

    ghost predicate Valid()
      reads this
    {
      && AllFit(todo)
      && (eof ==> todo == [] && !pending)
      && (!eof && !pending ==> stream == Written(todo))
      && (pending ==> todo != [] && pendingTag == TagOf(todo[0]) && pendingBody == BodyOf(todo[0])
                      && stream == Written(todo[1..]))
    }

    constructor (stream: bytes, ghost rs: seq<DiffRecord>)
      requires AllFit(rs) && stream == Written(rs)
      ensures Valid() && todo == rs
    {
      this.stream, pending, pendingTag, pendingBody, eof, todo := stream, false, 0, [], false, rs;
    }

    /** Looks at the next record; repeated calls see the same one. */
    method PeekRecord() returns (found: bool, tag: nat, body: bytes)
      requires Valid()
      modifies this
      ensures Valid() && todo == old(todo)
      ensures found <==> todo != []
      ensures found ==> tag == TagOf(todo[0]) && body == BodyOf(todo[0])
      ensures found ==> pending
    {
      hide TagOf, BodyOf, Fits;
      if eof {
        return false, 0, [];
      }
      if pending {
        return true, pendingTag, pendingBody;
      }
      if todo != [] {
        NextRoundTrip(todo[0], Written(todo[1..]));
      }
      hide Framed;
      var next := Next(stream);
      if next.Record? {
        pending, pendingTag, pendingBody, stream := true, next.tag, next.body, next.rest;
        return true, next.tag, next.body;
      }
      eof := next.End?;
      return false, 0, [];
    }

    method ConsumeRecord()
      requires Valid() && pending
      modifies this
      ensures Valid() && todo == old(todo)[1..]
    {
      hide TagOf, BodyOf, Fits, Framed;
      pending := false;
      todo := todo[1..];
    }

    /** The next section header; stray records before it are dropped. */
    method PeekSection() returns (sec: Section)
      requires Valid()
      modifies this
      ensures Valid() && todo == ToSection(old(todo)) && sec == SectionOf(todo)
      ensures !sec.NoSection? ==> pending
    {
      hide BodyOf, FindBytes, FindVarint;
      while true
        invariant Valid() && ToSection(todo) == ToSection(old(todo))
        decreases |todo|
      {
        var found, tag, body := PeekRecord();
        if !found {
          return NoSection;
        }
        BodyRoundTrip(todo[0]);
        if tag == 1 {
          return StoreSection(FindBytes(body, 1));
        }
        if tag == 6 {
          return ExtSection(FindBytes(body, 1), FindVarint(body, 2) % TWO_32);
        }
        ConsumeRecord();
      }
    }

    /** Drains the records of a store section into a change set. */
    method ReadStoreChanges() returns (ch: ChangeSet)
      requires Valid()
      modifies this
      ensures Valid() && todo == TakeChanges(old(todo)).1
      ensures ch == Collect(TakeChanges(old(todo)).0)
    {
      hide BodyOf, FindBytes, FindVarint, Collect, LeafApply.Record;
      ghost var cs: seq<Change> := [];
      ch := NO_CHANGES;
      CollectNone();
      ghost var more := TakeChanges(todo).0;
      assert [] + more == more;
      while true
        invariant Valid() && ch == Collect(cs)
        invariant cs + TakeChanges(todo).0 == TakeChanges(old(todo)).0
        invariant TakeChanges(todo).1 == TakeChanges(old(todo)).1
        decreases |todo|
      {
        var found, tag, body := PeekRecord();
        if !found {
          assert cs + [] == cs;
          return;
        }
        ChangeRoundTrip(todo[0]);
        if tag == 1 || tag == 6 {
          assert cs + [] == cs;
          return;
        }
        ghost var here := todo;
        ConsumeRecord();
        if tag == 2 {
          assert cs + [] == cs;
          return;
        }
        var change := ChangeOf(tag, body);
        if change.Some? {
          CollectAppend(cs, change.value);
          assert cs + ([change.value] + TakeChanges(todo).0) == (cs + [change.value]) + TakeChanges(todo).0;
          cs := cs + [change.value];
          ch := LeafApply.Record(ch, change.value);
        }
      }
    }

    /** Drains the records of an extension section. */
    method ReadExtChanges(format: uint32) returns (ch: ExtChanges)
      requires Valid()
      modifies this
      ensures Valid() && todo == TakeExt(old(todo)).2
      ensures ch == ExtChanges(format, TakeExt(old(todo)).0, TakeExt(old(todo)).1)
    {
      hide BodyOf, TagOf, FindBytes, FindVarint, TakeExt;
      assert TakeExt([]) == ([], [], []) by { TakeExtNone(); }
      ch := ExtChanges(format, [], []);
      while true
        invariant Valid() && ch.format == format
        invariant ch.adds + TakeExt(todo).0 == TakeExt(old(todo)).0
        invariant ch.removes + TakeExt(todo).1 == TakeExt(old(todo)).1
        invariant TakeExt(todo).2 == TakeExt(old(todo)).2
        decreases |todo|
      {
        var found, tag, body := PeekRecord();
        if !found {
          return;
        }
        TakeExtStep(todo);
        BodyRoundTrip(todo[0]);
        if tag == 1 || tag == 6 {
          return;
        }
        ConsumeRecord();
        if tag == 7 {
          return;
        }
        if tag == 8 {
          ch := ch.(adds := ch.adds + [FindBytes(body, 1)]);
        }
        if tag == 9 {
          ch := ch.(removes := ch.removes + [FindBytes(body, 1)]);
        }
      }
    }
  }

  lemma TakeExtNone()
    ensures TakeExt([]) == ([], [], [])
  {}

  lemma CollectNone()
    ensures Collect([]) == NO_CHANGES
  {}

  // ---------- sections of a written diff ----------

  /** The records of one store section. */
  function StoreRecords(name: bytes, cs: seq<Change>): seq<DiffRecord> {
    [StoreEnter(name)] + ChangeRecords(cs)
  }

  function ChangeRecords(cs: seq<Change>): seq<DiffRecord> {
    if cs == [] then [StoreLeave] else [Changed(cs[0])] + ChangeRecords(cs[1..])
  }

  lemma {:induction false} TakesSection(cs: seq<Change>, more: seq<DiffRecord>)
    ensures TakeChanges(ChangeRecords(cs) + more) == (cs, more)
  {
    var rs := ChangeRecords(cs) + more;
    if cs == [] {
      assert rs[1..] == more;
    } else {
      assert rs[1..] == ChangeRecords(cs[1..]) + more;
      TakesSection(cs[1..], more);
      assert [cs[0]] + cs[1..] == cs;
    }
  }
}
