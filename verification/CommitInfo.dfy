/** The commit-info record: the root hash of every store at a version, written field by field after an import and
    parsed back by the verifier. Reading what was written returns the stores, also those with an empty hash. */
module CommitInfo {
  import opened Bytes
  import opened Proto

  /** A store's name and root hash; a store without nodes has the empty hash. */
  datatype StoreInfo = StoreInfo(name: bytes, hash: bytes)

  // ---------- the encoder ----------

  function EncodeCommitId(version: int64, hash: bytes): bytes {
    VarintField(1, U64(version)) + BytesField(2, hash)
  }

  function EncodeStoreInfo(si: StoreInfo, version: int64): bytes {
    BytesField(1, si.name) + BytesField(2, EncodeCommitId(version, si.hash))
  }

  function StoreFields(version: int64, infos: seq<StoreInfo>): bytes {
    if infos == [] then [] else BytesField(2, EncodeStoreInfo(infos[0], version)) + StoreFields(version, infos[1..])
  }

  /** The whole record: the version, then one field for each store in order. */
  function Encoded(version: int64, infos: seq<StoreInfo>): bytes {
    VarintField(1, U64(version)) + StoreFields(version, infos)
  }

  method CommitInfoBytes(version: int64, infos: seq<StoreInfo>) returns (out: bytes)
    ensures out == Encoded(version, infos)
  {
    hide VarintField, BytesField, EncodeStoreInfo;
    out := VarintField(1, U64(version));
    for i := 0 to |infos|
      invariant out + StoreFields(version, infos[i..]) == Encoded(version, infos)
    {
      ghost var before := out;
      var field := BytesField(2, EncodeStoreInfo(infos[i], version));
      out := out + field;
      assert infos[i..][0] == infos[i] && infos[i..][1..] == infos[i + 1..];
      assert out + StoreFields(version, infos[i + 1..]) == before + (field + StoreFields(version, infos[i + 1..]));
    }
    assert infos[|infos|..] == [] && out + [] == out;
  }

  // ---------- slices of a length read from the wire ----------

  const TWO_63: nat := 0x8000_0000_0000_0000

  function Int64(x: int): int64 {
    (x + TWO_63) % TWO_64 - TWO_63
  }

  /** A length-delimited field: its bytes and what follows it, an error, or a slice expression that panics. */
  datatype Field = Slice(b: bytes, rest: bytes) | Malformed | OutOfRange

  /** A field whose length is compared with the buffer first; pos is where s starts in the buffer. The comparison
      is made in signed 64-bit arithmetic, so a length that overflows it gets through and panics. */
  function Checked(s: bytes, pos: nat): Field {
    match Uvarint(s)
    case None => Malformed
    case Some((n, m)) =>
      if n <= |s| - m then Slice(s[m..m + n], s[m + n..])
      else if pos + m + n < TWO_63 then Malformed
      else OutOfRange
  }

  /** A field whose length is not compared: the slice may reach past the buffer into the enclosing one, of which
      the bytes in after follow, and panics only past the end of that. */
  function Unchecked(s: bytes, after: bytes): Field {
    match Uvarint(s)
    case None => Malformed
    case Some((n, m)) =>
      if n <= |s| - m then Slice(s[m..m + n], s[m + n..])
      else if n <= |s| - m + |after| then Slice((s[m..] + after)[..n], [])
      else OutOfRange
  }

  lemma IntWraps(n: uint64)
    ensures Int64(n) == if n < TWO_63 then n else n - TWO_64
  {
    if n >= TWO_63 {
      assert (n + TWO_63) % TWO_64 == n - TWO_63;
    }
  }

  lemma EndWraps(i: nat, n: uint64)
    requires i < TWO_63
    ensures Int64(i + Int64(n)) == if n < TWO_63 && i + n < TWO_63 then i + n else i + n - TWO_64
  {
    IntWraps(n);
    if n < TWO_63 <= i + n {
      IntWraps(i + n);
    }
  }

  lemma UvarintFits(s: bytes)
    requires Uvarint(s).Some?
    ensures Uvarint(s).value.0 < TWO_64 && Uvarint(s).value.1 <= |s|
  {
    RoomIs64Bits();
    UvarintBound(s, 0);
  }

  method ReadChecked(buf: bytes, i: nat) returns (f: Field, next: nat)
    requires i <= |buf| < TWO_63
    ensures f == Checked(buf[i..], i)
    ensures f.Slice? ==> i < next <= |buf| && buf[next..] == f.rest
  {
    hide Uvarint;
    var s := buf[i..];
    next := i;
    match Uvarint(s) {
      case None => f := Malformed;
      case Some((ln, m)) =>
        UvarintFits(s);
        EndWraps(i + m, ln);
        var end := Int64(i + m + Int64(ln));
        if end > |buf| {
          return Malformed, i;
        }
        if end < i + m {
          return OutOfRange, i;
        }
        f, next := Slice(buf[i + m..end], buf[end..]), end;
        assert buf[i + m..end] == s[m..m + ln] && buf[end..] == s[m + ln..];
    }
  }

  method ReadName(buf: bytes, after: bytes, i: nat) returns (f: Field, next: nat)
    requires i <= |buf| && |buf| + |after| < TWO_63
    ensures f == Unchecked(buf[i..], after)
    ensures f.Slice? ==> i < next && f.rest == if next <= |buf| then buf[next..] else []
  {
    hide Uvarint;
    var s := buf[i..];
    next := i;
    match Uvarint(s) {
      case None => f := Malformed;
      case Some((ln, m)) =>
        UvarintFits(s);
        EndWraps(i + m, ln);
        var whole := buf + after;
        var end := Int64(i + m + Int64(ln));
        if end < i + m || end > |whole| {
          return OutOfRange, i;
        }
        f, next := Slice(whole[i + m..end], if end <= |buf| then buf[end..] else []), end;
        if end <= |buf| {
          assert whole[i + m..end] == s[m..m + ln] && buf[end..] == s[m + ln..];
        } else {
          assert whole[i + m..end] == (s[m..] + after)[..ln];
        }
    }
  }

  // ---------- what the parsers compute ----------

  datatype Outcome<+T> = Done(value: T) | Bad | Panic

  /** The last hash field of a commit id; versions are skipped, any other field is an error. */
  function CommitIdHash(s: bytes, pos: nat, hash: bytes): Outcome<bytes>
    decreases |s|
  {
    if s == [] then Done(hash)
    else if s[0] == 0x08 then
      match GetUvarint(s[1..])
      case Fail => Bad
      case Got(_, rest) => CommitIdHash(rest, pos + |s| - |rest|, hash)
    else if s[0] == 0x12 then
      match Checked(s[1..], pos + 1)
      case Malformed => Bad
      case OutOfRange => Panic
      case Slice(h, rest) => CommitIdHash(rest, pos + |s| - |rest|, h)
    else Bad
  }

  /** Name and hash of a store info. A name that runs past the end takes what follows and ends the parse. */
  function StoreInfoOf(s: bytes, pos: nat, after: bytes, si: StoreInfo): Outcome<StoreInfo>
    decreases |s|
  {
    if s == [] then Done(si)
    else if s[0] == 0x0A then
      match Unchecked(s[1..], after)
      case Malformed => Bad
      case OutOfRange => Panic
      case Slice(name, rest) => StoreInfoOf(rest, pos + |s| - |rest|, after, si.(name := name))
    else if s[0] == 0x12 then
      match Checked(s[1..], pos + 1)
      case Malformed => Bad
      case OutOfRange => Panic
      case Slice(id, rest) =>
        (match CommitIdHash(id, 0, [])
         case Bad => Bad
         case Panic => Panic
         case Done(h) => StoreInfoOf(rest, pos + |s| - |rest|, after, si.(hash := h)))
    else Bad
  }

  /** The stores of a record; each store info is a slice whose capacity reaches to the end of the record. */
  function StoreInfosOf(s: bytes, pos: nat, infos: seq<StoreInfo>): Outcome<seq<StoreInfo>>
    decreases |s|
  {
    if s == [] then Done(infos)
    else if s[0] == 0x08 then
      match GetUvarint(s[1..])
      case Fail => Bad
      case Got(_, rest) => StoreInfosOf(rest, pos + |s| - |rest|, infos)
    else if s[0] == 0x12 then
      match Checked(s[1..], pos + 1)
      case Malformed => Bad
      case OutOfRange => Panic
      case Slice(b, rest) =>
        (match StoreInfoOf(b, 0, rest, NO_STORE)
         case Bad => Bad
         case Panic => Panic
         case Done(si) => StoreInfosOf(rest, pos + |s| - |rest|, infos + [si]))
    else Bad
  }

  const NO_STORE := StoreInfo([], [])

  // ---------- the parsers ----------

  method ParseCommitId(buf: bytes) returns (r: Outcome<bytes>)
    requires |buf| < TWO_63
    ensures r == CommitIdHash(buf, 0, [])
  {
    hide Checked, GetUvarint;
    var hash: bytes := [];
    var i := 0;
    while i < |buf|
      invariant 0 <= i <= |buf|
      invariant CommitIdHash(buf, 0, []) == CommitIdHash(buf[i..], i, hash)
    {
      var tag := buf[i];
      i := i + 1;
      var field, wire := tag / 8, tag % 8;
      if field == 1 && wire == 0 {
        match GetUvarint(buf[i..]) {
          case Fail => return Bad;
          case Got(_, rest) =>
            Rest(buf, i, rest);
            i := |buf| - |rest|;
        }
      } else if field == 2 && wire == 2 {
        var f, next := ReadChecked(buf, i);
        match f {
          case Malformed => return Bad;
          case OutOfRange => return Panic;
          case Slice(h, _) =>
            hash := h;
            i := next;
        }
      } else {
        return Bad;
      }
    }
    r := Done(hash);
  }

  /** The store info in buf, a slice that the bytes of the enclosing record follow. */
  method ParseStoreInfo(buf: bytes, after: bytes) returns (r: Outcome<StoreInfo>)
    requires |buf| + |after| < TWO_63
    ensures r == StoreInfoOf(buf, 0, after, NO_STORE)
  {
    hide Checked, Unchecked, CommitIdHash;
    var si := NO_STORE;
    var i := 0;
    while i < |buf|
      invariant 0 <= i
      invariant StoreInfoOf(buf, 0, after, NO_STORE) == if i <= |buf| then StoreInfoOf(buf[i..], i, after, si)
        else Done(si)
      decreases |buf| - i
    {
      var tag := buf[i];
      i := i + 1;
      var field, wire := tag / 8, tag % 8;
      if field == 1 && wire == 2 {
        var f, next := ReadName(buf, after, i);
        match f {
          case Malformed => return Bad;
          case OutOfRange => return Panic;
          case Slice(name, _) =>
            si := si.(name := name);
            i := next;
        }
      } else if field == 2 && wire == 2 {
        var f, next := ReadChecked(buf, i);
        match f {
          case Malformed => return Bad;
          case OutOfRange => return Panic;
          case Slice(id, _) =>
            CheckedShrinks(buf[i..], i);
            var h := ParseCommitId(id);
            match h {
              case Bad => return Bad;
              case Panic => return Panic;
              case Done(hash) => si := si.(hash := hash);
            }
            i := next;
        }
      } else {
        return Bad;
      }
    }
    r := Done(si);
  }

  method ParseCommitInfo(buf: bytes) returns (r: Outcome<seq<StoreInfo>>)
    requires |buf| < TWO_63
    ensures r == StoreInfosOf(buf, 0, [])
  {
    hide Checked, GetUvarint, StoreInfoOf;
    var infos: seq<StoreInfo> := [];
    var i := 0;
    while i < |buf|
      invariant 0 <= i <= |buf|
      invariant StoreInfosOf(buf, 0, []) == StoreInfosOf(buf[i..], i, infos)
    {
      var tag := buf[i];
      i := i + 1;
      var field, wire := tag / 8, tag % 8;
      if field == 1 && wire == 0 {
        match GetUvarint(buf[i..]) {
          case Fail => return Bad;
          case Got(_, rest) =>
            Rest(buf, i, rest);
            i := |buf| - |rest|;
        }
      } else if field == 2 && wire == 2 {
        var f, next := ReadChecked(buf, i);
        match f {
          case Malformed => return Bad;
          case OutOfRange => return Panic;
          case Slice(b, rest) =>
            CheckedShrinks(buf[i..], i);
            var si := ParseStoreInfo(b, buf[next..]);
            match si {
              case Bad => return Bad;
              case Panic => return Panic;
              case Done(x) => infos := infos + [x];
            }
            i := next;
        }
      } else {
        return Bad;
      }
    }
    r := Done(infos);
  }

  lemma CheckedShrinks(s: bytes, pos: nat)
    ensures Checked(s, pos).Slice? ==> |Checked(s, pos).b| + |Checked(s, pos).rest| <= |s|
  {
    hide Uvarint;
  }

  /** What a varint leaves is the end of the buffer. */
  lemma Rest(buf: bytes, i: nat, rest: bytes)
    requires i <= |buf| && GetUvarint(buf[i..]).Got? && rest == GetUvarint(buf[i..]).rest
    ensures |rest| <= |buf| - i && buf[|buf| - |rest|..] == rest
  {
    hide Uvarint;
    var s := buf[i..];
    assert s[|s| - |rest|..] == rest;
  }

  // ---------- names that do not fit ----------

  predicate NameFits(s: bytes) {
    match Uvarint(s)
    case None => true
    case Some((n, m)) => n <= |s| - m
  }

  /** The parse with the check that the name field lacks. */
  function Strict(s: bytes, pos: nat, si: StoreInfo): Outcome<StoreInfo>
    decreases |s|
  {
    if s == [] then Done(si)
    else if s[0] == 0x0A then
      match if NameFits(s[1..]) then Unchecked(s[1..], []) else Malformed
      case Malformed => Bad
      case OutOfRange => Panic
      case Slice(name, rest) => Strict(rest, pos + |s| - |rest|, si.(name := name))
    else if s[0] == 0x12 then
      match Checked(s[1..], pos + 1)
      case Malformed => Bad
      case OutOfRange => Panic
      case Slice(id, rest) =>
        (match CommitIdHash(id, 0, [])
         case Bad => Bad
         case Panic => Panic
         case Done(h) => Strict(rest, pos + |s| - |rest|, si.(hash := h)))
    else Bad
  }

  /** Every name length that the parse comes to is within the store info. */
  predicate NamesFit(s: bytes, pos: nat)
    decreases |s|
  {
    if s == [] then true
    else if s[0] == 0x0A then
      NameFits(s[1..]) &&
      match Unchecked(s[1..], [])
      case Slice(_, rest) => NamesFit(rest, pos + |s| - |rest|)
      case _ => true
    else if s[0] == 0x12 then
      match Checked(s[1..], pos + 1)
      case Slice(id, rest) => CommitIdHash(id, 0, []).Done? ==> NamesFit(rest, pos + |s| - |rest|)
      case _ => true
    else true
  }

  /** The parser rejects what does not fit exactly when all name lengths fit. A name length that does not is never
      reported as an error: the parse goes on with foreign bytes or panics. */
  lemma {:induction false} NamesFitIff(s: bytes, pos: nat, after: bytes, si: StoreInfo)
    ensures StoreInfoOf(s, pos, after, si) == Strict(s, pos, si) <==> NamesFit(s, pos)
    decreases |s|
  {
    hide NameFits, Unchecked, Checked, CommitIdHash;
    if s == [] {
    } else if s[0] == 0x0A {
      NameStep(s[1..], after);
      var f := Unchecked(s[1..], []);
      if NameFits(s[1..]) && f.Slice? {
        NamesFitIff(f.rest, pos + |s| - |f.rest|, after, si.(name := f.b));
      }
    } else if s[0] == 0x12 && Checked(s[1..], pos + 1).Slice? {
      var f := Checked(s[1..], pos + 1);
      CheckedShrinks(s[1..], pos + 1);
      var h := CommitIdHash(f.b, 0, []);
      if h.Done? {
        NamesFitIff(f.rest, pos + |s| - |f.rest|, after, si.(hash := h.value));
      }
    }
  }

  /** A name that fits is read the same whatever follows the store info; one that does not ends the parse. */
  lemma NameStep(s: bytes, after: bytes)
    ensures NameFits(s) ==> Unchecked(s, after) == Unchecked(s, []) && Unchecked(s, []) != OutOfRange
    ensures NameFits(s) && Unchecked(s, []).Slice? ==> |Unchecked(s, []).rest| <= |s|
    ensures !NameFits(s) ==>
      Unchecked(s, after) == OutOfRange || (Unchecked(s, after).Slice? && Unchecked(s, after).rest == [])
  {
    hide Uvarint;
  }

  const SHORT_INFO: bytes := [0x0A, 5, 97]
  const TWO_VERSIONS: bytes := [0x08, 1, 0x08, 1]

  /** A name of length 5 in a store info of one more byte: four bytes of the enclosing record are taken for the name
      when there are as many, and otherwise the parser panics. */
  lemma LongNames()
    ensures StoreInfosOf([0x12, 3] + SHORT_INFO + TWO_VERSIONS, 0, []) == Done([StoreInfo([97, 8, 1, 8, 1], [])])
    ensures StoreInfosOf([0x12, 3] + SHORT_INFO, 0, []) == Panic
  {
    hide Unchecked, Checked, StoreInfoOf, StoreInfosOf;
    TakesFour();
    OneStore(TWO_VERSIONS);
    OneStore([]);
    assert [0x12, 3] + SHORT_INFO + [] == [0x12, 3] + SHORT_INFO;
    SkipsVersions([StoreInfo([97, 8, 1, 8, 1], [])]);
  }

  lemma TakesFour()
    ensures StoreInfoOf(SHORT_INFO, 0, TWO_VERSIONS, NO_STORE) == Done(StoreInfo([97, 8, 1, 8, 1], []))
    ensures StoreInfoOf(SHORT_INFO, 0, [], NO_STORE) == Panic
  {
    var s := SHORT_INFO[1..];
    assert s == [5, 97] && Uvarint(s) == Some((5, 1));
    assert (s[1..] + TWO_VERSIONS)[..5] == [97, 8, 1, 8, 1];
    assert Unchecked(s, TWO_VERSIONS) == Slice([97, 8, 1, 8, 1], []) && Unchecked(s, []) == OutOfRange;
    hide Unchecked, Uvarint;
    assert StoreInfoOf([], 3, TWO_VERSIONS, StoreInfo([97, 8, 1, 8, 1], [])) == Done(StoreInfo([97, 8, 1, 8, 1], []));
  }

  lemma OneStore(after: bytes)
    ensures StoreInfosOf([0x12, 3] + SHORT_INFO + after, 0, []) ==
      match StoreInfoOf(SHORT_INFO, 0, after, NO_STORE)
      case Bad => Bad
      case Panic => Panic
      case Done(si) => StoreInfosOf(after, 5, [si])
  {
    var s := [0x12, 3] + SHORT_INFO + after;
    var t := s[1..];
    assert s[0] == 0x12 && t[0] == 3 && Uvarint(t) == Some((3, 1));
    assert t == [3] + (SHORT_INFO + after);
    assert t[1..4] == SHORT_INFO && t[4..] == after;
    assert Checked(t, 1) == Slice(SHORT_INFO, after);
    hide Checked, Uvarint, StoreInfoOf;
    assert forall si: StoreInfo :: [] + [si] == [si];
  }

  lemma SkipsVersions(infos: seq<StoreInfo>)
    ensures StoreInfosOf(TWO_VERSIONS, 5, infos) == Done(infos)
  {
    var s, t, u := TWO_VERSIONS, TWO_VERSIONS[2..], TWO_VERSIONS[4..];
    assert s[1..] == [1] + t && t[1..] == [1] + u;
    assert GetUvarint(s[1..]) == Got(1, t) && GetUvarint(t[1..]) == Got(1, u) && u == [];
    hide GetUvarint, Checked;
    assert StoreInfosOf(u, 9, infos) == Done(infos);
    assert StoreInfosOf(t, 7, infos) == Done(infos);
  }

  // ---------- round trip ----------

  lemma ReadsField(field: nat, b: bytes, rest: bytes, pos: nat, after: bytes)
    requires 1 <= field < 16 && |b| < TWO_64
    ensures var s := BytesField(field, b) + rest;
            && s[0] == 8 * field + 2
            && Checked(s[1..], pos) == Slice(b, rest) && Unchecked(s[1..], after) == Slice(b, rest)
  {
    hide Uvarint, PutUvarint;
    var s := BytesField(field, b) + rest;
    var t := PutUvarint(|b|) + (b + rest);
    assert s[1..] == t;
    UvarintRoundTrip(|b|, b + rest);
    var m := |PutUvarint(|b|)|;
    assert t[m..m + |b|] == b && t[m + |b|..] == rest;
  }

  lemma CommitIdReads(version: int64, hash: bytes, pos: nat, was: bytes)
    requires |hash| < TWO_64
    ensures CommitIdHash(EncodeCommitId(version, hash), pos, was) == Done(hash)
  {
    hide GetUvarint, Checked, PutUvarint, PutBytes;
    var tail := BytesField(2, hash);
    var s := EncodeCommitId(version, hash);
    SkipVarintField(1, U64(version), tail);
    ReadsField(2, hash, [], pos + |s| - |tail| + 1, []);
    assert tail + [] == tail;
    assert CommitIdHash([], pos + |s|, hash) == Done(hash);
    assert CommitIdHash(tail, pos + |s| - |tail|, was) == CommitIdHash([], pos + |s|, hash);
  }

  lemma StoreInfoReads(si: StoreInfo, version: int64, after: bytes)
    requires |si.name| < TWO_64 && |EncodeCommitId(version, si.hash)| < TWO_64
    ensures StoreInfoOf(EncodeStoreInfo(si, version), 0, after, NO_STORE) == Done(si)
  {
    hide Checked, Unchecked, PutBytes, CommitIdHash, EncodeCommitId;
    var id := EncodeCommitId(version, si.hash);
    var tail := BytesField(2, id);
    var s := EncodeStoreInfo(si, version);
    Sizes(version, si.hash);
    CommitIdReads(version, si.hash, 0, []);
    ReadsField(1, si.name, tail, 0, after);
    ReadsField(2, id, [], |s| - |tail| + 1, after);
    assert tail + [] == tail;
    assert StoreInfoOf([], |s|, after, si) == Done(si);
    assert StoreInfoOf(tail, |s| - |tail|, after, StoreInfo(si.name, [])) == StoreInfoOf([], |s|, after, si);
  }

  lemma Sizes(version: int64, hash: bytes)
    ensures |hash| <= |EncodeCommitId(version, hash)|
  {}

  lemma StoreSizes(si: StoreInfo, version: int64)
    ensures |si.name| <= |EncodeStoreInfo(si, version)|
      && |EncodeCommitId(version, si.hash)| <= |EncodeStoreInfo(si, version)|
  {
    hide EncodeCommitId;
  }

  /** Every store field that fits a length prefix is read back, after those read before. */
  lemma {:induction false} StoreFieldsRead(version: int64, infos: seq<StoreInfo>, pos: nat, before: seq<StoreInfo>)
    requires |StoreFields(version, infos)| < TWO_64
    ensures StoreInfosOf(StoreFields(version, infos), pos, before) == Done(before + infos)
  {
    hide Checked, Unchecked, StoreInfoOf, EncodeStoreInfo;
    if infos == [] {
      assert before + infos == before;
    } else {
      var si := infos[0];
      var b := EncodeStoreInfo(si, version);
      var tail := StoreFields(version, infos[1..]);
      assert |b| <= |BytesField(2, b)|;
      hide BytesField;
      StoreSizes(si, version);
      StoreInfoReads(si, version, tail);
      ReadsField(2, b, tail, pos + 1, []);
      var s := BytesField(2, b) + tail;
      StoreFieldsRead(version, infos[1..], pos + |s| - |tail|, before + [si]);
      assert before + [si] + infos[1..] == before + infos;
    }
  }

  /** Parsing a written record gives back its stores, whatever the version and the hashes. */
  lemma CommitInfoRoundTrip(version: int64, infos: seq<StoreInfo>)
    requires |Encoded(version, infos)| < TWO_64
    ensures StoreInfosOf(Encoded(version, infos), 0, []) == Done(infos)
  {
    hide GetUvarint, Checked, StoreFields, VarintField;
    var tail := StoreFields(version, infos);
    SkipVarintField(1, U64(version), tail);
    StoreFieldsRead(version, infos, |Encoded(version, infos)| - |tail|, []);
    assert [] + infos == infos;
  }

  // ---------- the daemon's reader ----------

  /** The record as the daemon decodes it: the version, and for each store its name and commit id. */
  datatype CommitId = CommitId(version: int64, hash: bytes)
  datatype StoreCommit = StoreCommit(name: bytes, id: CommitId)
  datatype Record = Record(version: int64, stores: seq<StoreCommit>)

  /** A message decoder reads field after field: a later scalar replaces an earlier one, unknown fields are skipped. */
  function ReadCommitId(s: bytes, id: CommitId): Option<CommitId>
    decreases |s|
  {
    if s == [] then Some(id)
    else if s[0] == 0x08 then
      match GetUvarint(s[1..])
      case Fail => None
      case Got(v, rest) => ReadCommitId(rest, id.(version := Int64(v)))
    else if s[0] == 0x12 then
      match GetBytes(s[1..])
      case Fail => None
      case Got(b, rest) => ReadCommitId(rest, id.(hash := b))
    else
      match SkipField(s[0], s[1..])
      case Fail => None
      case Got(_, rest) => ReadCommitId(rest, id)
  }

  function ReadStore(s: bytes, store: StoreCommit): Option<StoreCommit>
    decreases |s|
  {
    if s == [] then Some(store)
    else if s[0] == 0x0A then
      match GetBytes(s[1..])
      case Fail => None
      case Got(b, rest) => ReadStore(rest, store.(name := b))
    else if s[0] == 0x12 then
      match GetBytes(s[1..])
      case Fail => None
      case Got(b, rest) =>
        (match ReadCommitId(b, store.id)
         case None => None
         case Some(id) => ReadStore(rest, store.(id := id)))
    else
      match SkipField(s[0], s[1..])
      case Fail => None
      case Got(_, rest) => ReadStore(rest, store)
  }

  function ReadRecord(s: bytes, r: Record): Option<Record>
    decreases |s|
  {
    if s == [] then Some(r)
    else if s[0] == 0x08 then
      match GetUvarint(s[1..])
      case Fail => None
      case Got(v, rest) => ReadRecord(rest, r.(version := Int64(v)))
    else if s[0] == 0x12 then
      match GetBytes(s[1..])
      case Fail => None
      case Got(b, rest) =>
        (match ReadStore(b, NO_COMMIT)
         case None => None
         case Some(store) => ReadRecord(rest, r.(stores := r.stores + [store])))
    else
      match SkipField(s[0], s[1..])
      case Fail => None
      case Got(_, rest) => ReadRecord(rest, r)
  }

  const NO_COMMIT := StoreCommit([], CommitId(0, []))

  /** The stores of a record that was written at a version. */
  function Commits(version: int64, infos: seq<StoreInfo>): (r: seq<StoreCommit>)
    ensures |r| == |infos|
    ensures forall i :: 0 <= i < |r| ==> r[i] == StoreCommit(infos[i].name, CommitId(version, infos[i].hash))
  {
    seq(|infos|, i requires 0 <= i < |infos| => StoreCommit(infos[i].name, CommitId(version, infos[i].hash)))
  }

  lemma SignedAgain(version: int64)
    ensures Int64(U64(version)) == version
  {
    IntWraps(U64(version));
  }

  lemma ReadsCommitId(version: int64, hash: bytes)
    requires |hash| < TWO_64
    ensures ReadCommitId(EncodeCommitId(version, hash), CommitId(0, [])) == Some(CommitId(version, hash))
  {
    hide GetUvarint, GetBytes, PutUvarint, PutBytes, SkipField, Int64;
    var tail := BytesField(2, hash);
    SkipVarintField(1, U64(version), tail);
    SkipBytesField(2, hash, []);
    SignedAgain(version);
    assert tail + [] == tail;
    assert ReadCommitId([], CommitId(version, hash)) == Some(CommitId(version, hash));
    assert ReadCommitId(tail, CommitId(version, [])) == ReadCommitId([], CommitId(version, hash));
  }

  lemma ReadsStore(si: StoreInfo, version: int64)
    requires |si.name| < TWO_64 && |EncodeCommitId(version, si.hash)| < TWO_64
    ensures ReadStore(EncodeStoreInfo(si, version), NO_COMMIT)
      == Some(StoreCommit(si.name, CommitId(version, si.hash)))
  {
    hide GetBytes, PutBytes, SkipField, EncodeCommitId, ReadCommitId;
    var id := EncodeCommitId(version, si.hash);
    var tail := BytesField(2, id);
    Sizes(version, si.hash);
    ReadsCommitId(version, si.hash);
    SkipBytesField(1, si.name, tail);
    SkipBytesField(2, id, []);
    assert tail + [] == tail;
    var store := StoreCommit(si.name, CommitId(version, si.hash));
    assert ReadStore([], store) == Some(store);
    assert ReadStore(tail, NO_COMMIT.(name := si.name)) == ReadStore([], store);
  }

  lemma {:induction false} ReadsStores(version: int64, infos: seq<StoreInfo>, r: Record)
    requires |StoreFields(version, infos)| < TWO_64
    ensures ReadRecord(StoreFields(version, infos), r) == Some(r.(stores := r.stores + Commits(version, infos)))
  {
    hide GetBytes, GetUvarint, SkipField, EncodeStoreInfo, ReadStore;
    if infos == [] {
      assert r.stores + Commits(version, infos) == r.stores;
    } else {
      var si := infos[0];
      var b := EncodeStoreInfo(si, version);
      var tail := StoreFields(version, infos[1..]);
      assert |b| <= |BytesField(2, b)|;
      hide BytesField;
      StoreSizes(si, version);
      ReadsStore(si, version);
      SkipBytesField(2, b, tail);
      var store := StoreCommit(si.name, CommitId(version, si.hash));
      ReadsStores(version, infos[1..], r.(stores := r.stores + [store]));
      assert r.stores + [store] + Commits(version, infos[1..]) == r.stores + Commits(version, infos);
    }
  }

  /** The daemon reads the record back: its version, and every store in order with its name, that version and its
      hash. */
  lemma DaemonReads(version: int64, infos: seq<StoreInfo>)
    requires |Encoded(version, infos)| < TWO_64
    ensures ReadRecord(Encoded(version, infos), Record(0, [])) == Some(Record(version, Commits(version, infos)))
  {
    hide GetUvarint, GetBytes, StoreFields, PutUvarint, SkipField, Int64;
    var tail := StoreFields(version, infos);
    SkipVarintField(1, U64(version), tail);
    SignedAgain(version);
    ReadsStores(version, infos, Record(version, []));
    assert ReadRecord(Encoded(version, infos), Record(0, [])) == ReadRecord(tail, Record(version, []));
    assert [] + Commits(version, infos) == Commits(version, infos);
  }
}
