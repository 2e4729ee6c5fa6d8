/** The join of the two halves of segmentation: the byte segments that the index cuts out decode to the item segments of
    the stream's stores, and importing them in any order is the import of the whole stream. */
module SegmentDecode {
  import opened Bytes
  import opened Proto
  import opened IavlEncoding
  import opened IavlTree
  import opened StoreImporter
  import opened SnapshotImport
  import opened Segmentation
  import opened SnapReader
  import CommitInfo
  import PinHandoff
  import IndexScanner
  import SegmentIndex

  // ---------- one envelope ----------

  /** The item of the first envelope. */
  function First(s: bytes): Option<SnapItem>
    requires PinHandoff.Envelope(s).Some?
  {
    var (len, m) := Uvarint(s).value;
    if len > MAX_ENVELOPE then None else DecodeEnvelope(s[m..m + len])
  }

  predicate IsKind(x: SnapItem, kind: PinHandoff.Kind) {
    match x
    case StoreItem(_) => kind == PinHandoff.StoreItem
    case IavlItem(_) => kind == PinHandoff.IavlItem
    case ExtMeta(_, _) => kind == PinHandoff.ExtItem
    case ExtPayload(_) => kind == PinHandoff.ExtItem
  }

  /** Where the index sees an envelope, the reader takes it for one item of that kind. */
  lemma StepIs(s: bytes)
    requires PinHandoff.Envelope(s).Some?
    ensures NextStep(s) == if First(s).Some? then Item(First(s).value, s[PinHandoff.Envelope(s).value.0..]) else Broken
    ensures First(s).Some? ==> IsKind(First(s).value, PinHandoff.Envelope(s).value.1)
  {
    hide Uvarint, FindBytes, FindVarint, ToInt8, ToInt64, GetBytes;
    var (len, m) := Uvarint(s).value;
    assert s[m..m + len][0] == s[m];
  }

  /** The first item does not depend on what follows its envelope. */
  lemma FirstOfPrefix(p: bytes, s: bytes)
    requires |p| <= |s| && p == s[..|p|] && PinHandoff.Envelope(s).Some? && PinHandoff.Envelope(s).value.0 <= |p|
    ensures PinHandoff.Envelope(p) == PinHandoff.Envelope(s) && First(p) == First(s)
  {
    hide DecodeEnvelope;
    PinHandoff.UvarintOfPrefix(p, s, 0);
    var (len, m) := Uvarint(s).value;
    hide Uvarint;
    assert p[m..m + len] == s[m..m + len];
  }

  lemma ItemsStep(s: bytes)
    requires PinHandoff.Envelope(s).Some?
    ensures Items(s) == if First(s).None? then None
      else Prefixed([First(s).value], Items(s[PinHandoff.Envelope(s).value.0..]))
  {
    hide First, NextStep;
    StepIs(s);
  }

  /** The items of a range that starts with an envelope inside it. */
  lemma RangeStep(data: bytes, pos: nat, end: nat, n: nat)
    requires pos < end <= |data| && pos + n <= end
    requires PinHandoff.Envelope(data[pos..]).Some? && PinHandoff.Envelope(data[pos..]).value.0 == n
    ensures First(data[pos..]).None? ==> Items(data[pos..]) == None
    ensures First(data[pos..]).Some? ==>
      var x := First(data[pos..]).value;
      && Items(data[pos..]) == Prefixed([x], Items(data[pos + n..]))
      && Items(data[pos..end]) == Prefixed([x], Items(data[pos + n..end]))
  {
    hide Items, First, PinHandoff.Envelope;
    var s, p := data[pos..], data[pos..end];
    assert p == s[..|p|] && s[n..] == data[pos + n..] && p[n..] == data[pos + n..end];
    FirstOfPrefix(p, s);
    ItemsStep(s);
    ItemsStep(p);
  }

  lemma NoItems(s: bytes)
    requires s == []
    ensures Items(s) == Some([])
  {}

  // ---------- a run of IAVL items ----------

  lemma RunHead(data: bytes, pos: nat, end: nat) returns (n: nat)
    requires pos < end <= |data| && PinHandoff.IavlRun(data, pos, end)
    ensures PinHandoff.Envelope(data[pos..]) == Some((n, PinHandoff.IavlItem))
    ensures 0 < n && pos + n <= end && PinHandoff.IavlRun(data, pos + n, end)
  {
    hide PinHandoff.Envelope;
    n := PinHandoff.Envelope(data[pos..]).value.0;
  }

  /** The first item of a run. */
  lemma RunFirst(data: bytes, pos: nat, end: nat, items: seq<SnapItem>) returns (n: nat, node: ExportNode)
    requires pos < end <= |data| && PinHandoff.IavlRun(data, pos, end) && Items(data[pos..]) == Some(items)
    ensures 0 < n && pos + n <= end && PinHandoff.IavlRun(data, pos + n, end)
    ensures Items(data[pos + n..]).Some? && items == [IavlItem(node)] + Items(data[pos + n..]).value
    ensures Items(data[pos..end]) == Prefixed([IavlItem(node)], Items(data[pos + n..end]))
  {
    hide Items, First, PinHandoff.Envelope, PinHandoff.IavlRun;
    n := RunHead(data, pos, end);
    RangeStep(data, pos, end, n);
    StepIs(data[pos..]);
    node := First(data[pos..]).value.node;
  }

  lemma {:induction false} RunItems(data: bytes, pos: nat, end: nat, items: seq<SnapItem>)
    returns (nodes: seq<ExportNode>, rest: seq<SnapItem>)
    requires end <= |data| && PinHandoff.IavlRun(data, pos, end) && Items(data[pos..]) == Some(items)
    ensures items == NodeItems(nodes) + rest && Items(data[end..]) == Some(rest)
    ensures Items(data[pos..end]) == Some(NodeItems(nodes))
    decreases end - pos
  {
    hide Items, PinHandoff.IavlRun;
    RunBounds(data, pos, end);
    if pos == end {
      nodes, rest := [], items;
      NoItems(data[pos..end]);
      assert [] + rest == items;
    } else {
      var n, node := RunFirst(data, pos, end, items);
      var more;
      more, rest := RunItems(data, pos + n, end, Items(data[pos + n..]).value);
      nodes := [node] + more;
      assert nodes[1..] == more && nodes[0] == node;
      assert NodeItems(nodes) == [IavlItem(node)] + NodeItems(more);
      assert [IavlItem(node)] + (NodeItems(more) + rest) == [IavlItem(node)] + NodeItems(more) + rest;
    }
  }

  lemma RunBounds(data: bytes, pos: nat, end: nat)
    requires end <= |data| && PinHandoff.IavlRun(data, pos, end)
    ensures pos <= end
  {}

  // ---------- a store's segment ----------

  /** A store item decodes to the name that the index reads. */
  lemma NameDecodes(data: bytes, pos: nat, name: bytes)
    requires SegmentIndex.Named(data, pos, name) && PinHandoff.Envelope(data[pos..]).Some?
    ensures First(data[pos..]).Some? ==> First(data[pos..]) == Some(StoreItem(name))
  {
    hide Uvarint, PutBytes;
    var s := data[pos..];
    var (len, m) := Uvarint(s).value;
    var body := s[m..m + len];
    assert body == IndexScanner.StoreBody(name);
    BodyDecodes(name);
  }

  lemma BodyDecodes(name: bytes)
    requires |name| < 0x1_0000_0000
    ensures DecodeEnvelope(IndexScanner.StoreBody(name)) == Some(StoreItem(name))
  {
    hide GetBytes, PutBytes, FindBytes;
    var inner := BytesField(1, name);
    InnerShort(name);
    SkipBytesField(1, inner, []);
    var body := BytesField(1, inner);
    assert body + [] == body && body == IndexScanner.StoreBody(name);
    FindFirst(1, name, []);
    assert inner + [] == inner;
  }

  lemma InnerShort(name: bytes)
    requires |name| < 0x1_0000_0000
    ensures |BytesField(1, name)| < TWO_64
  {
    IndexScanner.UvarintLen(|name|);
  }

  lemma SegmentDecodes(data: bytes, e: SegmentIndex.Entry, items: seq<SnapItem>)
    returns (s: StoreNodes, rest: seq<SnapItem>)
    requires SegmentIndex.EntryOk(data, e) && Items(data[e.start..]) == Some(items)
    ensures s.name == e.name && items == SegmentItems(s) + rest && e.end <= |data| && Items(data[e.end..]) == Some(rest)
    ensures Items(data[e.start..e.end]) == Some(SegmentItems(s))
  {
    hide Items, First, PinHandoff.Envelope, SegmentIndex.Named, PinHandoff.IavlRun;
    var (n, kind) := PinHandoff.Envelope(data[e.start..]).value;
    RangeStep(data, e.start, e.end, n);
    NameDecodes(data, e.start, e.name);
    var nodes;
    nodes, rest := RunItems(data, e.start + n, e.end, Items(data[e.start + n..]).value);
    s := StoreNodes(e.name, nodes);
    assert [StoreItem(e.name)] + (NodeItems(nodes) + rest) == SegmentItems(s) + rest;
  }

  // ---------- all segments ----------

  /** The stores are those of the entries from k on, as the segments decode. */
  predicate StoresAre(data: bytes, entries: seq<SegmentIndex.Entry>, k: nat, stores: seq<StoreNodes>) {
    && k <= |entries| && |stores| == |entries| - k
    && forall j :: 0 <= j < |stores| ==> StoreIs(data, entries[k + j], stores[j])
  }

  predicate StoreIs(data: bytes, e: SegmentIndex.Entry, s: StoreNodes) {
    e.start <= e.end <= |data| && s.name == e.name && Items(data[e.start..e.end]) == Some(SegmentItems(s))
  }

  function StartOf(entries: seq<SegmentIndex.Entry>, k: nat, next: nat): nat {
    if k < |entries| then entries[k].start else next
  }

  /** The items from the start of entry k on are those of its store and the later stores, then the extensions. */
  lemma {:induction false} EntriesDecode(data: bytes, entries: seq<SegmentIndex.Entry>, next: nat, k: nat,
                                         items: seq<SnapItem>)
    returns (stores: seq<StoreNodes>, ext: seq<SnapItem>)
    requires SegmentIndex.Closed(data, entries, next) && next <= |data| && k <= |entries|
    requires StartOf(entries, k, next) <= |data| && Items(data[StartOf(entries, k, next)..]) == Some(items)
    ensures StoresAre(data, entries, k, stores) && items == Flatten(stores) + ext && Items(data[next..]) == Some(ext)
    decreases |entries| - k
  {
    hide Items, SegmentItems, PinHandoff.SegmentOk, PinHandoff.Bounded, SegmentIndex.Named, SegmentIndex.EntryOk;
    if k == |entries| {
      stores, ext := [], items;
      assert [] + ext == items;
    } else {
      assert SegmentIndex.EntryOk(data, entries[k]) && entries[k].end == SegmentIndex.StartAfter(entries, k, next);
      var s, rest := SegmentDecodes(data, entries[k], items);
      SpanOf(data, entries[k]);
      var more;
      more, ext := EntriesDecode(data, entries, next, k + 1, rest);
      stores := [s] + more;
      assert stores[0] == s && stores[1..] == more;
      assert SegmentItems(s) + (Flatten(more) + ext) == SegmentItems(s) + Flatten(more) + ext;
      forall j | 0 <= j < |stores| ensures StoreIs(data, entries[k + j], stores[j]) {
        if j > 0 {
          assert stores[j] == more[j - 1] && StoreIs(data, entries[k + 1 + (j - 1)], more[j - 1]);
        }
      }
    }
  }

  lemma SpanOf(data: bytes, e: SegmentIndex.Entry)
    requires SegmentIndex.EntryOk(data, e)
    ensures e.start < e.end <= |data|
  {}
}
