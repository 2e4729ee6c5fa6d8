/** Every stream has a plan: what the sequential importer computes for each item of the longest prefix that
    it accepts. */
module WavePlan {
  import opened Bytes
  import opened IavlEncoding
  import opened IavlTree
  import opened WaveState
  import opened WaveInvariant
  import StoreImporter
  import WaveMain
  import ReadBack

  // ---------- streams by index ----------

  /** The first k items. */
  function Upto(s: Stream, k: nat): (p: Stream)
    ensures IsPrefix(p, s)
  {
    if k >= Length(s) then s else Upto(s.before, k)
  }

  lemma {:induction false} UptoLength(s: Stream, k: nat)
    requires k <= Length(s)
    ensures Length(Upto(s, k)) == k
  {
    if k < Length(s) {
      UptoLength(s.before, k);
    }
  }

  lemma {:induction false} UptoBefore(s: Stream, k: nat)
    requires k < Length(s)
    ensures Upto(s, k + 1).Then? && Upto(s, k + 1).before == Upto(s, k)
  {
    if k + 1 < Length(s) {
      UptoBefore(s.before, k);
    } else {
      assert Upto(s, k) == Upto(s.before, k);
    }
  }

  lemma {:induction false} DropUpto(s: Stream, k: nat, n: nat)
    requires n <= k <= Length(s)
    ensures Drop(Upto(s, k), n) == Upto(s, k - n)
  {
    if n > 0 {
      UptoBefore(s, k - 1);
      DropUpto(s, k - 1, n - 1);
    }
  }

  lemma {:induction false} PrefixParses(p: Stream, s: Stream)
    requires IsPrefix(p, s) && Parse(s).Some?
    ensures Parse(p).Some?
  {
    if p != s {
      PrefixParses(p, s.before);
    }
  }

  /** The items with the nonces that the counter hands out. */
  function Number(s: Stream): (items: seq<Numbered>)
    ensures |items| == Length(s)
  {
    if s.Start? then [] else Number(s.before) + [Numbered(s.item, Nonce(s))]
  }

  lemma {:induction false} NumberAt(s: Stream, k: nat)
    requires k < Length(s)
    ensures Upto(s, k + 1).Then? && Number(s)[k] == Numbered(Upto(s, k + 1).item, Nonce(Upto(s, k + 1)))
  {
    hide Nonce;
    if k + 1 < Length(s) {
      NumberAt(s.before, k);
    }
  }

  /** The longest prefix that is a listing of trees. */
  function Accepted(s: Stream): (p: Stream)
    ensures IsPrefix(p, s) && Parse(p).Some?
  {
    if Parse(s).Some? then s else Accepted(s.before)
  }

  lemma {:induction false} AcceptedUpto(s: Stream, k: nat)
    requires k <= Length(Accepted(s)) <= Length(s)
    ensures Upto(s, k) == Upto(Accepted(s), k) && Parse(Upto(s, k)).Some?
  {
    if Parse(s).Some? {
      PrefixParses(Upto(s, k), s);
    } else {
      AcceptedShorter(s.before);
      AcceptedUpto(s.before, k);
    }
  }

  lemma {:induction false} AcceptedShorter(s: Stream)
    ensures Length(Accepted(s)) <= Length(s)
  {
    if Parse(s).None? {
      AcceptedShorter(s.before);
    }
  }

  lemma {:induction false} AcceptedEnds(s: Stream)
    requires Parse(s).None?
    ensures var q := Accepted(s); Length(q) < Length(s) && Parse(Upto(s, Length(q) + 1)).None?
  {
    var q := Accepted(s);
    AcceptedShorter(s.before);
    if Parse(s.before).Some? {
      assert Length(q) + 1 == Length(s);
    } else {
      AcceptedEnds(s.before);
    }
  }

  // ---------- cells ----------

  /** The database after the fast-storage entries of the items alone. */
  function FastImported(prefix: bytes, s: Stream, db: Entries): Entries {
    if s.Start? then db else FastEntry(prefix, s.item, FastImported(prefix, s.before, db))
  }

  /** The index of the first item of the last item's subtree. */
  function Lowest(p: Stream): nat
    requires p.Then? && Parse(p).Some?
  {
    Length(Drop(p, Nodes(TopTree(p))))
  }

  function LeftIndex(p: Stream): nat
    requires p.Then? && Parse(p).Some?
  {
    if p.item.height == 0 then 0 else Children(p); Length(LeftPart(p)) - 1
  }

  /** The cell of the last item, parent aside. */
  function CellOf(sha: Sha, prefix: bytes, before: Entries, p: Stream): Cell
    requires p.Then? && Parse(p).Some?
  {
    Cell(LeftIndex(p), if p.item.height == 0 then 0 else Children(p); Length(p.before) - 1, None, Lowest(p),
         Wrap64(Leaves(TopTree(p))), RootHash(sha, TopTree(p)), NodeBytes(sha, p), FastImported(prefix, p, before))
  }

  function CellsOf(sha: Sha, prefix: bytes, before: Entries, q: Stream): (cells: Plan)
    requires Parse(q).Some?
    ensures |cells| == Length(q)
  {
    if q.Start? then [] else CellsOf(sha, prefix, before, q.before) + [CellOf(sha, prefix, before, q)]
  }

  lemma {:induction false} CellsOfAt(sha: Sha, prefix: bytes, before: Entries, q: Stream, k: nat)
    requires Parse(q).Some? && k < Length(q)
    ensures var p := Upto(q, k + 1);
            p.Then? && Parse(p).Some? && CellsOf(sha, prefix, before, q)[k] == CellOf(sha, prefix, before, p)
  {
    hide CellOf;
    if k + 1 < Length(q) {
      CellsOfAt(sha, prefix, before, q.before, k);
    }
  }

  ghost predicate ChildOf(c: Config, cells: Plan, u: nat, i: nat) {
    u < |cells| && !IsLeaf(c, u) && (cells[u].left == i || cells[u].right == i)
  }

  ghost function UpIn(c: Config, cells: Plan, i: nat): Option<nat> {
    if exists u: nat :: ChildOf(c, cells, u, i) then
      var u: nat :| ChildOf(c, cells, u, i);
      Some(u)
    else None
  }

  ghost function WithUps(c: Config, cells: Plan, n: nat): (plan: Plan)
    requires n <= |cells|
    ensures |plan| == n
    ensures forall i: nat :: i < n ==> plan[i] == cells[i].(up := UpIn(c, cells, i))
  {
    if n == 0 then [] else WithUps(c, cells, n - 1) + [cells[n - 1].(up := UpIn(c, cells, n - 1))]
  }

  /** The plan of a configuration that reads the stream s. */
  ghost function PlanOf(c: Config, s: Stream): Plan {
    var cells := CellsOf(c.sha, c.prefix, c.before, Accepted(s));
    WithUps(c, cells, |cells|)
  }

  /** The configuration reads the stream s. */
  predicate Reads(c: Config, s: Stream) {
    c.items == Number(s)
  }

  /** Cell k of the plan describes the stream up to item k. */
  lemma PlanAt(c: Config, s: Stream, k: nat)
    requires k < |PlanOf(c, s)|
    ensures |PlanOf(c, s)| == Length(Accepted(s)) <= Length(s)
    ensures var p := Upto(s, k + 1);
            && p.Then? && Parse(p).Some? && p.before == Upto(s, k) && Length(p) == k + 1
            && PlanOf(c, s)[k] == CellOf(c.sha, c.prefix, c.before, p).(up := PlanOf(c, s)[k].up)
    ensures Reads(c, s) ==> Item(c, k) == Numbered(Upto(s, k + 1).item, Nonce(Upto(s, k + 1)))
  {
    hide CellOf, UpIn, Nonce;
    AcceptedShorter(s);
    AcceptedUpto(s, k + 1);
    CellsOfAt(c.sha, c.prefix, c.before, Accepted(s), k);
    UptoBefore(s, k);
    UptoLength(s, k + 1);
    NumberAt(s, k);
  }

  // ---------- the cells are those of the recursive specification ----------

  lemma TopTreeOf(p: Stream)
    requires p.Then? && Parse(p).Some?
    ensures var t := TopTree(p);
            t.version == p.item.version && Height(t) == p.item.height && (t.Leaf? <==> p.item.height == 0)
    ensures p.item.height == 0 ==> TopTree(p) == Leaf(p.item.version, p.item.key, p.item.value)
  {}

  lemma LeafRelates(sha: Sha, prefix: bytes, before: Entries, p: Stream)
    requires p.Then? && Parse(p).Some? && p.item.height == 0
    ensures var x, t := p.item, CellOf(sha, prefix, before, p);
            && t.lo == Length(p.before) && t.size == 1
            && t.hash == LeafHash(sha, x.version, x.key, x.value)
            && t.encoded == EncodeLeaf(x.key, x.value)
  {
    TopTreeOf(p);
    assert Drop(p, 1) == p.before;
    hide Parse, LeafHash, EncodeLeaf, FastImported;
  }

  lemma InnerIntervals(p: Stream)
    requires p.Then? && Parse(p).Some? && p.item.height != 0
    ensures var l, r := LeftPart(p), p.before;
            && l.Then? && Parse(l).Some? && r.Then? && Parse(r).Some?
            && Lowest(r) == Length(l) && Lowest(p) == Lowest(l)
  {
    hide Parse, TopTree, Length, Drop;
    Children(p);
    var t := TopTree(p);
    DropDrop(p.before, Nodes(t.right), Nodes(t.left));
    DropLast(p, Nodes(t.right) + Nodes(t.left));
  }

  lemma DropLast(p: Stream, n: nat)
    requires p.Then?
    ensures Drop(p, n + 1) == Drop(p.before, n)
  {}

  lemma InnerValues(sha: Sha, t: Tree, ln: uint32, rn: uint32)
    requires t.Inner?
    ensures Leaves(t) == Leaves(t.left) + Leaves(t.right)
    ensures RootHash(sha, t) == InnerHash(sha, t.version, t.h, Wrap64(Leaves(t)), RootHash(sha, t.left),
      RootHash(sha, t.right))
    ensures RootBytes(sha, t, ln, rn)
         == EncodeInner(t.h, Wrap64(Leaves(t)), t.key, RootHash(sha, t), t.left.version, ln, t.right.version, rn)
  {}

  /** Size, hash and stored bytes of an inner item from those of its children. */
  lemma InnerResults(sha: Sha, p: Stream)
    requires p.Then? && Parse(p).Some? && p.item.height != 0
    ensures var l, r := LeftPart(p), p.before;
            && l.Then? && Parse(l).Some? && r.Then? && Parse(r).Some?
            && var x, size, hash := p.item, Wrap64(Leaves(TopTree(p))), RootHash(sha, TopTree(p));
            && l.item.height < x.height && r.item.height < x.height
            && size == Wrap64(Wrap64(Leaves(TopTree(l))) + Wrap64(Leaves(TopTree(r))))
            && hash == InnerHash(sha, x.version, x.height, size, RootHash(sha, TopTree(l)), RootHash(sha, TopTree(r)))
            && NodeBytes(sha, p) == EncodeInner(x.height, size, x.key, hash, l.item.version, Nonce(l), r.item.version,
              Nonce(r))
  {
    hide Parse, TopTree, Wrap64, InnerHash, EncodeInner, Nonce, Drop, LeftPart, RootHash, Leaves, RootBytes;
    Children(p);
    InnerValues(sha, TopTree(p), LeftNonce(p), RightNonce(p));
    var t := TopTree(p);
    TopTreeOf(p);
    TopTreeOf(p.before);
    TopTreeOf(LeftPart(p));
    StoreImporter.WrapAdds(Leaves(t.left), Leaves(t.right));
    InnerTop(p);
  }

  lemma InnerTop(p: Stream)
    requires p.Then? && Parse(p).Some? && p.item.height != 0
    ensures var t := TopTree(p);
            t.Inner? && t.h == p.item.height && t.key == p.item.key && Height(t.left) < t.h && Height(t.right) < t.h
  {}

  lemma LeafCellOk(c: Config, s: Stream, k: nat)
    requires Reads(c, s) && k < |PlanOf(c, s)| && IsLeaf(c, k)
    ensures WfLeaf(c, PlanOf(c, s), k) && PlanOf(c, s)[k].lo <= k
  {
    PlanAt(c, s, k);
    var p := Upto(s, k + 1);
    LeafRelates(c.sha, c.prefix, c.before, p);
    hide PlanOf, CellOf, LeafHash, EncodeLeaf, Nonce, Upto;
  }

  lemma LeftUpto(s: Stream, k: nat)
    requires k < Length(s) && Parse(Upto(s, k + 1)).Some? && Upto(s, k + 1).Then? && Upto(s, k + 1).item.height != 0
    requires Upto(s, k + 1).before == Upto(s, k) && Length(Upto(s, k + 1)) == k + 1
    ensures var l := LeftPart(Upto(s, k + 1)); l.Then? && 0 < Length(l) < k && l == Upto(s, Length(l))
  {
    var p := Upto(s, k + 1);
    Children(p);
    var n := Nodes(TopTree(p).right);
    DropInside(p.before, n);
    UptoLength(s, k);
    DropUpto(s, k, n);
    UptoLength(s, k - n);
  }

  lemma {:induction false} DropInside(s: Stream, n: nat)
    requires Drop(s, n).Then?
    ensures n < Length(s)
  {
    if n > 0 && s.Then? {
      DropInside(s.before, n - 1);
    }
  }

  lemma InnerCellOk(c: Config, s: Stream, k: nat)
    requires Reads(c, s) && k < |PlanOf(c, s)| && !IsLeaf(c, k)
    ensures WfInner(c, PlanOf(c, s), k) && PlanOf(c, s)[k].lo <= k
  {
    hide PlanOf, InnerHash, EncodeInner, Nonce, Upto, Parse, Wrap64, Drop, LeftPart, Length, Number, Lowest, RootHash,
      NodeBytes, FastImported, TopTree, Leaves, Reads;
    PlanAt(c, s, k);
    var p := Upto(s, k + 1);
    LeftUpto(s, k);
    var l := LeftPart(p);
    InnerIntervals(p);
    InnerResults(c.sha, p);
    PlanAt(c, s, k - 1);
    PlanAt(c, s, Length(l) - 1);
    LoBound(c, s, Length(l) - 1);
    var plan := PlanOf(c, s);
    assert plan[k].left == Length(l) - 1 && plan[k].right == k - 1;
  }

  lemma LoBound(c: Config, s: Stream, k: nat)
    requires k < |PlanOf(c, s)|
    ensures PlanOf(c, s)[k].lo <= k
  {
    hide PlanOf, Nonce, RootHash, NodeBytes, FastImported, Wrap64, Parse, Upto;
    PlanAt(c, s, k);
    var p := Upto(s, k + 1);
    DropShorter(p.before, Nodes(TopTree(p)) - 1);
    assert Drop(p, Nodes(TopTree(p))) == Drop(p.before, Nodes(TopTree(p)) - 1);
  }

  lemma FastCellOk(c: Config, s: Stream, k: nat)
    requires Reads(c, s) && k < |PlanOf(c, s)|
    ensures PlanOf(c, s)[k].fast == FastEntry(c.prefix, Item(c, k).node, FastBefore(c, PlanOf(c, s), k))
  {
    hide PlanOf, Upto, Nonce, Parse, NodeBytes, RootHash, Lowest, LeftIndex, Leaves, FastEntry, Number;
    PlanAt(c, s, k);
    if k > 0 {
      PlanAt(c, s, k - 1);
    } else {
      assert Upto(s, k).Start?;
      assert FastImported(c.prefix, Upto(s, k), c.before) == c.before;
    }
  }

  lemma CellsOk(c: Config, s: Stream)
    requires Reads(c, s)
    ensures Cells(c, PlanOf(c, s))
  {
    hide PlanOf, WfLeaf, WfInner, FastEntry, FastBefore, IsLeaf, Item, Reads;
    var plan := PlanOf(c, s);
    forall k: nat | k < |plan| ensures WfCell(c, plan, k) {
      FastCellOk(c, s, k);
      if IsLeaf(c, k) {
        LeafCellOk(c, s, k);
      } else {
        InnerCellOk(c, s, k);
      }
    }
  }

  // ---------- every node has at most one parent ----------

  lemma LeafLow(c: Config, plan: Plan, j: nat)
    requires Cells(c, plan) && j < |plan| && IsLeaf(c, j)
    ensures plan[j].lo == j
  {
    assert WfCell(c, plan, j);
    hide FastEntry, LeafHash, EncodeLeaf;
  }

  /** A subtree starts with a leaf. */
  lemma {:induction false} LowIsLeaf(c: Config, plan: Plan, j: nat)
    requires Cells(c, plan) && j < |plan|
    ensures plan[j].lo <= j && IsLeaf(c, plan[j].lo)
    decreases j
  {
    hide Cells, IsLeaf;
    if IsLeaf(c, j) {
      LeafLow(c, plan, j);
    } else {
      WaveMain.InnerCell(c, plan, j);
      LowIsLeaf(c, plan, plan[j].left);
    }
  }

  /** Subtrees nest. */
  lemma {:induction false} LowNests(c: Config, plan: Plan, j: nat, i: nat)
    requires Cells(c, plan) && j < |plan| && plan[j].lo <= i <= j
    ensures plan[j].lo <= plan[i].lo
    decreases j
  {
    hide Cells, IsLeaf;
    if i < j {
      if IsLeaf(c, j) {
        LeafLow(c, plan, j);
        assert false;
      } else {
        WaveMain.InnerCell(c, plan, j);
        if i > plan[j].left {
          LowIsLeaf(c, plan, plan[j].left);
          LowNests(c, plan, plan[j].right, i);
        } else {
          LowNests(c, plan, plan[j].left, i);
        }
      }
    }
  }

  /** The left child of v lies below every node from there to v: only v has it as a child. */
  lemma LaterParent(c: Config, plan: Plan, u: nat, v: nat, i: nat)
    requires Cells(c, plan) && v < |plan| && !IsLeaf(c, v) && i in {plan[v].left, plan[v].right} && u < v
    ensures !ChildOf(c, plan, u, i)
  {
    hide Cells;
    if !IsLeaf(c, u) {
      WaveMain.InnerCell(c, plan, u);
      WaveMain.InnerCell(c, plan, v);
      LowIsLeaf(c, plan, v - 1);
      LowIsLeaf(c, plan, plan[u].left);
      if plan[v - 1].lo <= u {
        LowNests(c, plan, v - 1, u);
      }
    }
  }

  /** WithUps gives every child its parent. */
  lemma ParentsOk(c: Config, s: Stream)
    requires Reads(c, s)
    ensures Parents(c, PlanOf(c, s))
  {
    var plan := PlanOf(c, s);
    var cells := CellsOf(c.sha, c.prefix, c.before, Accepted(s));
    CellsOk(c, s);
    assert forall j: nat :: j < |plan| ==> plan[j] == cells[j].(up := UpIn(c, cells, j));
    hide CellsOf, WithUps, PlanOf, Cells, IsLeaf, Reads;
    forall j: nat | j < |plan| ensures ParentOk(c, plan, j) {
      ParentOkAt(c, plan, cells, j);
    }
  }

  lemma ParentOkAt(c: Config, plan: Plan, cells: Plan, j: nat)
    requires Cells(c, plan) && |plan| == |cells| && j < |plan|
    requires forall j: nat :: j < |plan| ==> plan[j] == cells[j].(up := UpIn(c, cells, j))
    ensures ParentOk(c, plan, j)
  {
    hide Cells, IsLeaf;
    if !IsLeaf(c, j) {
      WaveMain.InnerCell(c, plan, j);
      UpIsParent(c, plan, cells, j, plan[j].left);
      UpIsParent(c, plan, cells, j, plan[j].right);
    }
    if plan[j].up.Some? {
      var u := plan[j].up.value;
      assert ChildOf(c, cells, u, j);
      WaveMain.InnerCell(c, plan, u);
    }
  }

  lemma UpIsParent(c: Config, plan: Plan, cells: Plan, j: nat, i: nat)
    requires Cells(c, plan) && |plan| == |cells| && j < |plan| && i < |plan|
    requires forall j: nat :: j < |plan| ==> plan[j] == cells[j].(up := UpIn(c, cells, j))
    requires ChildOf(c, cells, j, i)
    ensures plan[i].up == Some(j)
  {
    hide Cells, IsLeaf;
    var u := UpIn(c, cells, i).value;
    assert ChildOf(c, plan, u, i) && ChildOf(c, plan, j, i);
    if u < j {
      LaterParent(c, plan, u, j, i);
    } else if j < u {
      LaterParent(c, plan, j, u, i);
    }
  }

  // ---------- keys and the end of the plan ----------

  lemma {:induction false} UptoPrefix(s: Stream, k: nat, m: nat)
    requires k <= m <= Length(s)
    ensures IsPrefix(Upto(s, k), Upto(s, m))
  {
    if m < Length(s) {
      UptoPrefix(s.before, k, m);
    }
  }

  /** No two items have the same key. */
  ghost predicate KeysApart(c: Config, plan: Plan) {
    forall i: nat, j: nat :: i < j < |plan| ==> KeyAt(c, i) != KeyAt(c, j)
  }

  lemma DistinctApart(c: Config, s: Stream)
    requires Reads(c, s) && Distinct(s)
    ensures KeysApart(c, PlanOf(c, s))
  {
    var plan := PlanOf(c, s);
    hide PlanOf, Number, Reads, NodeKey, FastKey, Nonce, Upto, Parse, CellOf, Distinct;
    forall i: nat, j: nat | i < j < |plan| ensures KeyAt(c, i) != KeyAt(c, j) {
      PlanAt(c, s, i);
      PlanAt(c, s, j);
      UptoPrefix(s, i + 1, j);
      DistinctPrefix(Upto(s, j + 1), s);
      ReadBack.EarlierKeysDiffer(c.prefix, Upto(s, i + 1), Upto(s, j + 1));
    }
  }

  lemma FastOk(c: Config, s: Stream)
    ensures FastApart(c, PlanOf(c, s))
  {
    var plan := PlanOf(c, s);
    hide PlanOf, NodeKey, FastKey;
    forall i: nat, j: nat | i < |plan| && j < |plan| ensures KeyAt(c, i) != FastKey(c.prefix, Item(c, j).node.key) {
      KeySpacesDisjoint(c.prefix, Item(c, i).node.version, Item(c, i).nonce, Item(c, j).node.key, []);
    }
  }

  /** The heights of the two topmost trees are those of the items at their roots. */
  lemma TopHeights(p: Stream)
    requires p.Then? && Parse(p).Some?
    ensures Height(TopTree(p)) == p.item.height
    ensures Parse(p).value.rest.Snoc? <==> Lowest(p) > 0
    ensures Lowest(p) > 0 ==>
      var l := Drop(p, Nodes(TopTree(p)));
      l.Then? && Parse(l).Some? && Parse(p).value.rest == Parse(l).value && Height(TopTree(l)) == l.item.height
  {
    ParseBelowTop(p);
    TopTreeOf(p);
    var l := Drop(p, Nodes(TopTree(p)));
    if l.Then? {
      TopTreeOf(l);
    }
    hide Drop, Nodes;
  }

  lemma RejectedItem(p: Stream, x: ExportNode)
    requires Parse(p).Some? && Parse(Then(p, x)).None?
    ensures x.height != 0 && !ClosesPair(Parse(p).value, x.height)
  {}

  lemma PlanLength(c: Config, s: Stream)
    ensures |PlanOf(c, s)| == Length(Accepted(s)) <= Length(s)
    ensures |PlanOf(c, s)| == Length(s) <==> Parse(s).Some?
  {
    hide Parse;
    if Parse(s).None? {
      AcceptedEnds(s);
    }
  }

  lemma EndsOk(c: Config, s: Stream)
    requires Reads(c, s)
    ensures EndsWell(c, PlanOf(c, s))
  {
    PlanLength(c, s);
    hide PlanOf, CellOf, Nonce, Accepted, Parse, Upto, Length;
    var k := |PlanOf(c, s)|;
    if k < Length(s) {
      AcceptedEnds(s);
      NumberAt(s, k);
      UptoBefore(s, k);
      AcceptedUpto(s, k);
      RejectedItem(Upto(s, k), Upto(s, k + 1).item);
      if k > 0 {
        LastTwo(c, s, k);
      }
    }
  }

  lemma LastTwo(c: Config, s: Stream, k: nat)
    requires Reads(c, s) && 0 < k <= |PlanOf(c, s)|
    ensures Upto(s, k).Then? && Parse(Upto(s, k)).Some? && PlanOf(c, s)[k - 1].lo == Lowest(Upto(s, k))
    ensures var lo, f := PlanOf(c, s)[k - 1].lo, Parse(Upto(s, k)).value;
            && lo < k && Height(f.top) == Item(c, k - 1).node.height
            && (f.rest.Snoc? <==> lo > 0)
            && (lo > 0 ==> Height(f.rest.top) == Item(c, lo - 1).node.height)
  {
    hide PlanOf, Nonce, Parse, Number, RootHash, NodeBytes, FastImported, Upto;
    PlanAt(c, s, k - 1);
    LoBound(c, s, k - 1);
    var p := Upto(s, k);
    TopHeights(p);
    var lo := Lowest(p);
    if lo > 0 {
      var n := Nodes(TopTree(p));
      DropInside(p, n);
      DropUpto(s, k, n);
      UptoLength(s, k - n);
      PlanAt(c, s, lo - 1);
    }
  }

  /** Every stream has a plan. */
  lemma PlanOk(c: Config, s: Stream)
    requires Reads(c, s)
    ensures WfPlan(c, PlanOf(c, s))
  {
    hide *;
    EndsOk(c, s);
    CellsOk(c, s);
    ParentsOk(c, s);
    FastOk(c, s);
    WfPlanOf(c, PlanOf(c, s));
  }

  lemma WfPlanOf(c: Config, plan: Plan)
    requires EndsWell(c, plan) && Cells(c, plan) && Parents(c, plan) && FastApart(c, plan)
    ensures WfPlan(c, plan)
  {}
}
