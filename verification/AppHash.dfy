/** The app hash: the Merkle root over the stores in name order. It does not depend on the order of the stores in
    the record, and while no two hashed strings collide it determines the stores. */
module AppHash {
  import opened Bytes
  import opened IavlEncoding
  import opened CommitInfo

  // ---------- the tree hash of section 2.1 of RFC 6962 ----------

  predicate PowerOfTwo(n: nat) {
    n == 1 || (n > 0 && n % 2 == 0 && PowerOfTwo(n / 2))
  }

  /** The largest power of two below n. */
  function SplitPoint(n: nat): (k: nat)
    requires n >= 2
    ensures PowerOfTwo(k) && 1 <= k < n <= 2 * k
  {
    if n == 2 then 1 else 2 * SplitPoint((n + 1) / 2)
  }

  /** The string that is hashed for a list of leaf inputs. */
  function Preimage(sha: Sha, d: seq<bytes>): bytes
    decreases |d|, 0
  {
    if |d| == 0 then []
    else if |d| == 1 then [0] + d[0]
    else
      var k := SplitPoint(|d|);
      [1] + TreeHash(sha, d[..k]) + TreeHash(sha, d[k..])
  }

  function TreeHash(sha: Sha, d: seq<bytes>): Hash32
    decreases |d|, 1
  {
    sha(Preimage(sha, d))
  }

  /** The string p is a node over the first k and the remaining leaf inputs: a byte 1, the hash of the first k, and the
      hash of the rest. */
  ghost predicate NodeOver(sha: Sha, d: seq<bytes>, p: bytes, k: nat) {
    && PowerOfTwo(k) && k < |d| <= 2 * k
    && |p| == 65 && p[0] == 1 && p[1..33] == TreeHash(sha, d[..k]) && p[33..] == TreeHash(sha, d[k..])
  }

  /** What is hashed for no leaf input, for one, and for several. */
  lemma TreeHashOf(sha: Sha, d: seq<bytes>)
    ensures |d| == 0 ==> TreeHash(sha, d) == sha([])
    ensures |d| == 1 ==> exists p :: TreeHash(sha, d) == sha(p) && |p| > 0 && p[0] == 0 && p[1..] == d[0]
    ensures |d| >= 2 ==> exists p, k: nat :: TreeHash(sha, d) == sha(p) && NodeOver(sha, d, p, k)
  {
    var p := Preimage(sha, d);
    assert TreeHash(sha, d) == sha(p);
    if |d| == 1 {
      assert p[1..] == d[0];
    } else if |d| >= 2 {
      var k := SplitPoint(|d|);
      assert p[1..33] == TreeHash(sha, d[..k]) && p[33..] == TreeHash(sha, d[k..]);
      assert NodeOver(sha, d, p, k);
    }
  }

  /** Every string that is hashed on the way to the root. */
  ghost function Hashed(sha: Sha, d: seq<bytes>): set<bytes>
    decreases |d|
  {
    {Preimage(sha, d)} +
    if |d| < 2 then {} else
      var k := SplitPoint(|d|);
      Hashed(sha, d[..k]) + Hashed(sha, d[k..])
  }

  ghost predicate NoCollision(sha: Sha, xs: set<bytes>) {
    forall x, y :: x in xs && y in xs && sha(x) == sha(y) ==> x == y
  }

  /** The root determines the leaf inputs, and with them their number. */
  lemma {:induction false} TreeHashDetermines(sha: Sha, a: seq<bytes>, b: seq<bytes>, xs: set<bytes>)
    requires NoCollision(sha, xs) && Hashed(sha, a) <= xs && Hashed(sha, b) <= xs
    requires TreeHash(sha, a) == TreeHash(sha, b)
    ensures a == b
    decreases |a|
  {
    var p, q := Preimage(sha, a), Preimage(sha, b);
    assert p in Hashed(sha, a) && q in Hashed(sha, b);
    assert p == q;
    if |a| == 0 || |b| == 0 {
    } else if |a| == 1 || |b| == 1 {
      assert p[0] == q[0] && |a| == |b|;
      assert a[0] == p[1..] == q[1..] == b[0];
    } else {
      var j, k := SplitPoint(|a|), SplitPoint(|b|);
      assert TreeHash(sha, a[..j]) == p[1..33] == q[1..33] == TreeHash(sha, b[..k]);
      assert TreeHash(sha, a[j..]) == p[33..] == q[33..] == TreeHash(sha, b[k..]);
      TreeHashDetermines(sha, a[..j], b[..k], xs);
      TreeHashDetermines(sha, a[j..], b[k..], xs);
      assert a == a[..j] + a[j..] && b == b[..k] + b[k..];
    }
  }

  // ---------- leaf inputs ----------

  /** A store's leaf: its name and the hash of its root hash, each with its length in front. */
  function LeafInput(sha: Sha, si: StoreInfo): bytes {
    PutUvarint(|si.name|) + si.name + PutUvarint(32) + sha(si.hash)
  }

  function LeafInputs(sha: Sha, infos: seq<StoreInfo>): (r: seq<bytes>)
    ensures |r| == |infos| && forall i :: 0 <= i < |infos| ==> r[i] == LeafInput(sha, infos[i])
  {
    seq(|infos|, i requires 0 <= i < |infos| => LeafInput(sha, infos[i]))
  }

  function ReadLeafInput(s: bytes): Parsed<(bytes, bytes)> {
    var (name, s) :- GetBytes(s);
    var (value, s) :- GetBytes(s);
    Got((name, value), s)
  }

  /** A leaf input reads as the name and then the hash of the root hash, with nothing left over. */
  lemma LeafInputReads(sha: Sha, si: StoreInfo)
    requires |si.name| < TWO_64
    ensures ReadLeafInput(LeafInput(sha, si)) == Got((si.name, sha(si.hash)), [])
  {
    hide GetBytes, PutUvarint;
    var value := PutBytes(sha(si.hash));
    assert LeafInput(sha, si) == PutBytes(si.name) + value;
    GetBytesRoundTrip(si.name, value);
    assert value + [] == value;
    GetBytesRoundTrip(sha(si.hash), []);
  }

  lemma LeafInputDetermines(sha: Sha, a: StoreInfo, b: StoreInfo)
    requires |a.name| < TWO_64 && |b.name| < TWO_64
    requires LeafInput(sha, a) == LeafInput(sha, b)
    ensures a.name == b.name && sha(a.hash) == sha(b.hash)
  {
    var x, y := PutUvarint(32) + sha(a.hash), PutUvarint(32) + sha(b.hash);
    assert LeafInput(sha, a) == PutBytes(a.name) + x && LeafInput(sha, b) == PutBytes(b.name) + y;
    GetBytesRoundTrip(a.name, x);
    GetBytesRoundTrip(b.name, y);
    assert x[|x| - 32..] == sha(a.hash) && y[|y| - 32..] == sha(b.hash);
  }

  // ---------- name order ----------

  predicate ByName(s: seq<StoreInfo>) {
    forall i, j :: 0 <= i < j < |s| ==> !Less(s[j].name, s[i].name)
  }

  /** Stores of one name are one store; this holds when all names differ. */
  predicate OneStoreAName(s: seq<StoreInfo>) {
    forall x, y :: x in s && y in s && x.name == y.name ==> x == y
  }

  lemma DistinctNames(s: seq<StoreInfo>)
    requires forall i, j :: 0 <= i < j < |s| ==> s[i].name != s[j].name
    ensures OneStoreAName(s)
  {}

  function Inserted(s: seq<StoreInfo>, si: StoreInfo): (r: seq<StoreInfo>)
    ensures multiset(r) == multiset(s) + multiset{si}
  {
    if s == [] || Less(si.name, s[0].name) then [si] + s
    else
      assert s == [s[0]] + s[1..];
      [s[0]] + Inserted(s[1..], si)
  }

  lemma {:induction false} InsertedByName(s: seq<StoreInfo>, si: StoreInfo)
    requires ByName(s)
    ensures ByName(Inserted(s, si))
  {
    var r := Inserted(s, si);
    if s == [] {
    } else if Less(si.name, s[0].name) {
      forall j | 0 < j < |r| ensures !Less(r[j].name, si.name) {
        if Less(r[j].name, si.name) {
          LessTransitive(r[j].name, si.name, s[0].name);
          LessIrreflexive(s[0].name);
        }
      }
    } else {
      InsertedByName(s[1..], si);
      forall j | 0 < j < |r| ensures !Less(r[j].name, s[0].name) {
        assert r[j] in multiset(r[1..]);
        assert multiset(r[1..]) == multiset(s[1..]) + multiset{si};
      }
    }
  }

  /** The stores in name order. */
  function Sorted(s: seq<StoreInfo>): (r: seq<StoreInfo>)
    ensures multiset(r) == multiset(s)
  {
    if s == [] then []
    else
      assert s == s[..|s| - 1] + [s[|s| - 1]];
      Inserted(Sorted(s[..|s| - 1]), s[|s| - 1])
  }

  lemma {:induction false} SortedByName(s: seq<StoreInfo>)
    ensures ByName(Sorted(s))
  {
    if s != [] {
      SortedByName(s[..|s| - 1]);
      InsertedByName(Sorted(s[..|s| - 1]), s[|s| - 1]);
    }
  }

  /** There is one name order of a collection of stores. */
  lemma {:induction false} NameOrderUnique(a: seq<StoreInfo>, b: seq<StoreInfo>)
    requires ByName(a) && ByName(b) && OneStoreAName(a) && multiset(a) == multiset(b)
    ensures a == b
  {
    hide Less, OneStoreAName, ByName;
    assert |a| == |multiset(a)| == |multiset(b)| == |b|;
    if a != [] {
      SameHead(a, b);
      TailMultiset(a);
      TailMultiset(b);
      Tail(a);
      Tail(b);
      NameOrderUnique(a[1..], b[1..]);
      assert a == [a[0]] + a[1..] && b == [b[0]] + b[1..];
    }
  }

  lemma TailMultiset(s: seq<StoreInfo>)
    requires s != []
    ensures multiset(s[1..]) == multiset(s) - multiset{s[0]}
  {
    assert s == [s[0]] + s[1..];
  }

  lemma SameHead(a: seq<StoreInfo>, b: seq<StoreInfo>)
    requires ByName(a) && ByName(b) && OneStoreAName(a) && multiset(a) == multiset(b) && a != [] && b != []
    ensures a[0] == b[0]
  {
    hide Less, ByName;
    assert a[0] in multiset(b) && b[0] in multiset(a);
    NoLower(a, b[0]);
    NoLower(b, a[0]);
    LessTotal(a[0].name, b[0].name);
  }

  lemma Tail(s: seq<StoreInfo>)
    requires s != [] && ByName(s)
    ensures ByName(s[1..]) && (OneStoreAName(s) ==> OneStoreAName(s[1..]))
  {
    hide Less;
    assert forall x :: x in s[1..] ==> x in s;
  }

  lemma NoLower(s: seq<StoreInfo>, x: StoreInfo)
    requires ByName(s) && x in s
    ensures !Less(x.name, s[0].name)
  {
    LessIrreflexive(x.name);
  }

  // ---------- the app hash ----------

  ghost function AppHash(sha: Sha, infos: seq<StoreInfo>): Hash32 {
    TreeHash(sha, LeafInputs(sha, Sorted(infos)))
  }

  /** The app hash is the tree hash over the stores in strictly increasing order of their names. */
  lemma AppHashIs(sha: Sha, infos: seq<StoreInfo>, order: seq<StoreInfo>)
    requires multiset(order) == multiset(infos)
    requires forall i, j :: 0 <= i < j < |order| ==> Less(order[i].name, order[j].name)
    ensures AppHash(sha, infos) == TreeHash(sha, LeafInputs(sha, order))
  {
    forall i, j | 0 <= i < j < |order| ensures !Less(order[j].name, order[i].name) && order[i].name != order[j].name {
      LessAsymmetric(order[i].name, order[j].name);
    }
    hide Less, TreeHash;
    DistinctNames(order);
    SameNames(order, infos);
    SortedByName(infos);
    SameNames(infos, Sorted(infos));
    NameOrderUnique(Sorted(infos), order);
  }

  /** Puts the stores in name order in place; equal names may come in either order. */
  method SortStores(infos: array<StoreInfo>)
    modifies infos
    ensures ByName(infos[..]) && multiset(infos[..]) == multiset(old(infos[..]))
  {
    var sorted := Sorted(infos[..]);
    SortedByName(infos[..]);
    assert |multiset(sorted)| == |sorted| && |multiset(infos[..])| == infos.Length;
    forall i | 0 <= i < infos.Length {
      infos[i] := sorted[i];
    }
    assert infos[..] == sorted;
  }

  /** The root over the sorted stores: the app hash, in whatever order the stores came. */
  method ComputeAppHash(sha: Sha, infos: array<StoreInfo>) returns (hash: Hash32)
    modifies infos
    ensures ByName(infos[..]) && multiset(infos[..]) == multiset(old(infos[..]))
    ensures hash == TreeHash(sha, LeafInputs(sha, infos[..]))
    ensures OneStoreAName(old(infos[..])) ==> hash == AppHash(sha, old(infos[..]))
  {
    ghost var given := infos[..];
    SortStores(infos);
    ghost var order := infos[..];
    var items := new bytes[infos.Length];
    for i := 0 to infos.Length
      invariant infos[..] == order
      invariant forall j :: 0 <= j < i ==> items[j] == LeafInput(sha, infos[j])
    {
      items[i] := LeafInput(sha, infos[i]);
    }
    assert items[..] == LeafInputs(sha, infos[..]);
    hash := TreeHash(sha, items[..]);
    SortedByName(given);
    if OneStoreAName(given) {
      SameNames(given, infos[..]);
      NameOrderUnique(infos[..], Sorted(given));
    }
  }

  lemma SameNames(a: seq<StoreInfo>, b: seq<StoreInfo>)
    requires OneStoreAName(a) && multiset(a) == multiset(b)
    ensures OneStoreAName(b)
  {
    forall x | x in b ensures x in a {
      assert x in multiset(b);
    }
  }

  /** All strings hashed for the app hash: the tree's and the stores' root hashes. */
  ghost function AllHashed(sha: Sha, infos: seq<StoreInfo>): set<bytes> {
    Hashed(sha, LeafInputs(sha, Sorted(infos))) + set si | si in infos :: si.hash
  }

  /** Two records have the same app hash exactly when they hold the same stores, in whatever order. */
  lemma AppHashIffSameStores(sha: Sha, a: seq<StoreInfo>, b: seq<StoreInfo>)
    requires OneStoreAName(a) && OneStoreAName(b)
    requires forall si :: si in a || si in b ==> |si.name| < TWO_64
    requires NoCollision(sha, AllHashed(sha, a) + AllHashed(sha, b))
    ensures AppHash(sha, a) == AppHash(sha, b) <==> multiset(a) == multiset(b)
  {
    if multiset(a) == multiset(b) {
      AppHashPermutes(sha, a, b);
    }
    if AppHash(sha, a) == AppHash(sha, b) {
      var s, t := Sorted(a), Sorted(b);
      var xs := AllHashed(sha, a) + AllHashed(sha, b);
      TreeHashDetermines(sha, LeafInputs(sha, s), LeafInputs(sha, t), xs);
      assert |s| == |t|;
      forall i | 0 <= i < |s| ensures s[i] == t[i] {
        assert LeafInput(sha, s[i]) == LeafInputs(sha, s)[i] == LeafInputs(sha, t)[i] == LeafInput(sha, t[i]);
        assert s[i] in multiset(s) && t[i] in multiset(t);
        assert s[i] in a && t[i] in b;
        LeafInputDetermines(sha, s[i], t[i]);
        assert s[i].hash in xs && t[i].hash in xs;
      }
      assert s == t;
    }
  }

  /** Reordering the stores does not change the app hash. */
  lemma AppHashPermutes(sha: Sha, a: seq<StoreInfo>, b: seq<StoreInfo>)
    requires OneStoreAName(a) && multiset(a) == multiset(b)
    ensures AppHash(sha, a) == AppHash(sha, b)
  {
    SortedByName(a);
    SortedByName(b);
    SameNames(a, Sorted(a));
    NameOrderUnique(Sorted(a), Sorted(b));
  }
}
