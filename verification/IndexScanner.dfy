/** The indexer: a buffered scan of the decompressed stream that finds where each store's segment starts and
    ends. */
module IndexScanner {
  import opened Bytes
  import opened PinHandoff

  /** The underlying reader: each read returns some bytes, as many as it likes, until the stream ends. */
  class Source {
    const data: bytes
    var at: nat

    constructor (data: bytes)
      ensures this.data == data && at == 0
    {
      this.data, at := data, 0;
    }

    method Read(max: nat) returns (got: bytes)
      requires at <= |data| && max > 0
      modifies this
      ensures at <= |data| && |got| <= max && at == old(at) + |got| && got == data[old(at)..at]
      ensures got == [] <==> old(at) == |data|
    {
      if at == |data| {
        return [];
      }
      var k: nat :| 0 < k <= max && at + k <= |data|;
      got := data[at..at + k];
      at := at + k;
    }
  }

  class Scanner {
    const src: Source
    var buf: array<byte>
    var r0: nat
    var w0: nat
    var pos: nat

    ghost predicate Valid()
      reads this, src, buf
    {
      && r0 <= w0 <= buf.Length && buf.Length > 0
      && src.at <= |src.data| && pos <= |src.data|
      && buf[r0..w0] + src.data[src.at..] == src.data[pos..]
    }

    /** What has not been consumed yet. */
    ghost function Rest(): bytes
      reads this, src
    {
      if pos <= |src.data| then src.data[pos..] else []
    }

    constructor (src: Source)
      requires src.at == 0
      ensures Valid() && this.src == src && pos == 0 && fresh(buf)
    {
      this.src := src;
      buf, r0, w0, pos := new byte[1048576](_ => 0), 0, 0, 0;
    }

    /** Moves the unread bytes to the front of the buffer. */
    method Compact()
      requires Valid()
      modifies this`r0, this`w0, buf
      ensures Valid() && r0 == 0 && w0 == old(w0 - r0)
    {
      ghost var before := buf[r0..w0];
      forall i | 0 <= i < w0 - r0 {
        buf[i] := buf[r0 + i];
      }
      w0, r0 := w0 - r0, 0;
      assert buf[0..w0] == before;
    }

    method Grow(n: nat)
      requires Valid() && r0 == 0 && n > buf.Length
      modifies this`buf
      ensures Valid() && buf.Length == 2 * n && fresh(buf)
    {
      var grown := new byte[2 * n](_ => 0);
      forall i | 0 <= i < w0 {
        grown[i] := buf[i];
      }
      assert grown[0..w0] == buf[0..w0];
      buf := grown;
    }

    /** Appends what one read returns to the buffer. */
    method ReadMore() returns (eof: bool)
      requires Valid() && w0 < buf.Length
      modifies this`w0, buf, src
      ensures Valid()
      ensures eof ==> w0 == old(w0) && src.at == |src.data|
      ensures !eof ==> w0 > old(w0)
    {
      ghost var unread, ahead := buf[r0..w0], src.data[src.at..];
      var got := src.Read(buf.Length - w0);
      forall i | 0 <= i < |got| {
        buf[w0 + i] := got[i];
      }
      w0 := w0 + |got|;
      eof := got == [];
      assert buf[r0..w0] == unread + got;
      assert ahead == got + src.data[src.at..];
    }

    /** Makes at least n bytes available; fails when the stream ends before. */
    method Fill(n: nat) returns (ok: bool)
      requires Valid() && n > 0
      modifies this`buf, this`r0, this`w0, buf, src
      ensures Valid() && (buf == old(buf) || fresh(buf))
      ensures ok ==> w0 - r0 >= n
      ensures ok <==> |Rest()| >= n
    {
      if w0 - r0 >= n {
        RestBounds();
        return true;
      }
      if r0 > 0 {
        Compact();
      }
      while w0 < n
        invariant Valid() && r0 == 0 && (buf == old(buf) || fresh(buf))
        decreases |src.data| - src.at, n - w0
      {
        if w0 == buf.Length {
          Grow(n);
        }
        var eof := ReadMore();
        if eof {
          RestBounds();
          return false;
        }
      }
      RestBounds();
      ok := true;
    }

    lemma RestBounds()
      requires Valid()
      ensures |Rest()| == w0 - r0 + (|src.data| - src.at)
      ensures forall i :: r0 <= i < w0 ==> buf[i] == Rest()[i - r0]
    {
      assert |buf[r0..w0] + src.data[src.at..]| == |src.data[pos..]|;
      forall i | r0 <= i < w0 ensures buf[i] == Rest()[i - r0] {
        assert (buf[r0..w0] + src.data[src.at..])[i - r0] == buf[i];
      }
    }

    /** Consumes k bytes that are in the buffer. */
    method Skip(k: nat)
      requires Valid() && k <= w0 - r0
      modifies this`r0, this`pos
      ensures Valid() && pos == old(pos) + k && r0 == old(r0) + k && Rest() == old(Rest())[k..]
    {
      RestBounds();
      ghost var whole := buf[r0..w0] + src.data[src.at..];
      assert whole[k..] == buf[r0 + k..w0] + src.data[src.at..];
      assert src.data[pos..][k..] == src.data[pos + k..];
      r0, pos := r0 + k, pos + k;
    }

    method ReadByte() returns (b: Option<byte>)
      requires Valid()
      modifies this`buf, this`r0, this`w0, this`pos, buf, src
      ensures Valid() && (buf == old(buf) || fresh(buf))
      ensures b == if old(Rest()) == [] then None else Some(old(Rest())[0])
      ensures pos == old(pos) + if b.Some? then 1 else 0
      ensures Rest() == if b.Some? then old(Rest())[1..] else []
    {
      var ok := Fill(1);
      if !ok {
        return None;
      }
      RestBounds();
      b := Some(buf[r0]);
      Skip(1);
    }

    method PeekByte() returns (b: Option<byte>)
      requires Valid()
      modifies this`buf, this`r0, this`w0, buf, src
      ensures Valid() && (buf == old(buf) || fresh(buf))
      ensures b == if Rest() == [] then None else Some(Rest()[0])
    {
      var ok := Fill(1);
      if !ok {
        return None;
      }
      RestBounds();
      b := Some(buf[r0]);
    }

    /** Reads a varint byte by byte, keeping 64 bits of its value. */
    method ReadUvarint() returns (r: Varint)
      requires Valid()
      modifies this`buf, this`r0, this`w0, this`pos, buf, src
      ensures Valid() && (buf == old(buf) || fresh(buf))
      ensures match r
              case CleanEnd => old(Rest()) == [] && pos == old(pos)
              case Broken => old(Rest()) != [] && ScanUvarint(old(Rest())).None?
              case Got(v) =>
                && ScanUvarint(old(Rest())).Some?
                && var (x, n) := ScanUvarint(old(Rest())).value;
                   v == x % TWO_64 && pos == old(pos) + n && Rest() == old(Rest())[n..]
    {
      hide Valid, Rest, ScanUvarint, Reading;
      ghost var whole, start := Rest(), pos;
      StartReading(whole);
      var v: uint64 := 0;
      var scale: nat := 1;
      ghost var acc: nat := 0;
      for i := 0 to 10
        invariant Valid() && (buf == old(buf) || fresh(buf))
        invariant pos == start + i && i <= |whole| && Rest() == whole[i..]
        invariant Reading(whole, i, acc, scale) && v == acc % TWO_64
      {
        var next := ReadByte();
        if next.None? {
          NothingThere(whole, i, acc, scale);
          return if i == 0 then CleanEnd else Broken;
        }
        var b := next.value;
        assert Rest() == whole[i + 1..];
        ModAdd(acc, scale * (b % 128));
        v := (v + scale * (b % 128)) % TWO_64;
        if b < 128 {
          StopReading(whole, i, acc, scale);
          return Varint.Got(v);
        }
        KeepReading(whole, i, acc, scale);
        acc, scale := acc + scale * (b % 128), scale * 128;
      }
      TenBytes(whole, acc, scale);
      r := Broken;
    }

    /** The call where the item reader would accept the varint: both read the same. */
    method ReadLength() returns (v: uint64)
      requires Valid() && Uvarint(Rest()).Some?
      modifies this`buf, this`r0, this`w0, this`pos, buf, src
      ensures Valid() && (buf == old(buf) || fresh(buf)) && pos <= |src.data|
      ensures Uvarint(old(Rest())) == Some((v as nat, pos - old(pos))) && Rest() == old(Rest())[pos - old(pos)..]
    {
      hide ScanUvarint, Uvarint, Rest;
      ScanAgrees(Rest());
      var r := ReadUvarint();
      v := r.v;
    }

    /** Advances past k bytes without copying them; fails at the end of the stream when there are fewer. */
    method Discard(k: nat) returns (ok: bool)
      requires Valid()
      modifies this`r0, this`w0, this`pos, buf, src
      ensures Valid() && (ok <==> k <= |old(Rest())|)
      ensures ok ==> pos == old(pos) + k && Rest() == old(Rest())[k..]
      ensures !ok ==> Rest() == []
    {
      var n := k;
      RestBounds();
      while n > 0
        invariant Valid() && buf == old(buf)
        invariant pos + n == old(pos) + k && 0 <= n
        decreases n, |src.data| - src.at
      {
        RestBounds();
        var avail := w0 - r0;
        if avail >= n {
          Skip(n);
          return true;
        }
        Skip(avail);
        n := n - avail;
        RestBounds();
        r0, w0 := 0, 0;
        assert buf[0..0] + src.data[src.at..] == src.data[src.at..];
        var eof := ReadMore();
        if eof {
          RestBounds();
          return false;
        }
      }
      ok := true;
    }

    /** Copies what is buffered, up to max bytes, after making sure that something is; None at the stream's end. */
    method CopySome(max: nat) returns (got: Option<bytes>)
      requires Valid() && 0 < max
      modifies this`buf, this`r0, this`w0, this`pos, buf, src
      ensures Valid() && (buf == old(buf) || fresh(buf))
      ensures got.None? <==> old(Rest()) == []
      ensures got.None? ==> pos == old(pos)
      ensures got.Some? ==>
        && 0 < |got.value| <= max && got.value <= old(Rest())
        && pos == old(pos) + |got.value| && Rest() == old(Rest())[|got.value|..]
    {
      var ok := Fill(1);
      if !ok {
        return None;
      }
      RestBounds();
      var n := if w0 - r0 < max then w0 - r0 else max;
      got := Some(buf[r0..r0 + n]);
      assert got.value == Rest()[..n];
      Skip(n);
    }

    /** Copies the next k bytes out; None when the stream ends before. */
    method ReadExact(k: nat) returns (out: Option<bytes>)
      requires Valid()
      modifies this`buf, this`r0, this`w0, this`pos, buf, src
      ensures Valid() && (buf == old(buf) || fresh(buf))
      ensures out == if k <= |old(Rest())| then Some(old(Rest())[..k]) else None
      ensures out.Some? ==> pos == old(pos) + k && Rest() == old(Rest())[k..]
    {
      hide Valid, Rest;
      var done: bytes := [];
      ghost var start, rest := pos, Rest();
      while |done| < k
        invariant Valid() && (buf == old(buf) || fresh(buf))
        invariant |done| <= |rest| && |done| <= k && pos == start + |done|
        invariant done == rest[..|done|] && Rest() == rest[|done|..]
        decreases k - |done|
      {
        ghost var before := done;
        var got := CopySome(k - |done|);
        if got.None? {
          return None;
        }
        assert rest[|before|..][..|got.value|] == rest[|before|..|before| + |got.value|];
        done := done + got.value;
        assert rest[..|done|] == rest[..|before|] + rest[|before|..|done|];
      }
      out := Some(done);
    }

    /** Reads a length-prefixed string of which the ghost name is the content. */
    method ReadName(ghost len: nat, ghost name: bytes) returns (r: bytes)
      requires Valid() && NameAt(Rest(), name, len)
      modifies this`buf, this`r0, this`w0, this`pos, buf, src
      ensures Valid() && (buf == old(buf) || fresh(buf)) && pos == old(pos) + len && r == name
      ensures Rest() == old(Rest())[len..]
    {
      hide Valid, Rest, Uvarint;
      ghost var s := Rest();
      var nameLen := ReadLength();
      ghost var n := Uvarint(s).value.1;
      var out := ReadExact(nameLen);
      r := out.value;
      RestFrom(s, n, |name|);
    }

    /** Reads the tag and the length of the inner message, and the tag of its name. */
    method ReadStoreTags(ghost n: nat)
      requires Valid() && |Rest()| > n + 1 && Uvarint(Rest()[1..]).Some? && Uvarint(Rest()[1..]).value.1 == n
      modifies this`buf, this`r0, this`w0, this`pos, buf, src
      ensures Valid() && (buf == old(buf) || fresh(buf)) && pos == old(pos) + n + 2
      ensures Rest() == old(Rest())[n + 2..]
    {
      hide Valid, Rest, Uvarint;
      ghost var s := Rest();
      var tag := ReadByte();
      var innerLen := ReadLength();
      RestFrom(s, 1, n);
      var nameTag := ReadByte();
      RestFrom(s, n + 1, 1);
    }

    /** Reads a store item's envelope body, of which the ghost name says what it encodes. Such a body leaves
        nothing to skip after the name. */
    method ReadStoreName(envLen: nat, ghost name: bytes) returns (r: bytes)
      requires Valid() && envLen <= |Rest()| && Rest()[..envLen] == StoreBody(name) && |name| < 0x1_0000_0000
      modifies this`buf, this`r0, this`w0, this`pos, buf, src
      ensures Valid() && (buf == old(buf) || fresh(buf)) && pos == old(pos) + envLen && r == name
      ensures Rest() == old(Rest())[envLen..]
    {
      hide StoreBody, Uvarint, Valid, Rest, NameAt;
      ghost var s := Rest();
      StoreBodyParts(name, s, envLen);
      ghost var n := Uvarint(s[1..]).value.1;
      ReadStoreTags(n);
      r := ReadName(envLen - n - 2, name);
      RestFrom(s, n + 2, envLen - n - 2);
    }
  }

  /** A length-prefixed string stands at the front and takes len bytes. */
  predicate NameAt(s: bytes, name: bytes, len: nat) {
    && Uvarint(s).Some? && Uvarint(s).value.0 == |name|
    && Uvarint(s).value.1 + |name| == len <= |s|
    && s[Uvarint(s).value.1..len] == name
  }

  lemma RestFrom(data: bytes, a: nat, k: nat)
    requires a + k <= |data|
    ensures data[a..][k..] == data[a + k..]
  {}

  lemma FiveParts(s: bytes, body: bytes, u1: bytes, u3: bytes, name: bytes, tail: bytes)
    requires body == [0x0A] + (u1 + ([0x0A] + (u3 + name))) && s == body + tail
    ensures s[1..] == u1 + ([0x0A] + u3 + name + tail)
    ensures s[|u1| + 2..] == u3 + (name + tail)
    ensures s[|u1| + 2..][|u3|..|u3| + |name|] == name
  {}

  lemma StoreBodyParts(name: bytes, s: bytes, envLen: nat)
    requires envLen <= |s| && s[..envLen] == StoreBody(name) && |name| < 0x1_0000_0000
    ensures |s| >= 1 && Uvarint(s[1..]).Some?
    ensures var n := Uvarint(s[1..]).value.1;
            n + 2 <= envLen && NameAt(s[n + 2..], name, envLen - n - 2)
  {
    UvarintLen(|name|);
    hide PutUvarint, Uvarint;
    var u1, u3, tail := PutUvarint(|[0x0A] + PutBytes(name)|), PutUvarint(|name|), s[envLen..];
    FiveParts(s, StoreBody(name), u1, u3, name, tail);
    UvarintRoundTrip(|[0x0A] + PutBytes(name)|, [0x0A] + u3 + name + tail);
    UvarintRoundTrip(|name|, name + tail);
  }

  lemma UvarintLen(x: nat)
    requires x < 0x1_0000_0000
    ensures |PutUvarint(x)| <= 5
  {
    var a := x / 128;
    var b := a / 128;
    var c := b / 128;
    var d := c / 128;
    assert d < 128;
    assert |PutUvarint(d)| == 1;
    assert |PutUvarint(c)| <= 2;
    assert |PutUvarint(b)| <= 3;
    assert |PutUvarint(a)| <= 4;
  }

  /** A store item on the wire: a message with one message with one string. */
  function StoreBody(name: bytes): bytes {
    [0x0A] + PutBytes([0x0A] + PutBytes(name))
  }

  // ---------- the scanner's varints ----------

  datatype Varint = CleanEnd | Broken | Got(v: uint64)

  /** The value and the length of a varint of at most ten bytes, however many bits it has. */
  function ScanUvarint(s: bytes, i: nat := 0): (r: Option<(nat, nat)>)
    ensures r.Some? ==> 1 <= r.value.1 <= |s|
  {
    if s == [] || i > 9 then None
    else if s[0] < 128 then Some((s[0], 1))
    else
      match ScanUvarint(s[1..], i + 1)
      case None => None
      case Some((v, n)) => Some((s[0] - 128 + 128 * v, n + 1))
  }

  /** The scanner reads what the item reader reads, but it also takes the varints that the reader refuses because they
      have more than 64 bits. */
  lemma {:induction false} AgreesFrom(s: bytes, i: nat)
    requires i <= 9
    ensures Uvarint(s, i).Some? ==> ScanUvarint(s, i) == Uvarint(s, i)
    ensures ScanUvarint(s, i).Some? ==> (Uvarint(s, i).Some? <==> ScanUvarint(s, i).value.0 < Room(i))
    decreases 9 - i
  {
    RoomPositive(i);
    if s != [] && s[0] >= 128 && i < 9 {
      AgreesFrom(s[1..], i + 1);
    }
  }

  lemma ScanAgrees(s: bytes)
    ensures Uvarint(s).Some? ==> ScanUvarint(s) == Uvarint(s) && Uvarint(s).value.0 < TWO_64
    ensures ScanUvarint(s).Some? ==> (Uvarint(s).Some? <==> ScanUvarint(s).value.0 < TWO_64)
  {
    RoomIs64Bits();
    AgreesFrom(s, 0);
    if Uvarint(s).Some? {
      UvarintBound(s, 0);
    }
  }

  /** Such a varint: n bytes 0xFF, then 0x7F. */
  function Overlong(n: nat): bytes {
    if n == 0 then [0x7F] else [0xFF] + Overlong(n - 1)
  }

  lemma {:induction false} OverlongValue(n: nat, i: nat)
    requires n + i <= 9
    ensures |Overlong(n)| == n + 1
    ensures ScanUvarint(Overlong(n), i).Some? && ScanUvarint(Overlong(n), i).value.1 == n + 1
    ensures n > 0 ==>
      ScanUvarint(Overlong(n), i).value.0 == 127 + 128 * ScanUvarint(Overlong(n - 1), i + 1).value.0
  {
    if n > 0 {
      OverlongValue(n - 1, i + 1);
      assert Overlong(n)[1..] == Overlong(n - 1);
    }
  }

  /** Ten bytes that the scanner takes for a varint and the item reader does not. */
  lemma OverlongScans()
    ensures Overlong(9) == [0xFF, 0xFF, 0xFF, 0xFF, 0xFF, 0xFF, 0xFF, 0xFF, 0xFF, 0x7F]
    ensures ScanUvarint(Overlong(9)).Some? && Uvarint(Overlong(9)).None?
  {
    OverlongBytes();
    hide Overlong, ScanUvarint;
    OverlongValue(9, 0);
    OverlongValue(8, 1);
    OverlongValue(7, 2);
    OverlongValue(6, 3);
    OverlongValue(5, 4);
    OverlongValue(4, 5);
    OverlongValue(3, 6);
    OverlongValue(2, 7);
    OverlongValue(1, 8);
    ScanAgrees(Overlong(9));
  }

  lemma OverlongBytes()
    ensures Overlong(9) == [0xFF, 0xFF, 0xFF, 0xFF, 0xFF, 0xFF, 0xFF, 0xFF, 0xFF, 0x7F]
  {
    assert Overlong(5) == [0xFF, 0xFF, 0xFF, 0xFF, 0xFF, 0x7F];
  }

  /** After i bytes of a varint: what they are worth, and what the byte after them counts for. */
  ghost predicate Reading(whole: bytes, i: nat, acc: nat, scale: nat) {
    && i <= |whole|
    && ScanUvarint(whole) ==
       match ScanUvarint(whole[i..], i)
       case None => None
       case Some((v, n)) => Some((acc + scale * v, i + n))
  }

  lemma StartReading(whole: bytes)
    ensures Reading(whole, 0, 0, 1)
  {
    assert whole[0..] == whole;
    hide ScanUvarint;
  }

  lemma NothingThere(whole: bytes, i: nat, acc: nat, scale: nat)
    requires Reading(whole, i, acc, scale) && whole[i..] == []
    ensures ScanUvarint(whole).None?
  {}

  lemma TenBytes(whole: bytes, acc: nat, scale: nat)
    requires Reading(whole, 10, acc, scale)
    ensures ScanUvarint(whole).None? && whole != []
  {}

  lemma StopReading(whole: bytes, i: nat, acc: nat, scale: nat)
    requires Reading(whole, i, acc, scale) && i < |whole| && i < 10 && whole[i] < 128
    ensures ScanUvarint(whole) == Some((acc + scale * whole[i], i + 1))
  {
    assert ScanUvarint(whole[i..], i) == Some((whole[i] as nat, 1));
  }

  lemma KeepReading(whole: bytes, i: nat, acc: nat, scale: nat)
    requires Reading(whole, i, acc, scale) && i < |whole| && i < 10 && whole[i] >= 128
    ensures Reading(whole, i + 1, acc + scale * (whole[i] % 128), scale * 128)
  {
    var s := whole[i..];
    assert s[1..] == whole[i + 1..] && s[0] == whole[i];
    var w := ScanUvarint(s[1..], i + 1);
    if w.Some? {
      Distribute(scale, s[0] - 128, w.value.0);
    }
  }

  lemma ModAdd(x: nat, y: nat)
    ensures (x % TWO_64 + y) % TWO_64 == (x + y) % TWO_64
  {}

  lemma Distribute(scale: nat, a: nat, w: nat)
    ensures scale * (a + 128 * w) == scale * a + scale * 128 * w
  {}
}