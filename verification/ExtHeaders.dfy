/** IPv6 extension headers: segment routing and fragment
    (capsule/src/packets/ip/v6). */
module ExtHeaders {
  import opened Bytes
  import opened Wrappers
  import opened Mbufs
  import opened Layers

  type Addr = s: seq<U8> | |s| == 16 witness seq(16, i => 0)

  datatype ExtError = BadSegments | Buffer(error: BufferError) | NotRouting | Inconsistent

  function Flat(segments: seq<Addr>): (r: seq<U8>)
    ensures |r| == 16 * |segments|
  {
    if segments == [] then [] else segments[0] + Flat(segments[1..])
  }

  /** The segment list as it lies in the buffer. */
  function Segments(b: seq<U8>, offset: nat, count: nat): seq<Addr>
    requires offset + 8 + 16 * count <= |b|
  {
    seq(count, i requires 0 <= i < count => b[offset + 8 + 16 * i..offset + 24 + 16 * i])
  }

  lemma {:induction false} FlatAt(segments: seq<Addr>, i: nat)
    requires i < |segments|
    ensures Flat(segments)[16 * i..16 * i + 16] == segments[i]
  {
    if i > 0 {
      FlatAt(segments[1..], i - 1);
      assert Flat(segments)[16..] == Flat(segments[1..]);
      assert Flat(segments)[16 * i..16 * i + 16] == Flat(segments)[16..][16 * (i - 1)..16 * (i - 1) + 16];
    }
  }

  // ---- the segment list ----

  /** The end of the bytes that a list of `n` segments replaces: the old list,
      and as many segments more as the count loses in eight bits. */
  function ListEnd(l: Layer, n: nat): nat
    requires l.SegmentRouting?
  {
    l.offset + 8 + 16 * (l.count + (n - Low8(n)))
  }

  /** One less than the count, which may have wrapped to zero. */
  function LastEntry(n: nat): U8 {
    var count: int := Low8(n);
    if count == 0 then 0xFF else count - 1
  }

  /** The buffer with the segment list of `l` replaced. */
  function WithSegments(l: Layer, b: seq<U8>, segments: seq<Addr>): (r: seq<U8>)
    requires l.SegmentRouting? && segments != [] && ListEnd(l, |segments|) <= |b|
    ensures |r| == |b| + 16 * Low8(|segments|) as int - 16 * l.count
  {
    (b[..l.offset + 8] + Flat(segments) + b[ListEnd(l, |segments|)..])
    [l.offset + 1 := Doubled(Low8(|segments|))][l.offset + 4 := LastEntry(|segments|)]
  }

  /** The list is inside the buffer, and the header says how long it is. */
  predicate HoldsList(l: Layer, b: seq<U8>) {
    l.SegmentRouting? && l.offset + 8 + 16 * l.count <= |b| && 1 <= l.count <= 0xFF &&
    b[l.offset + 4] == l.count - 1
  }

  method SetListFields(l: Layer, m: Mbuf, n: nat)
    requires m.Valid() && l.SegmentRouting? && l.offset + 8 <= m.dataLen
    modifies m.buf
    ensures m.Valid()
    ensures m.Data() == old(m.Data())[l.offset + 1 := Doubled(Low8(n))][l.offset + 4 := LastEntry(n)]
  {
    m.Set8(l.offset + 1, Doubled(Low8(n)));
    m.Set8(l.offset + 4, LastEntry(n));
  }

  /** A region has been given another length; all around it is as before. */
  ghost predicate Resized(b: seq<U8>, d: seq<U8>, at: nat, len: nat, len': nat) {
    && at + len <= |b| && |d| == |b| - len + len'
    && d[..at] == b[..at] && d[at + len'..] == b[at + len..]
  }

  /** Writing more than the region holds goes on into what follows. */
  lemma WrittenOver(b: seq<U8>, d: seq<U8>, at: nat, len: nat, len': nat, bytes: seq<U8>)
    requires Resized(b, d, at, len, len') && len' <= |bytes| && at + |bytes| <= |d|
    ensures Splice(d, at, bytes) == b[..at] + bytes + b[at + len + (|bytes| - len')..]
  {
    assert d[at + |bytes|..] == d[at + len'..][|bytes| - len'..];
    assert b[at + len..][|bytes| - len'..] == b[at + len + (|bytes| - len')..];
  }

  method ResizeList(m: Mbuf, at: nat, len: nat, len': nat) returns (r: Result<(), BufferError>)
    requires m.Valid() && at + len <= m.dataLen
    modifies m, m.buf
    ensures m.Valid()
    ensures r.Ok? <==> len' <= len || len' - len < old(m.Tailroom())
    ensures r.Ok? ==> Resized(old(m.Data()), m.Data(), at, len, len')
    ensures r.Err? ==> m.Data() == old(m.Data()) && r.error == NotResized
  {
    ghost var b := m.Data();
    r := Ok(());
    if len' != len {
      r := m.Resize(at, len' - len);
      if r.Ok? {
        assert m.Data()[at + len'..] == b[at + len..];
      }
    }
  }

  /** A list of more than 255 segments is written in full, into room made for
      a count that has lost its upper bits. */
  method SetSegments(l: Layer, m: Mbuf, segments: seq<Addr>) returns (r: Result<Layer, ExtError>)
    requires m.Valid() && HoldsList(l, m.Data())
    modifies m, m.buf
    ensures m.Valid()
    ensures r.Ok? <==> segments != [] && ListEnd(l, |segments|) <= |old(m.Data())| &&
                       (Low8(|segments|) <= l.count || 16 * (Low8(|segments|) - l.count) < old(m.Tailroom()))
    ensures r.Ok? ==> r.value == l.(count := |segments|) &&
                      m.Data() == WithSegments(l, old(m.Data()), segments)
    ensures r.Err? && r.error != Buffer(OutOfBuffer) ==>
              m.Data() == old(m.Data()) && r.error == if segments == [] then BadSegments else Buffer(NotResized)
    ensures r.Err? && r.error == Buffer(OutOfBuffer) ==>
              |segments| > 0xFF &&
              Resized(old(m.Data()), m.Data(), l.offset + 8, 16 * l.count, 16 * Low8(|segments|) as int)
  {
    ghost var b := m.Data();
    hide Flat, Low8, Resized, ListEnd, WithSegments, Mbuf.Data, Mbuf.Tailroom;
    if segments == [] {
      r := Err(BadSegments);
    } else {
      var lastEntry := m.Get8(l.offset + 4);
      var oldLen: nat, newLen: nat := lastEntry as int + 1, Low8(|segments|);
      var resized := ResizeList(m, l.offset + 8, 16 * oldLen, 16 * newLen);
      if resized.Err? {
        r := Err(Buffer(resized.error));
      } else {
        var written := WriteList(l, m, segments, b);
        r := if written.Ok? then Ok(l.(count := |segments|)) else Err(Buffer(written.error));
      }
    }
  }

  /** Once there is room, writes the list and its two length fields. */
  method WriteList(l: Layer, m: Mbuf, segments: seq<Addr>, ghost b: seq<U8>) returns (r: Result<(), BufferError>)
    requires m.Valid() && l.SegmentRouting? && segments != []
    requires Resized(b, m.Data(), l.offset + 8, 16 * l.count, 16 * Low8(|segments|) as int)
    modifies m.buf
    ensures m.Valid()
    ensures r.Ok? <==> ListEnd(l, |segments|) <= |b|
    ensures r.Ok? ==> m.Data() == WithSegments(l, b, segments)
    ensures r.Err? ==> r.error == OutOfBuffer && |segments| > 0xFF && m.Data() == old(m.Data())
  {
    hide Flat, Doubled, LastEntry, Resized, Mbuf.Data;
    var at := l.offset + 8;
    ghost var d, len := m.Data(), 16 * Low8(|segments|) as int;
    ResizedLength(b, d, at, 16 * l.count, len);
    r := m.WriteSlice(at, Flat(segments));
    if r.Ok? {
      WrittenOver(b, d, at, 16 * l.count, len, Flat(segments));
      SetListFields(l, m, |segments|);
    }
  }

  lemma ResizedLength(b: seq<U8>, d: seq<U8>, at: nat, len: nat, len': nat)
    requires Resized(b, d, at, len, len')
    ensures at + len <= |b| && |d| == |b| - len + len'
  {
  }

  /** Where a header names the one that follows it. */
  function NextHeaderAt(e: Layer): nat
    requires e.IsIpv6()
  {
    if e.Ipv6? then e.offset + 6 else e.offset
  }

  /** `try_parse`, with `u8` arithmetic on the list length. */
  function ParseRouting(e: Layer, b: seq<U8>): Result<Layer, ExtError>
    requires e.IsIpv6() && 14 <= |b| && NextHeaderAt(e) < |b|
  {
    var o := e.PayloadOffset(b);
    if b[NextHeaderAt(e)] != IPV6_ROUTE then Err(NotRouting)
    else if o >= |b| then Err(Buffer(BadOffset))
    else if o + 8 > |b| then Err(Buffer(OutOfBuffer))
    else
      var extLen: int, last: int := b[o + 1], b[o + 4];
      var count := (last + 1) % 0x100;
      if extLen != 0 && 2 * count % 0x100 == extLen then
        if o + 8 >= |b| then Err(Buffer(BadOffset))
        else if o + 8 + 16 * count > |b| then Err(Buffer(OutOfBuffer))
        else Ok(SegmentRouting(e, o, count))
      else Err(Inconsistent)
  }

  /** Parsing after `set_segments` gives the new list back exactly if its length
      fits in a byte and is not 128, when the length field wraps to zero. */
  lemma SegmentsRoundTrip(l: Layer, b: seq<U8>, segments: seq<Addr>)
    requires l.SegmentRouting? && l.WellFormed(b) && segments != [] && ListEnd(l, |segments|) <= |b|
    requires b[NextHeaderAt(l.envelope)] == IPV6_ROUTE
    ensures var b', l', n := WithSegments(l, b, segments), l.(count := |segments|), |segments|;
      && NextHeaderAt(l.envelope) < l.offset && 14 <= |b'| && l.offset + 8 + 16 * n <= |b'|
      && (ParseRouting(l.envelope, b') == Ok(l') <==> n <= 0xFF && n != 0x80)
      && (l'.WellFormed(b') <==> n <= 0xFF && n != 0x80)
      && Segments(b', l.offset, n) == segments
  {
    var b', l', n := WithSegments(l, b, segments), l.(count := |segments|), |segments|;
    hide *;
    ListFields(l, b, segments);
    SegmentsRead(l, b, segments);
    EnvelopeKept(l, b, segments);
    if n <= 0xFF {
      ParsesAs(l.envelope, b', l.offset, n);
      CountWellFormed(l', b');
    } else {
      ParsesNoLonger(l.envelope, b');
      LongNotWellFormed(l', b');
    }
  }

  lemma EnvelopeKept(l: Layer, b: seq<U8>, segments: seq<Addr>)
    requires l.SegmentRouting? && l.WellFormed(b) && segments != [] && ListEnd(l, |segments|) <= |b|
    ensures var b', e := WithSegments(l, b, segments), l.envelope;
      && e.IsIpv6() && 14 <= |b'| && NextHeaderAt(e) < l.offset && NextHeaderAt(e) < |b'|
      && b'[NextHeaderAt(e)] == b[NextHeaderAt(e)]
      && e.WellFormed(b') && e.PayloadOffset(b') == l.offset
  {
    NextHeaderBefore(l.envelope, b);
    WithSegmentsKeeps(l, b, segments);
    hide WithSegments;
    l.envelope.PrefixWellFormed(b, WithSegments(l, b, segments));
  }

  lemma CountWellFormed(l: Layer, b: seq<U8>)
    requires l.SegmentRouting? && l.envelope.IsIpv6() && 1 <= l.count <= 0xFF && 14 <= |b|
    requires l.offset + 8 + 16 * l.count <= |b| && l.envelope.WellFormed(b) && l.envelope.PayloadOffset(b) == l.offset
    requires b[l.offset + 1] == Doubled(l.count) && b[l.offset + 4] == l.count - 1
    ensures l.WellFormed(b) <==> l.count != 0x80
  {
  }

  lemma LongNotWellFormed(l: Layer, b: seq<U8>)
    requires l.SegmentRouting? && l.count > 0xFF
    ensures !l.WellFormed(b)
  {
  }

  lemma ListFields(l: Layer, b: seq<U8>, segments: seq<Addr>)
    requires l.SegmentRouting? && segments != [] && ListEnd(l, |segments|) <= |b|
    ensures var b' := WithSegments(l, b, segments);
      && l.offset + 8 + 16 * |segments| <= |b'|
      && b'[l.offset + 1] == Doubled(Low8(|segments|)) && b'[l.offset + 4] == LastEntry(|segments|)
      && (|segments| <= 0xFF ==> b'[l.offset + 1] == Doubled(|segments|) && b'[l.offset + 4] == |segments| - 1)
  {
    assert |segments| <= 0xFF ==> Low8(|segments|) == |segments| && LastEntry(|segments|) == |segments| - 1;
    hide Low8, Flat, Doubled, LastEntry;
  }

  lemma ParsesAs(e: Layer, b: seq<U8>, o: nat, n: nat)
    requires e.IsIpv6() && 14 <= |b| && NextHeaderAt(e) < |b| && e.PayloadOffset(b) == o
    requires b[NextHeaderAt(e)] == IPV6_ROUTE
    requires 1 <= n <= 0xFF && o + 8 + 16 * n <= |b| && b[o + 4] == n - 1 && b[o + 1] == Doubled(n)
    ensures ParseRouting(e, b) == Ok(SegmentRouting(e, o, n)) <==> n != 0x80
  {
    assert Doubled(n) == 2 * n % 0x100;
  }

  lemma ParsesNoLonger(e: Layer, b: seq<U8>)
    requires e.IsIpv6() && 14 <= |b| && NextHeaderAt(e) < |b|
    ensures ParseRouting(e, b).Ok? ==>
              ParseRouting(e, b).value.SegmentRouting? && ParseRouting(e, b).value.count <= 0xFF
  {
  }

  lemma NextHeaderBefore(e: Layer, b: seq<U8>)
    requires e.IsIpv6() && e.WellFormed(b)
    ensures e.offset <= NextHeaderAt(e) < e.PayloadOffset(b)
  {
  }

  /** Everything before the header and after the list stays, and so do the
      other fields of the header. */
  lemma WithSegmentsKeeps(l: Layer, b: seq<U8>, segments: seq<Addr>)
    requires l.SegmentRouting? && segments != [] && ListEnd(l, |segments|) <= |b|
    ensures var b' := WithSegments(l, b, segments);
      && l.offset + 8 + 16 * |segments| <= |b'|
      && (forall i | 0 <= i < l.offset + 8 && i != l.offset + 1 && i != l.offset + 4 :: b'[i] == b[i])
      && b'[l.offset + 8 + 16 * |segments|..] == b[ListEnd(l, |segments|)..]
      && b'[l.offset + 8..l.offset + 8 + 16 * |segments|] == Flat(segments)
  {
    hide Flat, Doubled, Low8, LastEntry;
  }

  lemma SegmentsRead(l: Layer, b: seq<U8>, segments: seq<Addr>)
    requires l.SegmentRouting? && segments != [] && ListEnd(l, |segments|) <= |b|
    ensures l.offset + 8 + 16 * |segments| <= |WithSegments(l, b, segments)|
    ensures Segments(WithSegments(l, b, segments), l.offset, |segments|) == segments
  {
    var b' := WithSegments(l, b, segments);
    WithSegmentsKeeps(l, b, segments);
    hide WithSegments, Low8;
    var list := b'[l.offset + 8..l.offset + 8 + 16 * |segments|];
    forall i | 0 <= i < |segments| ensures Segments(b', l.offset, |segments|)[i] == segments[i] {
      FlatAt(segments, i);
      assert list[16 * i..16 * i + 16] == b'[l.offset + 8 + 16 * i..l.offset + 24 + 16 * i];
    }
  }

  /** The length field says what section 2 of RFC 8754 requires, the header
      length in units of 8 octets less the first, with up to 127 segments. */
  lemma HdrExtLenExact(n: nat)
    requires 1 <= n
    ensures 8 * Doubled(Low8(n)) as int + 8 == 8 + 16 * n <==> n <= 0x7F
  {
  }

  // ---- pushing and removing ----

  datatype Ext = Route | Frag
  {
    function Code(): U8 {
      if Route? then IPV6_ROUTE else IPV6_FRAG
    }

    /** A default header that names `next` as what follows. */
    function Header(next: U8): (h: seq<U8>)
      ensures |h| == if Route? then 24 else 8
    {
      if Route? then [next, 2, 4, 0, 0, 0, 0, 0] + seq(16, i => 0)
      else [next, 0, 0, 0, 0, 0, 0, 0]
    }

    function Over(e: Layer, offset: nat): Layer {
      if Route? then SegmentRouting(e, offset, 1) else Fragment(e, offset)
    }
  }

  function Pushed(x: Ext, e: Layer, b: seq<U8>): (r: seq<U8>)
    requires e.IsIpv6() && 14 <= |b| && NextHeaderAt(e) < e.PayloadOffset(b) <= |b|
    ensures |r| == |b| + |x.Header(0)|
  {
    Inserted(b, e.PayloadOffset(b), x.Header(b[NextHeaderAt(e)]))[NextHeaderAt(e) := x.Code()]
  }

  predicate IsExt(l: Layer) {
    l.SegmentRouting? || l.Fragment?
  }

  /** The bytes after `remove`. */
  function Unpushed(l: Layer, b: seq<U8>): seq<U8>
    requires IsExt(l) && l.envelope.IsIpv6() && 14 <= |b|
    requires NextHeaderAt(l.envelope) < l.offset && l.PayloadOffset(b) <= |b|
  {
    Removed(b, l.offset, l.HeaderLen(b))[NextHeaderAt(l.envelope) := b[l.offset]]
  }

  method TryPush(x: Ext, e: Layer, m: Mbuf) returns (r: Result<Layer, BufferError>)
    requires m.Valid() && e.IsIpv6() && e.WellFormed(m.Data())
    modifies m, m.buf
    ensures m.Valid()
    ensures r.Ok? <==> |x.Header(0)| < old(m.Tailroom())
    ensures r.Ok? ==> r.value == x.Over(e, e.PayloadOffset(old(m.Data()))) &&
                      NextHeaderAt(e) < e.PayloadOffset(old(m.Data())) &&
                      m.Data() == Pushed(x, e, old(m.Data()))
    ensures r.Err? ==> m.Data() == old(m.Data())
  {
    NextHeaderBefore(e, m.Data());
    var len := ReadHeaderLen(e, m);
    r := PushAt(x, e, m, e.Start() + len);
  }

  method PushAt(x: Ext, e: Layer, m: Mbuf, offset: nat) returns (r: Result<Layer, BufferError>)
    requires m.Valid() && e.IsIpv6() && 14 <= m.dataLen && NextHeaderAt(e) < offset <= m.dataLen
    requires offset == e.PayloadOffset(m.Data())
    modifies m, m.buf
    ensures m.Valid()
    ensures r.Ok? <==> |x.Header(0)| < old(m.Tailroom())
    ensures r.Ok? ==> r.value == x.Over(e, offset) && m.Data() == Pushed(x, e, old(m.Data()))
    ensures r.Err? ==> m.Data() == old(m.Data())
  {
    hide Layer.HeaderLen, Layer.PayloadOffset, Inserted, Pushed, Ext.Header, Ext.Code, Mbuf.Data, Mbuf.Tailroom;
    ghost var b := m.Data();
    var written := Rewrite(m, offset, 0, x.Header(0));
    if written.Err? {
      r := Err(written.error);
    } else {
      InsertedBefore(b, offset, x.Header(0), NextHeaderAt(e));
      var next := m.Get8(NextHeaderAt(e));
      HeaderNamed(x, e, b);
      m.Set8(offset, next);
      m.Set8(NextHeaderAt(e), x.Code());
      r := Ok(x.Over(e, offset));
    }
  }

  lemma InsertedBefore(b: seq<U8>, at: nat, bytes: seq<U8>, i: nat)
    requires i < at <= |b|
    ensures b[..at] + bytes + b[at..] == Inserted(b, at, bytes)
    ensures |Inserted(b, at, bytes)| == |b| + |bytes| && Inserted(b, at, bytes)[i] == b[i]
  {
  }

  lemma HeaderNamed(x: Ext, e: Layer, b: seq<U8>)
    requires e.IsIpv6() && 14 <= |b| && NextHeaderAt(e) < e.PayloadOffset(b) <= |b|
    ensures var at, next := e.PayloadOffset(b), b[NextHeaderAt(e)];
      Inserted(b, at, x.Header(0))[at := next][NextHeaderAt(e) := x.Code()] == Pushed(x, e, b)
  {
    var at, next := e.PayloadOffset(b), b[NextHeaderAt(e)];
    assert Inserted(b, at, x.Header(0))[at := next] == Inserted(b, at, x.Header(next));
  }

  method ReadHeaderLen(l: Layer, m: Mbuf) returns (len: nat)
    requires m.Valid() && l.WellFormed(m.Data())
    ensures len == l.HeaderLen(m.Data())
  {
    var r := m.ReadSlice(0, 14);
    assert Get16(r.value, 12) == Get16(m.Data(), 12);
    len := l.HeaderLen(r.value);
  }

  method Remove(l: Layer, m: Mbuf) returns (r: Result<Layer, BufferError>)
    requires m.Valid() && IsExt(l) && l.WellFormed(m.Data())
    modifies m, m.buf
    ensures m.Valid() && r == Ok(l.envelope)
    ensures NextHeaderAt(l.envelope) < l.offset
    ensures m.Data() == Unpushed(l, old(m.Data()))
  {
    NextHeaderBefore(l.envelope, m.Data());
    var len := ReadHeaderLen(l, m);
    hide Layer.WellFormed;
    var next := m.Get8(l.offset);
    var _ := m.Shrink(l.offset, len);
    m.Set8(NextHeaderAt(l.envelope), next);
    r := Ok(l.envelope);
  }

  /** A pushed header is well formed, names what followed before, and parses
      back; the layers below are untouched. */
  lemma PushKeeps(x: Ext, e: Layer, b: seq<U8>)
    requires e.IsIpv6() && e.WellFormed(b)
    ensures NextHeaderAt(e) < e.PayloadOffset(b)
    ensures var b', l := Pushed(x, e, b), x.Over(e, e.PayloadOffset(b));
      && e.WellFormed(b') && l.WellFormed(b') && l.PayloadOffset(b') == l.offset + |x.Header(0)|
      && b'[NextHeaderAt(e)] == x.Code() && b'[NextHeaderAt(l)] == b[NextHeaderAt(e)]
      && b'[l.PayloadOffset(b')..] == b[e.PayloadOffset(b)..]
  {
    NextHeaderBefore(e, b);
    var c, b' := b[NextHeaderAt(e) := x.Code()], Pushed(x, e, b);
    NextHeaderFree(e, b, x.Code());
    PushedBytes(x, e, b);
    e.PrefixWellFormed(c, b');
    hide Pushed, Inserted;
    OverWellFormed(x, e, b');
  }

  /** Where the old packet and the new header are after a push. */
  lemma PushedBytes(x: Ext, e: Layer, b: seq<U8>)
    requires e.IsIpv6() && 14 <= |b| && NextHeaderAt(e) < e.PayloadOffset(b) <= |b|
    ensures var b', o, n := Pushed(x, e, b), e.PayloadOffset(b), |x.Header(0)|;
      && (forall i | 0 <= i < o :: b'[i] == b[NextHeaderAt(e) := x.Code()][i])
      && b'[o..o + n] == x.Header(b[NextHeaderAt(e)]) && b'[o + n..] == b[o..]
      && b'[o] == b[NextHeaderAt(e)]
      && (x.Route? ==> b'[o + 1] == 2 && b'[o + 2] == 4 && b'[o + 3] == 0 && b'[o + 4] == 0)
  {
    hide Layer.PayloadOffset;
    var o, h := e.PayloadOffset(b), x.Header(b[NextHeaderAt(e)]);
    var c := Inserted(b, o, h);
    assert c[o] == h[0] && (x.Route? ==> c[o + 1] == h[1] && c[o + 2] == h[2] && c[o + 3] == h[3] && c[o + 4] == h[4]);
    assert Pushed(x, e, b)[o..o + |h|] == h && Pushed(x, e, b)[o + |h|..] == b[o..];
  }

  lemma OverWellFormed(x: Ext, e: Layer, b: seq<U8>)
    requires e.IsIpv6() && e.WellFormed(b) && e.PayloadOffset(b) + |x.Header(0)| <= |b|
    requires x.Route? ==> b[e.PayloadOffset(b) + 1] == 2 && b[e.PayloadOffset(b) + 4] == 0
    ensures var l := x.Over(e, e.PayloadOffset(b));
      l.WellFormed(b) && l.PayloadOffset(b) == l.offset + |x.Header(0)|
  {
  }

  /** No header's place depends on what a next-header field says. */
  lemma NextHeaderFree(e: Layer, b: seq<U8>, v: U8)
    requires e.IsIpv6() && e.WellFormed(b)
    ensures NextHeaderAt(e) < |b| && e.WellFormed(b[NextHeaderAt(e) := v])
    ensures e.PayloadOffset(b[NextHeaderAt(e) := v]) == e.PayloadOffset(b)
  {
    var c := b[NextHeaderAt(e) := v];
    forall i | 0 <= i < |b| && e.Structural(i) ensures c[i] == b[i] {
      if e.envelope.Structural(i) {
        e.envelope.StructuralBefore(b, i);
      }
    }
    e.KeepsWellFormed(b, c);
  }

  lemma RoutingParsesBack(e: Layer, b: seq<U8>)
    requires e.IsIpv6() && e.WellFormed(b)
    ensures NextHeaderAt(e) < e.PayloadOffset(b)
    ensures ParseRouting(e, Pushed(Route, e, b)) == Ok(Route.Over(e, e.PayloadOffset(b)))
  {
    PushKeeps(Route, e, b);
    var b', o := Pushed(Route, e, b), e.PayloadOffset(b);
    assert b'[o + 4] == 0 && b'[o + 1] == 2;
    hide Pushed, Layer.HeaderLen, Layer.PayloadOffset, ParseRouting;
    ParsesAs(e, b', o, 1);
  }

  /** `remove` undoes `push`, byte for byte. */
  lemma RemoveUndoesPush(x: Ext, e: Layer, b: seq<U8>)
    requires e.IsIpv6() && e.WellFormed(b)
    ensures NextHeaderAt(e) < e.PayloadOffset(b)
    ensures var l := x.Over(e, e.PayloadOffset(b));
      l.WellFormed(Pushed(x, e, b)) && Unpushed(l, Pushed(x, e, b)) == b
  {
    PushKeeps(x, e, b);
    var l := x.Over(e, e.PayloadOffset(b));
    Undone(b, l.offset, x.Header(b[NextHeaderAt(e)]), NextHeaderAt(e), x.Code());
  }

  lemma Undone(b: seq<U8>, at: nat, header: seq<U8>, i: nat, v: U8)
    requires i < at <= |b|
    ensures Removed(Inserted(b, at, header)[i := v], at, |header|)[i := b[i]] == b
  {
  }

  /** It does so too after the list of a pushed segment routing header has
      been replaced by any other. */
  lemma RemoveUndoesSegments(e: Layer, b: seq<U8>, segments: seq<Addr>)
    requires e.IsIpv6() && e.WellFormed(b) && 1 <= |segments| <= 0xFF && |segments| != 0x80
    ensures NextHeaderAt(e) < e.PayloadOffset(b)
    ensures var l := Route.Over(e, e.PayloadOffset(b));
      var b' := WithSegments(l, Pushed(Route, e, b), segments);
      && l.(count := |segments|).WellFormed(b')
      && Unpushed(l.(count := |segments|), b') == b
  {
    PushKeeps(Route, e, b);
    RemoveUndoesPush(Route, e, b);
    var l, p := Route.Over(e, e.PayloadOffset(b)), Pushed(Route, e, b);
    SegmentsRoundTrip(l, p, segments);
    hide Pushed, Layer.WellFormed, Layer.HeaderLen, Layer.PayloadOffset;
    SameRest(l, p, segments);
  }

  /** What is left without the header does not depend on its list. */
  lemma SameRest(l: Layer, p: seq<U8>, segments: seq<Addr>)
    requires l.SegmentRouting? && l.envelope.IsIpv6() && 14 <= |p| && l.PayloadOffset(p) <= |p|
    requires NextHeaderAt(l.envelope) < l.offset && 1 <= |segments| <= 0xFF
    ensures var l', b' := l.(count := |segments|), WithSegments(l, p, segments);
      14 <= |b'| && l'.PayloadOffset(b') <= |b'| && Unpushed(l', b') == Unpushed(l, p)
  {
    var l', b' := l.(count := |segments|), WithSegments(l, p, segments);
    hide Flat;
    WithSegmentsKeeps(l, p, segments);
    assert b'[..l.offset] == p[..l.offset];
    assert b'[l.offset] == p[l.offset];
  }

  // ---- whole chains ----

  /** The next-header fields from the IPv6 header to `l`. */
  ghost function Chain(l: Layer, b: seq<U8>): (r: seq<U8>)
    requires l.IsIpv6() && l.WellFormed(b)
    ensures r != [] && r[|r| - 1] == b[NextHeaderAt(l)]
    decreases l
  {
    if l.Ipv6? then [b[NextHeaderAt(l)]] else Chain(l.envelope, b) + [b[NextHeaderAt(l)]]
  }

  lemma {:induction false} ChainSame(l: Layer, b: seq<U8>, b': seq<U8>)
    requires l.IsIpv6() && l.WellFormed(b) && l.WellFormed(b')
    requires forall i | 0 <= i < l.PayloadOffset(b) :: b'[i] == b[i]
    ensures Chain(l, b') == Chain(l, b)
  {
    if !l.Ipv6? {
      ChainSame(l.envelope, b, b');
    }
  }

  /** A push inserts its own code before the protocol the chain ends with. */
  lemma PushExtendsChain(x: Ext, e: Layer, b: seq<U8>)
    requires e.IsIpv6() && e.WellFormed(b)
    ensures NextHeaderAt(e) < e.PayloadOffset(b)
    ensures var b', l, c := Pushed(x, e, b), x.Over(e, e.PayloadOffset(b)), Chain(e, b);
      l.WellFormed(b') && Chain(l, b') == c[..|c| - 1] + [x.Code(), c[|c| - 1]]
  {
    PushKeeps(x, e, b);
    PushedBefore(x, e, b);
    var b', l := Pushed(x, e, b), x.Over(e, e.PayloadOffset(b));
    assert Chain(l, b') == Chain(e, b') + [b'[NextHeaderAt(l)]];
    hide Pushed, Layer.WellFormed, Layer.HeaderLen, Chain, Ext.Code;
    ChainPrefix(e, b, b');
    LastTwo(Chain(e, b'), Chain(e, b), b'[NextHeaderAt(l)]);
  }

  lemma LastTwo(c': seq<U8>, c: seq<U8>, next: U8)
    requires c' != [] && c != [] && c'[..|c'| - 1] == c[..|c| - 1]
    ensures c' + [next] == c[..|c| - 1] + [c'[|c'| - 1], next]
  {
    assert c' == c'[..|c'| - 1] + [c'[|c'| - 1]];
  }

  /** The chain but for its last field depends on the envelopes only. */
  lemma ChainPrefix(e: Layer, b: seq<U8>, b': seq<U8>)
    requires e.IsIpv6() && e.WellFormed(b) && e.WellFormed(b')
    requires forall i | 0 <= i < e.offset :: b'[i] == b[i]
    ensures Chain(e, b')[..|Chain(e, b')| - 1] == Chain(e, b)[..|Chain(e, b)| - 1]
  {
    if !e.Ipv6? {
      ChainSame(e.envelope, b, b');
    }
  }

  lemma PushedBefore(x: Ext, e: Layer, b: seq<U8>)
    requires e.IsIpv6() && e.WellFormed(b) && NextHeaderAt(e) < e.PayloadOffset(b)
    ensures forall i | 0 <= i < e.offset :: Pushed(x, e, b)[i] == b[i]
  {
  }

  /** Pushing a list of headers one on top of the other. */
  ghost function PushAll(xs: seq<Ext>, e: Layer, b: seq<U8>): (r: (Layer, seq<U8>))
    requires e.IsIpv6() && e.WellFormed(b)
    ensures r.0.IsIpv6() && r.0.WellFormed(r.1)
    decreases |xs|
  {
    if xs == [] then (e, b)
    else
      PushKeeps(xs[0], e, b);
      PushAll(xs[1..], xs[0].Over(e, e.PayloadOffset(b)), Pushed(xs[0], e, b))
  }

  /** Removing `n` headers, outermost last. */
  ghost predicate PopsTo(l: Layer, b: seq<U8>, n: nat, e: Layer, b0: seq<U8>)
  {
    if n == 0 then l == e && b == b0
    else
      && IsExt(l) && l.WellFormed(b) && NextHeaderAt(l.envelope) < l.offset
      && PopsTo(l.envelope, Unpushed(l, b), n - 1, e, b0)
  }

  lemma {:induction false} PopsTrans(l: Layer, b: seq<U8>, n: nat, l1: Layer, b1: seq<U8>, e: Layer, b0: seq<U8>)
    requires PopsTo(l, b, n, l1, b1) && PopsTo(l1, b1, 1, e, b0)
    ensures PopsTo(l, b, n + 1, e, b0)
  {
    if n > 0 {
      PopsTrans(l.envelope, Unpushed(l, b), n - 1, l1, b1, e, b0);
    }
  }

  /** Any sequence of pushes followed by as many removes restores the buffer
      and the envelope. */
  lemma {:induction false} RemoveAllUndoesPushAll(xs: seq<Ext>, e: Layer, b: seq<U8>)
    requires e.IsIpv6() && e.WellFormed(b)
    ensures PopsTo(PushAll(xs, e, b).0, PushAll(xs, e, b).1, |xs|, e, b)
    decreases |xs|
  {
    hide *;
    if xs == [] {
      PushAllNil(e, b);
    } else {
      PushAllStep(xs, e, b);
      PopOne(xs[0], e, b);
      var l, b' := xs[0].Over(e, e.PayloadOffset(b)), Pushed(xs[0], e, b);
      RemoveAllUndoesPushAll(xs[1..], l, b');
      PopsTrans(PushAll(xs, e, b).0, PushAll(xs, e, b).1, |xs| - 1, l, b', e, b);
    }
  }

  lemma PushAllNil(e: Layer, b: seq<U8>)
    requires e.IsIpv6() && e.WellFormed(b)
    ensures PushAll([], e, b) == (e, b) && PopsTo(e, b, 0, e, b)
  {
  }

  lemma PushAllStep(xs: seq<Ext>, e: Layer, b: seq<U8>)
    requires e.IsIpv6() && e.WellFormed(b) && xs != []
    ensures 14 <= |b| && NextHeaderAt(e) < e.PayloadOffset(b) <= |b|
    ensures var l, b' := xs[0].Over(e, e.PayloadOffset(b)), Pushed(xs[0], e, b);
      l.IsIpv6() && l.WellFormed(b') && PushAll(xs, e, b) == PushAll(xs[1..], l, b')
  {
    PushKeeps(xs[0], e, b);
  }

  lemma PopOne(x: Ext, e: Layer, b: seq<U8>)
    requires e.IsIpv6() && e.WellFormed(b)
    ensures NextHeaderAt(e) < e.PayloadOffset(b)
    ensures PopsTo(x.Over(e, e.PayloadOffset(b)), Pushed(x, e, b), 1, e, b)
  {
    PushKeeps(x, e, b);
    RemoveUndoesPush(x, e, b);
    hide Pushed, Unpushed;
    assert PopsTo(e, b, 0, e, b);
  }

  function Codes(xs: seq<Ext>): seq<U8> {
    if xs == [] then [] else [xs[0].Code()] + Codes(xs[1..])
  }

  /** After any sequence of pushes the chain lists them in order and still
      ends with the original upper protocol. */
  lemma {:induction false} PushAllChain(xs: seq<Ext>, e: Layer, b: seq<U8>)
    requires e.IsIpv6() && e.WellFormed(b)
    ensures var c := Chain(e, b);
      Chain(PushAll(xs, e, b).0, PushAll(xs, e, b).1) == c[..|c| - 1] + Codes(xs) + [c[|c| - 1]]
    decreases |xs|
  {
    var c := Chain(e, b);
    if xs == [] {
      assert c == c[..|c| - 1] + [] + [c[|c| - 1]];
    } else {
      PushKeeps(xs[0], e, b);
      PushExtendsChain(xs[0], e, b);
      var l, b' := xs[0].Over(e, e.PayloadOffset(b)), Pushed(xs[0], e, b);
      PushAllChain(xs[1..], l, b');
      hide Pushed, Layer.WellFormed, Chain;
      ChainInserted(c[..|c| - 1], xs[0].Code(), Codes(xs[1..]), c[|c| - 1]);
    }
  }

  lemma ChainInserted(pre: seq<U8>, code: U8, codes: seq<U8>, last: U8)
    ensures var c' := pre + [code, last];
            c'[..|c'| - 1] + codes + [c'[|c'| - 1]] == pre + ([code] + codes) + [last]
  {
  }
}
