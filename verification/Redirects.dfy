/** Reconciling a Redirect message: the redirected header option takes all
    the rest of the packet (capsule/src/packets/icmp/v6/ndp/redirect.rs). */
module Redirects {
  import opened Bytes
  import opened Wrappers
  import opened Mbufs
  import opened Layers
  import opened Reconciling
  import opened Packets
  import opened Ndp
  import opened Stacking

  const REDIRECT: U8 := 137
  const REDIRECTED_HEADER: U8 := 4

  /** A message whose header is not cut off. */
  ghost predicate IsRedirect(l: Layer, b: seq<U8>) {
    l.Icmpv6? && l.truncating && l.WellFormed(b) && l.Fits(b) && |b| <= 0xFFFF
  }

  /** The options follow the ICMPv6 header and a body of 36 octets. */
  function OptionsOffset(l: Layer): nat
    requires l.Icmpv6?
  {
    l.offset + 4 + 36
  }

  datatype Found = At(offset: nat) | Missing | Looping

  /** The first redirected header option that the iterator comes to. */
  function Find(d: seq<U8>, at: nat): (r: Found)
    ensures r.At? ==> at <= r.offset && r.offset + 8 <= |d| && d[r.offset] == REDIRECTED_HEADER
    decreases |d| - at
  {
    if at >= |d| || !Ndp.Fits(d[at..]) then Missing
    else if at + 8 <= |d| && d[at] == REDIRECTED_HEADER then At(at)
    else if Extent(d[at..]) == 0 then Looping
    else Find(d, at + Extent(d[at..]))
  }

  /** `set_length`: whole units of 8 octets, the number of them in a byte. */
  function Measured(d: seq<U8>, at: nat): (r: seq<U8>)
    requires at + 8 <= |d|
    ensures at + 8 <= |r| <= |d| < |r| + 8
    ensures forall i | 0 <= i < |r| && i != at + 1 :: r[i] == d[i]
    ensures |d| - at < 0x800 ==> at + Extent(r[at..]) == |r|
  {
    var units := (|d| - at) / 8;
    d[..at + 8 * units][at + 1 := Low8(units)]
  }

  ghost function Adjusted(l: Layer, b: seq<U8>): seq<U8>
    requires IsRedirect(l, b)
  {
    var c := l.Cut(b);
    var found := Find(c, OptionsOffset(l));
    if found.At? then Measured(c, found.offset) else c
  }

  lemma AdjustedKeeps(l: Layer, b: seq<U8>)
    requires IsRedirect(l, b)
    ensures IsRedirect(l, Adjusted(l, b)) && l.Cut(Adjusted(l, b)) == Adjusted(l, b)
    ensures |Adjusted(l, b)| <= l.envelope.Ip().offset + IPV6_MIN_MTU
  {
    var c := l.Cut(b);
    l.CutWellFormed(b);
    l.PrefixWellFormed(c, Adjusted(l, b));
  }

  ghost function RedirectReconciled(l: Layer, b: seq<U8>): seq<U8>
    requires IsRedirect(l, b)
  {
    AdjustedKeeps(l, b);
    l.Checksummed(Adjusted(l, b))
  }

  // ---- the operations ----

  method FindRedirected(m: Mbuf, at: nat) returns (r: Found)
    requires m.Valid() && Find(m.Data(), at) != Looping
    ensures r == Find(m.Data(), at)
  {
    hide Find, Seen, Extent, From, Mbuf.Data;
    var iter := new OptionsIterator(m, at);
    ghost var d := m.Data();
    var offset: nat := at;
    var next := iter.Next();
    FindStep(d, offset);
    r := Missing;
    while next.Ok? && next.value.Some?
      invariant iter.mbuf == m && r == Missing
      invariant Find(d, at) == Find(d, offset)
      invariant Yields(next, From(d, offset))
      invariant next.Ok? && next.value.Some? ==> iter.offset == offset + Extent(From(d, offset))
      invariant !(next.Ok? && next.value.Some?) ==> Find(d, offset) == Missing
      decreases |From(d, offset)|
    {
      FindStep(d, offset);
      if offset + 8 <= m.dataLen && next.value.value[0] == REDIRECTED_HEADER {
        r := At(offset);
        break;
      }
      offset := iter.offset;
      next := iter.Next();
      FindStep(d, offset);
    }
  }

  lemma FindStep(d: seq<U8>, at: nat)
    requires Find(d, at) != Looping
    ensures var rest := From(d, at);
      && (rest == [] || !Ndp.Fits(rest) ==> Find(d, at) == Missing)
      && (Ndp.Fits(rest) ==>
            if at + 8 <= |d| && Seen(rest)[0] == REDIRECTED_HEADER then Find(d, at) == At(at)
            else
              && Find(d, at) == Find(d, at + Extent(rest))
              && |From(d, at + Extent(rest))| < |rest|)
  {
  }

  method SetLength(m: Mbuf, at: nat)
    requires m.Valid() && at + 8 <= m.dataLen
    modifies m, m.buf
    ensures m.Valid() && m.Data() == Measured(old(m.Data()), at)
  {
    var len := m.dataLen - at;
    var rem := len % 8;
    if rem > 0 {
      var trimTo := m.dataLen - rem;
      var _ := m.Truncate(trimTo);
    }
    m.Set8(at + 1, Low8(len / 8));
  }

  method ReconcileRedirect(l: Layer, m: Mbuf) returns (r: Result<(), BufferError>)
    requires m.Valid() && l.Icmpv6? && l.truncating && l.WellFormed(m.Data())
    requires Find(l.Cut(m.Data()), OptionsOffset(l)) != Looping
    modifies m, m.buf
    ensures m.Valid()
    ensures r.Ok? <==> IsRedirect(l, old(m.Data()))
    ensures r.Ok? ==> m.Data() == RedirectReconciled(l, old(m.Data()))
    ensures r.Err? ==> r.error == BadOffset && m.Data() == l.Cut(old(m.Data()))
  {
    ghost var b := m.Data();
    AdjustedOrCut(l, b);
    assert OptionsOffset(l) > l.offset;
    hide Layer.WellFormed, Layer.Checksummed, Layer.Cut, Layer.Fits, Measured, Find, Adjusted, IsRedirect,
      OptionsOffset, RedirectReconciled, Mbuf.Data;
    CutMessage(l, m);
    var found := FindRedirected(m, OptionsOffset(l));
    if found.At? {
      SetLength(m, found.offset);
    }
    r := ChecksumMessage(l, m);
  }

  /** What the checksum is computed over, or the message without its header. */
  lemma AdjustedOrCut(l: Layer, b: seq<U8>)
    requires l.Icmpv6? && l.truncating && l.WellFormed(b) && |b| <= 0xFFFF
    ensures var c, found := l.Cut(b), Find(l.Cut(b), OptionsOffset(l));
      && (IsRedirect(l, b) <==> l.offset < |c|)
      && (l.offset < |c| ==>
            var t := if found.At? then Measured(c, found.offset) else c;
            l.WellFormed(t) && l.offset < |t| && RedirectReconciled(l, b) == l.Checksummed(t))
      && (|c| <= l.offset ==> !found.At?)
  {
    CutLeavesHeader(l, b);
    if l.Fits(b) {
      AdjustedKeeps(l, b);
    }
  }

  // ---- what reconciling promises ----

  lemma {:induction false} FindPast(d: seq<U8>, start: nat, at: nat)
    requires start <= at <= |d| && Options(d[start..at]).Ok?
    requires forall i | 0 <= i < |Options(d[start..at]).value| ::
               var o := Options(d[start..at]).value[i]; o != [] && o[0] != REDIRECTED_HEADER
    ensures Find(d, start) == Find(d, at)
    decreases at - start
  {
    if start < at {
      var r := d[start..at];
      var next, rest := start + Extent(r), Options(r[Extent(r)..]).value;
      assert r[Extent(r)..] == d[next..at];
      assert Options(r).value == [r[..Extent(r)]] + rest;
      assert Options(r).value[0][0] == d[start];
      assert Find(d, start) == Find(d, next);
      hide Find, Extent, Options;
      forall i | 0 <= i < |rest| ensures rest[i] == Options(r).value[i + 1] {}
      FindPast(d, next, at);
    }
  }

  lemma {:induction false} FindAgain(d: seq<U8>, d': seq<U8>, start: nat)
    requires Find(d, start).At?
    requires var at := Find(d, start).offset;
      && at + 8 <= |d'| && Ndp.Fits(d'[at..])
      && forall i | start <= i <= at :: d'[i] == d[i]
    ensures Find(d', start) == Find(d, start)
    decreases |d| - start
  {
    if Find(d, start) != At(start) {
      FindAgain(d, d', start + Extent(d[start..]));
    }
  }

  lemma {:induction false} FindSame(d: seq<U8>, d': seq<U8>, start: nat)
    requires |d'| == |d| && forall i | start <= i < |d| :: d'[i] == d[i]
    ensures Find(d', start) == Find(d, start)
    decreases |d| - start
  {
    if start < |d| {
      assert d'[start..] == d[start..];
      if Ndp.Fits(d[start..]) && Extent(d[start..]) > 0 {
        FindSame(d, d', start + Extent(d[start..]));
      }
    }
  }

  /** The checksum is before the options. */
  lemma ReconciledBytes(l: Layer, b: seq<U8>)
    requires IsRedirect(l, b)
    ensures var t, r := Adjusted(l, b), RedirectReconciled(l, b);
      && |r| == |t|
      && forall i | 0 <= i < |t| && i != l.offset + 2 && i != l.offset + 3 :: r[i] == t[i]
  {
    AdjustedKeeps(l, b);
    Bounds(l, Adjusted(l, b));
    ChecksummedIsPut(l, Adjusted(l, b));
    PutOther(Adjusted(l, b), l.offset + 2, l.Value(Adjusted(l, b)));
  }

  /** At most 150 units are left for the redirected packet. */
  lemma FewUnits(l: Layer, b: seq<U8>)
    requires IsRedirect(l, b)
    ensures |l.Cut(b)| - OptionsOffset(l) <= 8 * 150
  {
    IpWellFormed(l.envelope, b);
  }

  /** A redirected header among the options, not necessarily right yet. */
  ghost predicate HasRedirected(l: Layer, c: seq<U8>, before: seq<seq<U8>>, at: nat)
    requires l.Icmpv6?
  {
    && OptionsOffset(l) <= at && at + 8 <= |c| && c[at] == REDIRECTED_HEADER
    && Options(c[OptionsOffset(l)..at]) == Ok(before)
    && forall i | 0 <= i < |before| && before[i] != [] :: before[i][0] != REDIRECTED_HEADER
  }

  lemma RedirectedFound(l: Layer, c: seq<U8>, before: seq<seq<U8>>, at: nat)
    requires l.Icmpv6? && HasRedirected(l, c, before, at)
    ensures Find(c, OptionsOffset(l)) ==
            if at + Extent(c[at..]) <= |c| then At(at) else Missing
  {
    hide Find, Extent;
    FlatOfOptions(c[OptionsOffset(l)..at]);
    FindPast(c, OptionsOffset(l), at);
    FindHere(c, at);
  }

  lemma FindHere(c: seq<U8>, at: nat)
    requires at + 8 <= |c| && c[at] == REDIRECTED_HEADER
    ensures Find(c, at) == if at + Extent(c[at..]) <= |c| then At(at) else Missing
  {
  }

  /** A last option parses if and only if it does not run past the end; it
      takes all the rest if it reaches the end. */
  lemma OptionsToEnd(r: seq<U8>, start: nat, at: nat, before: seq<seq<U8>>)
    requires start <= at && at + 8 <= |r|
    requires Options(r[start..at]) == Ok(before)
    ensures at + Extent(r[at..]) > |r| ==> Options(r[start..]).Err?
    ensures at + Extent(r[at..]) == |r| ==> Options(r[start..]) == Ok(before + [r[at..]])
  {
    var last := r[at..];
    OptionsAppend(r[start..at], last);
    assert r[start..at] + last == r[start..];
    if at + Extent(last) == |r| {
      OneOption(last);
    }
  }

  /** The message is at most 1280 octets long, and its options are the earlier
      ones and then the redirected header, which takes all the rest, if and
      only if the length that the option had before does not run past the
      truncated message. */
  lemma RedirectFits(l: Layer, b: seq<U8>, before: seq<seq<U8>>, at: nat)
    requires IsRedirect(l, b) && HasRedirected(l, l.Cut(b), before, at)
    ensures Find(l.Cut(b), OptionsOffset(l)) != Looping
    ensures var c, r := l.Cut(b), RedirectReconciled(l, b);
      && at + 8 <= |r| <= l.envelope.Ip().offset + IPV6_MIN_MTU
      && |c| - 7 <= |r| <= |c|
      && (forall i | OptionsOffset(l) <= i < |r| && i != at + 1 :: r[i] == c[i])
      && (Options(r[OptionsOffset(l)..]) == Ok(before + [r[at..]]) <==> at + Extent(c[at..]) <= |c|)
      && (Options(r[OptionsOffset(l)..]).Ok? <==> at + Extent(c[at..]) <= |c|)
  {
    AdjustedKeeps(l, b);
    ReconciledBytes(l, b);
    RedirectAdjusted(l, b, before, at);
    hide *;
    var c, t, r, start := l.Cut(b), Adjusted(l, b), RedirectReconciled(l, b), OptionsOffset(l);
    SameFrom(t, r, l.offset + 4, start);
    SameFrom(t, r, l.offset + 4, at);
  }

  lemma SameFrom(d: seq<U8>, d': seq<U8>, lo: nat, at: nat)
    requires lo <= at <= |d| == |d'| && forall i | lo <= i < |d| :: d'[i] == d[i]
    ensures d'[at..] == d[at..]
  {
  }

  lemma RedirectAdjusted(l: Layer, b: seq<U8>, before: seq<seq<U8>>, at: nat)
    requires IsRedirect(l, b) && HasRedirected(l, l.Cut(b), before, at)
    ensures Find(l.Cut(b), OptionsOffset(l)) != Looping
    ensures l.offset + 4 <= OptionsOffset(l) <= at
    ensures var c, t := l.Cut(b), Adjusted(l, b);
      && at + 8 <= |t| && |c| - 7 <= |t| <= |c|
      && (forall i | OptionsOffset(l) <= i < |t| && i != at + 1 :: t[i] == c[i])
      && (Options(t[OptionsOffset(l)..]) == Ok(before + [t[at..]]) <==> at + Extent(c[at..]) <= |c|)
      && (Options(t[OptionsOffset(l)..]).Ok? <==> at + Extent(c[at..]) <= |c|)
  {
    FewUnits(l, b);
    RedirectedFound(l, l.Cut(b), before, at);
    MeasuredOptions(l.Cut(b), OptionsOffset(l), at, before);
    hide Options, Extent, Find, Layer.WellFormed, Layer.Cut, Measured;
  }

  /** The options with the last one measured, or left as they are. */
  lemma MeasuredOptions(c: seq<U8>, start: nat, at: nat, before: seq<seq<U8>>)
    requires start <= at && at + 8 <= |c| && |c| - start <= 8 * 150 && Options(c[start..at]) == Ok(before)
    ensures var t := if at + Extent(c[at..]) <= |c| then Measured(c, at) else c;
      && at + 8 <= |t| && |c| - 7 <= |t| <= |c|
      && (forall i | start <= i < |t| && i != at + 1 :: t[i] == c[i])
      && (Options(t[start..]) == Ok(before + [t[at..]]) <==> at + Extent(c[at..]) <= |c|)
      && (Options(t[start..]).Ok? <==> at + Extent(c[at..]) <= |c|)
  {
    var t := if at + Extent(c[at..]) <= |c| then Measured(c, at) else c;
    hide Options, Extent, Measured;
    assert t[start..at] == c[start..at];
    OptionsToEnd(t, start, at, before);
  }

  /** Reconciling twice is reconciling once. Of a message on whose options the
      source loops for ever nothing is claimed, here and below. */
  lemma RedirectSettled(l: Layer, b: seq<U8>)
    requires IsRedirect(l, b)
    ensures IsRedirect(l, RedirectReconciled(l, b))
    ensures RedirectReconciled(l, RedirectReconciled(l, b)) == RedirectReconciled(l, b)
  {
    hide *;
    var t, r := Adjusted(l, b), RedirectReconciled(l, b);
    AdjustedKeeps(l, b);
    ReconciledIs(l, b);
    ChecksummedTwice(l, t);
    ReconciledBytes(l, b);
    AdjustedAgain(l, b, r);
    ReconciledIs(l, r);
  }

  lemma ReconciledIs(l: Layer, b: seq<U8>)
    requires IsRedirect(l, b)
    ensures l.IsTransport() && l.WellFormed(Adjusted(l, b)) && |Adjusted(l, b)| <= 0xFFFF
    ensures RedirectReconciled(l, b) == l.Checksummed(Adjusted(l, b))
  {
    AdjustedKeeps(l, b);
  }

  lemma ChecksummedTwice(l: Layer, t: seq<U8>)
    requires IsRedirect(l, t) && l.Cut(t) == t
    ensures l.IsTransport() && l.WellFormed(t) && |t| <= 0xFFFF
    ensures IsRedirect(l, l.Checksummed(t)) && l.Checksummed(l.Checksummed(t)) == l.Checksummed(t)
  {
    ChecksummedKeeps(l, t);
    hide Layer.WellFormed, Layer.Value, Layer.Checksummed, Layer.Cut;
    ChecksumSettled(l, t);
    ChecksummedIsPut(l, l.Checksummed(t));
  }

  lemma AdjustedAgain(l: Layer, b: seq<U8>, r: seq<U8>)
    requires IsRedirect(l, b)
    requires IsRedirect(l, r) && |r| == |Adjusted(l, b)|
    requires forall i | l.offset + 4 <= i < |r| :: r[i] == Adjusted(l, b)[i]
    ensures Adjusted(l, r) == r
  {
    var c, t, start := l.Cut(b), Adjusted(l, b), OptionsOffset(l);
    AdjustedKeeps(l, b);
    FewUnits(l, b);
    assert l.Cut(r) == r;
    var found := Find(c, start);
    if found.At? {
      var at := found.offset;
      MeasuredAgain(c, r, at);
      FindAgain(c, r, start);
    } else {
      FindSame(c, r, start);
    }
  }

  lemma MeasuredAgain(c: seq<U8>, r: seq<U8>, at: nat)
    requires at + 8 <= |c| < at + 0x800 && |r| == |Measured(c, at)|
    requires forall i | at <= i < |r| :: r[i] == Measured(c, at)[i]
    ensures Ndp.Fits(r[at..]) && Measured(r, at) == r
  {
    assert r[at..] == Measured(c, at)[at..];
  }

  /** A message whose redirected header takes all the rest, as it does once
      measured, reconciles to one whose options parse if and only if it has not
      been shortened since and is not over the limit. */
  lemma StaleLength(l: Layer, d: seq<U8>, n: nat, before: seq<seq<U8>>, at: nat)
    requires at + 8 <= n <= |d| && at + Extent(d[at..]) == |d|
    requires IsRedirect(l, d[..n]) && HasRedirected(l, l.Cut(d[..n]), before, at)
    ensures var r := RedirectReconciled(l, d[..n]);
      && OptionsOffset(l) <= |r|
      && (Options(r[OptionsOffset(l)..]).Ok? <==> n == |d| <= l.envelope.Ip().offset + IPV6_MIN_MTU)
  {
    var b, c := d[..n], l.Cut(d[..n]);
    RedirectFits(l, b, before, at);
    assert c[at + 1] == d[at + 1];
    assert Extent(c[at..]) == Extent(d[at..]);
    hide Options, Extent, Layer.WellFormed, RedirectReconciled;
  }

  /** A received Redirect on which that fails: a redirected header of two units
      has lost its last eight octets. */
  lemma StaleLengthReceived() returns (l: Layer, b: seq<U8>)
    ensures l == Icmpv6(Ipv6(Ethernet, 14), 54, true) && |b| == 102
    ensures IsRedirect(l, b) && Find(l.Cut(b), OptionsOffset(l)) != Looping
    ensures Parses(Base(l), b) && b[l.offset] == REDIRECT && OptionsOffset(l) <= |b|
    ensures var r := RedirectReconciled(l, b);
      OptionsOffset(l) <= |r| && Options(r[OptionsOffset(l)..]).Err?
  {
    var ip := Ipv6(Ethernet, 14);
    l := Icmpv6(ip, 54, true);
    b := (Zeros(94) + [4, 2, 0, 0, 0, 0, 0, 0])[12 := 0x86][13 := 0xDD][20 := ICMPV6][54 := REDIRECT];
    var d := b + [0, 0, 0, 0, 0, 0, 0, 0];
    PlainIpv6Parses(b);
    assert Names(ip, b, AsIcmpv6);
    assert TryParse(AsIcmpv6, ip, b) == Ok(Base(l)) && Parses(Base(l), b);
    assert l.WellFormed(b) && l.Cut(b) == b;
    assert d[..102] == b && b[94..94] == [];
    hide Parses, Layer.WellFormed, TryParse;
    StaleLength(l, d, 102, [], 94);
    RedirectFits(l, b, [], 94);
  }

  /** The rest of `reconcile_all` leaves the message and its options alone, all
      headers of the packet are right afterwards, and a second whole pass
      changes nothing. */
  lemma RedirectReconcileAll(l: Layer, b: seq<U8>)
    requires IsRedirect(l, b)
    ensures IsRedirect(l, RedirectReconciled(l, b))
    ensures l.envelope.WellFormed(RedirectReconciled(l, b)) && l.envelope.Fits(RedirectReconciled(l, b))
    ensures var r := AllReconciled(l.envelope, RedirectReconciled(l, b));
      && Settled(l, r) && AllRight(l, r)
      && IsRedirect(l, r) && |r| == |RedirectReconciled(l, b)|
      && (forall i | l.offset <= i < |r| :: r[i] == RedirectReconciled(l, b)[i])
      && RedirectReconciled(l, r) == r
      && l.envelope.WellFormed(r) && l.envelope.Fits(r) && AllReconciled(l.envelope, r) == r
  {
    var t, m := Adjusted(l, b), RedirectReconciled(l, b);
    AdjustedKeeps(l, b);
    ReconciledIs(l, b);
    ReconciledKeeps(l, t);
    FittingSound(l, t);
    EnvelopeAround(l, m);
    RedirectSettled(l, b);
    var r := AllReconciled(l.envelope, m);
    SettledRedirect(l, b, r);
  }

  /** What reconciling the envelope leaves. */
  lemma EnvelopeAround(l: Layer, m: seq<U8>)
    requires IsRedirect(l, m)
    ensures l.envelope.WellFormed(m) && l.envelope.Fits(m)
    ensures var r := AllReconciled(l.envelope, m);
      |r| == |m| && forall i | l.offset <= i < |r| :: r[i] == m[i]
  {
    Bounds(l, m);
    IpWellFormed(l.envelope, m);
    ChainReconciled(l.envelope, m);
    IpReconciledChanges(l.envelope.Ip(), m);
    OuterKeepsView(l, m);
  }

  lemma SettledRedirect(l: Layer, b: seq<U8>, r: seq<U8>)
    requires IsRedirect(l, b)
    requires Settled(l, r) && |r| == |RedirectReconciled(l, b)|
    requires forall i | l.offset <= i < |r| :: r[i] == RedirectReconciled(l, b)[i]
    ensures IsRedirect(l, r) && RedirectReconciled(l, r) == r
    ensures l.envelope.WellFormed(r) && l.envelope.Fits(r) && AllReconciled(l.envelope, r) == r
  {
    ReconciledBytes(l, b);
    AdjustedAgain(l, b, r);
    ReconciledIs(l, r);
    SettledIsFixed(l.envelope, r);
  }

  /** A reconciled Redirect parses as the same stack of headers, before and after
      the rest of `reconcile_all`, and is still a Redirect. */
  lemma RedirectParses(l: Layer, b: seq<U8>)
    requires IsRedirect(l, b) && Parses(Base(l), b)
    ensures Parses(Base(l), RedirectReconciled(l, b))
    ensures l.envelope.WellFormed(RedirectReconciled(l, b)) && l.envelope.Fits(RedirectReconciled(l, b))
    ensures l.offset < |b|
    ensures var r := AllReconciled(l.envelope, RedirectReconciled(l, b));
      Parses(Base(l), r) && l.offset < |r| && r[l.offset] == b[l.offset]
  {
    var m := RedirectReconciled(l, b);
    RedirectBefore(l, b);
    ParsesSame(Base(l), b, m);
    RedirectSettled(l, b);
    EnvelopeAround(l, m);
    EnvelopeReconciledParses(Base(l), m);
  }

  lemma RedirectBefore(l: Layer, b: seq<U8>)
    requires IsRedirect(l, b)
    ensures var m := RedirectReconciled(l, b);
      && 14 <= |b| && l.offset < |b| && l.offset < |m| <= 0xFFFF
      && (forall i | 0 <= i <= l.offset :: m[i] == b[i])
      && l.WellFormed(m) && l.PayloadOffset(m) == l.PayloadOffset(b)
  {
    Bounds(l, b);
    AdjustedKeeps(l, b);
    ReconciledIs(l, b);
    ReconciledBytes(l, b);
    ChecksummedKeeps(l, Adjusted(l, b));
  }
}
