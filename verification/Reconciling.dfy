/** `reconcile_all`: after one pass up the envelopes, every header of the
    stack is right at the same time. */
module Reconciling {
  import opened Bytes
  import opened Wrappers
  import opened Checksums
  import opened Layers

  // ---- what each header's reconcile stores ----

  lemma Bounds(l: Layer, b: seq<U8>)
    requires l.WellFormed(b)
    ensures 14 <= |b|
    ensures l.IsTransport() ==> l.envelope.IsIp() && l.offset + l.ChecksumField() + 2 <= |b|
    ensures l.Udp? ==> l.offset + 8 <= |b|
    ensures l.Ipv4? ==> l.offset + 20 <= |b|
    ensures l.Ipv6? ==> l.offset + 40 <= |b|
    ensures !l.Ethernet? ==> l.envelope.WellFormed(b) && l.offset == l.envelope.PayloadOffset(b) <= |b|
  {
  }

  lemma ChecksummedIsPut(l: Layer, b: seq<U8>)
    requires l.IsTransport() && l.WellFormed(b) && |b| <= 0xFFFF
    ensures l.Checksummed(b) == Put16(b, l.offset + l.ChecksumField(), l.Value(b))
    ensures l.Checksummed(b) == b <==> Get16(b, l.offset + l.ChecksumField()) == l.Value(b)
  {
    hide Layer.Value, Layer.PseudoTotal, Put16, Get16;
    PutPut(b, l.offset + l.ChecksumField(), 0, l.Value(b));
    PutSame(b, l.offset + l.ChecksumField(), l.Value(b));
  }

  /** Clearing the field, summing and storing is `Checksummed`. */
  lemma ChecksumStored(l: Layer, b: seq<U8>, c: U16)
    requires l.IsTransport() && l.WellFormed(b) && |b| <= 0xFFFF
    requires l.WellFormed(Put16(b, l.offset + l.ChecksumField(), 0))
    requires var z := Put16(b, l.offset + l.ChecksumField(), 0);
             c == Checksum(l.PseudoTotal(z), z[l.offset..])
    ensures l.Checksummed(b) ==
            Put16(Put16(b, l.offset + l.ChecksumField(), 0), l.offset + l.ChecksumField(),
                  if l.Udp? && c == 0 then 0xFFFF else c)
  {
    Bounds(l, b);
    ValueIgnoresField(l, b, 0);
    PutPut(b, l.offset + l.ChecksumField(), 0, 0);
    hide Layer.WellFormed, Layer.PseudoTotal, Checksum, Put16, Get16;
  }

  lemma Ipv4ChecksummedIsPut(l: Layer, b: seq<U8>)
    requires l.Ipv4? && l.WellFormed(b)
    ensures l.Ipv4Checksummed(b) == Put16(b, l.offset + 10, l.Ipv4Value(b))
    ensures l.Ipv4Checksummed(b) == b <==> Get16(b, l.offset + 10) == l.Ipv4Value(b)
  {
    PutPut(b, l.offset + 10, 0, l.Ipv4Value(b));
    PutSame(b, l.offset + 10, l.Ipv4Value(b));
  }

  /** The addresses, the length and the bytes of a header and its payload. */
  ghost predicate SameView(l: Layer, b: seq<U8>, b': seq<U8>)
    requires l.IsTransport() && l.WellFormed(b) && l.WellFormed(b')
  {
    && |b'| == |b|
    && (forall i | l.offset <= i < |b| :: b'[i] == b[i])
    && l.envelope.Src(b') == l.envelope.Src(b) && l.envelope.Dst(b') == l.envelope.Dst(b)
  }

  lemma EqualValue(l: Layer, b: seq<U8>, b': seq<U8>)
    requires l.IsTransport() && l.WellFormed(b) && l.WellFormed(b') && |b| == |b'| <= 0xFFFF
    requires Put16(b', l.offset + l.ChecksumField(), 0)[l.offset..] ==
             Put16(b, l.offset + l.ChecksumField(), 0)[l.offset..]
    requires l.envelope.Src(b') == l.envelope.Src(b) && l.envelope.Dst(b') == l.envelope.Dst(b)
    ensures l.Value(b') == l.Value(b)
  {
    hide Layer.WellFormed, Layer.Src, Layer.Dst, Checksum, Put16, PseudoHeader.Total;
  }

  lemma SameValue(l: Layer, b: seq<U8>, b': seq<U8>)
    requires l.IsTransport() && l.WellFormed(b) && l.WellFormed(b') && |b| <= 0xFFFF
    requires SameView(l, b, b')
    ensures l.Value(b') == l.Value(b)
  {
    Bounds(l, b);
    hide *;
    PutTail(b, b', l.offset + l.ChecksumField(), 0, l.offset);
    EqualValue(l, b, b');
  }

  /** Acceptance in a receiver's terms: the checksum over the octets of the
      pseudo-header followed by the message; ICMPv4 has the message alone. */
  lemma VerifiesPlain(l: Layer, b: seq<U8>)
    requires l.IsTransport() && l.WellFormed(b) && |b| <= 0xFFFF
    ensures l.envelope.IsIp() && l.envelope.WellFormed(b) && l.offset <= |b|
    ensures l.Icmpv4? ==> (l.Verifies(b) <==> Checksum(0, b[l.offset..]) == 0)
    ensures !l.Icmpv4? ==>
              var header := PseudoHeader(l.envelope.Src(b), l.envelope.Dst(b), |b| - l.offset, l.Protocol());
              l.Verifies(b) <==> Checksum(0, header.Layout() + b[l.offset..]) == 0
  {
    hide Layer.WellFormed, Layer.Src, Layer.Dst, Checksum, PseudoHeader.Layout, PseudoHeader.Total;
    Bounds(l, b);
    if !l.Icmpv4? {
      var header := PseudoHeader(l.envelope.Src(b), l.envelope.Dst(b), |b| - l.offset, l.Protocol());
      SameFamily(l.envelope, b);
      LayoutFirst(header, b[l.offset..]);
    }
  }

  lemma LayoutFirst(header: PseudoHeader, message: seq<U8>)
    requires header.Valid()
    ensures Checksum(header.Total(), message) == Checksum(0, header.Layout() + message)
  {
    header.TotalIsLayout();
    WordSumAppend(header.Layout(), message);
  }

  lemma SameFamily(e: Layer, b: seq<U8>)
    requires e.IsIp() && e.WellFormed(b)
    ensures e.Src(b).Valid() && e.Dst(b).Valid() && e.Src(b).V4? == e.Dst(b).V4?
  {
  }

  /** Which two octets of a header a checksum may change. */
  lemma ChecksumPlace(l: Layer, b: seq<U8>, i: nat)
    requires l.IsTransport() && l.WellFormed(b) && |b| <= 0xFFFF && i < |b|
    requires l.Tcp? ==> i != l.offset + 16 && i != l.offset + 17
    requires l.Udp? ==> i != l.offset + 6 && i != l.offset + 7
    requires l.Icmpv4? || l.Icmpv6? ==> i != l.offset + 2 && i != l.offset + 3
    ensures l.Checksummed(b)[i] == b[i]
  {
    Bounds(l, b);
    ChecksummedIsPut(l, b);
    hide Layer.WellFormed, Layer.Value, Layer.Checksummed, Put16;
    PutOther(b, l.offset + l.ChecksumField(), l.Value(b));
  }

  /** Zero stands for no checksum in UDP and is never stored there; in TCP it is
      the one form of zero that is. */
  lemma ChecksumForm(l: Layer, b: seq<U8>)
    requires l.IsTransport() && l.WellFormed(b) && |b| <= 0xFFFF
    ensures l.offset + l.ChecksumField() + 2 <= |b|
    ensures l.Udp? ==> Get16(l.Checksummed(b), l.offset + 6) != 0
    ensures l.Tcp? ==> Get16(l.Checksummed(b), l.offset + 16) != 0xFFFF
  {
    Bounds(l, b);
    ChecksummedIsPut(l, b);
    if l.Tcp? {
      assert l.PseudoTotal(b) > 0 by {
        hide Layer.WellFormed, Layer.Src, Layer.Dst, WordSum;
      }
    }
    hide Layer.WellFormed, Layer.PseudoTotal, Layer.Checksummed, WordSum, Put16, Get16;
  }

  // ---- headers do not disturb each other ----

  /** The bytes that reconciling the IP header may change. */
  ghost predicate IpField(ip: Layer, i: int) {
    match ip
    case Ipv4(_, o) => i == o + 2 || i == o + 3 || i == o + 10 || i == o + 11
    case Ipv6(_, o) => i == o + 4 || i == o + 5
    case _ => false
  }

  lemma {:induction false} IpWellFormed(e: Layer, b: seq<U8>)
    requires e.IsIp() && e.WellFormed(b)
    ensures (e.Ip().Ipv4? || e.Ip().Ipv6?) && e.Ip().WellFormed(b)
    ensures e.Ip().PayloadOffset(b) <= e.PayloadOffset(b)
    ensures e.Ip().Ipv4? == e.Ipv4?
  {
    if !e.Ipv4? && !e.Ipv6? {
      IpWellFormed(e.envelope, b);
    }
  }

  lemma IpReconciledChanges(ip: Layer, b: seq<U8>)
    requires (ip.Ipv4? || ip.Ipv6?) && ip.WellFormed(b) && |b| <= 0xFFFF
    ensures |ip.Reconciled(b)| == |b|
    ensures forall i | 0 <= i < |b| && !IpField(ip, i) :: ip.Reconciled(b)[i] == b[i]
  {
  }

  lemma {:induction false} IpFieldsApart(e: Layer, b: seq<U8>, b': seq<U8>)
    requires e.IsIp() && e.WellFormed(b) && |b'| == |b|
    requires forall i | 0 <= i < |b| && !IpField(e.Ip(), i) :: b'[i] == b[i]
    ensures e.WellFormed(b') && e.PayloadOffset(b') == e.PayloadOffset(b)
    ensures e.Src(b') == e.Src(b) && e.Dst(b') == e.Dst(b)
  {
    if e.Ipv4? || e.Ipv6? {
      e.envelope.PrefixWellFormed(b, b');
    } else {
      IpWellFormed(e.envelope, b);
      IpFieldsApart(e.envelope, b, b');
    }
  }

  /** Reconciling the envelope leaves the view of the transport header. */
  lemma OuterKeepsView(l: Layer, b: seq<U8>)
    requires l.IsTransport() && l.WellFormed(b) && |b| <= 0xFFFF
    ensures l.envelope.Ip().WellFormed(b) && (l.envelope.Ip().Ipv4? || l.envelope.Ip().Ipv6?)
    ensures l.WellFormed(l.envelope.Ip().Reconciled(b))
    ensures SameView(l, b, l.envelope.Ip().Reconciled(b))
  {
    IpWellFormed(l.envelope, b);
    IpReconciledChanges(l.envelope.Ip(), b);
    IpFieldsApart(l.envelope, b, l.envelope.Ip().Reconciled(b));
  }

  // ---- reconcile_all ----

  lemma ReconciledKeeps(l: Layer, b: seq<U8>)
    requires l.WellFormed(b) && l.Fits(b) && |b| <= 0xFFFF
    ensures l.WellFormed(l.Reconciled(b)) && l.Fits(l.Reconciled(b))
    ensures !l.Ethernet? ==> l.envelope.Fits(l.Reconciled(b))
  {
    if l.Ipv4? || l.Ipv6? {
      IpReconciledChanges(l, b);
      IpFieldsApart(l, b, l.Reconciled(b));
    } else if l.Udp? {
      l.LengthKeeps(b, l.offset + 4, |b| - l.offset);
      ChecksummedKeeps(l, Put16(b, l.offset + 4, |b| - l.offset));
    } else if l.IsTransport() {
      l.CutWellFormed(b);
      ChecksummedKeeps(l, l.Cut(b));
    }
  }

  lemma ChecksummedKeeps(l: Layer, b: seq<U8>)
    requires l.IsTransport() && l.WellFormed(b) && l.Fits(b) && |b| <= 0xFFFF
    ensures l.WellFormed(l.Checksummed(b)) && l.Fits(l.Checksummed(b))
    ensures l.envelope.Fits(l.Checksummed(b))
  {
    hide Layer.WellFormed, Layer.Value, Layer.Checksummed, Layer.Fits, Put16;
    Bounds(l, b);
    ChecksummedIsPut(l, b);
    l.LengthKeeps(b, l.offset + l.ChecksumField(), l.Value(b));
    Bounds(l, l.Checksummed(b));
    FitsAnywhere(l, b, l.Checksummed(b));
  }

  /** Whether a header fits does not depend on the bytes. */
  lemma FitsAnywhere(l: Layer, b: seq<U8>, b': seq<U8>)
    requires l.IsTransport() && l.WellFormed(b) && l.WellFormed(b')
    ensures l.Fits(b') <==> l.Fits(b)
    ensures l.envelope.WellFormed(b') && l.envelope.Fits(b')
  {
  }

  ghost function AllReconciled(l: Layer, b: seq<U8>): seq<U8>
    requires l.WellFormed(b) && l.Fits(b) && |b| <= 0xFFFF
    decreases l
  {
    if l.Ethernet? then b
    else
      ReconciledKeeps(l, b);
      AllReconciled(l.envelope, l.Reconciled(b))
  }

  /** Reconciling any single header of the stack again changes nothing. */
  ghost predicate Settled(l: Layer, b: seq<U8>)
    decreases l
  {
    && l.WellFormed(b) && l.Fits(b) && |b| <= 0xFFFF
    && l.Reconciled(b) == b
    && (!l.Ethernet? ==> Settled(l.envelope, b))
  }

  /** Every header has right lengths and a checksum a receiver accepts. */
  ghost predicate AllRight(l: Layer, b: seq<U8>)
    requires l.WellFormed(b) && |b| <= 0xFFFF
    decreases l
  {
    && l.LengthRight(b) && l.Verifies(b)
    && (!l.Ethernet? ==> AllRight(l.envelope, b))
  }

  /** Under a transport header only the IP header proper has work to do. */
  lemma {:induction false} ChainReconciled(e: Layer, b: seq<U8>)
    requires e.IsIp() && e.WellFormed(b) && |b| <= 0xFFFF
    ensures e.Ip().WellFormed(b) && e.Ip().Fits(b)
    ensures AllReconciled(e, b) == e.Ip().Reconciled(b)
  {
    if !e.Ipv4? && !e.Ipv6? {
      ChainReconciled(e.envelope, b);
    }
  }

  lemma IpSelfSettled(ip: Layer, b: seq<U8>)
    requires (ip.Ipv4? || ip.Ipv6?) && ip.WellFormed(b) && |b| <= 0xFFFF
    ensures ip.WellFormed(ip.Reconciled(b))
    ensures ip.Reconciled(ip.Reconciled(b)) == ip.Reconciled(b)
  {
    ReconciledKeeps(ip, b);
    if ip.Ipv6? {
      PutSame(ip.Reconciled(b), ip.offset + 4, |b| - ip.offset - 40);
    } else {
      Ipv4SelfSettled(ip, b);
    }
  }

  lemma Ipv4ReconciledIsPut(ip: Layer, b: seq<U8>)
    requires ip.Ipv4? && ip.WellFormed(b) && |b| <= 0xFFFF
    ensures var c := Put16(b, ip.offset + 2, |b| - ip.offset);
            ip.WellFormed(c) && ip.Reconciled(b) == Put16(c, ip.offset + 10, ip.Ipv4Value(c))
  {
    Bounds(ip, b);
    ip.LengthKeeps(b, ip.offset + 2, |b| - ip.offset);
    hide Layer.WellFormed, Layer.Ipv4Value, Put16, Get16;
    Ipv4ChecksummedIsPut(ip, Put16(b, ip.offset + 2, |b| - ip.offset));
  }

  lemma Ipv4ValueIgnoresField(ip: Layer, c: seq<U8>, v: U16)
    requires ip.Ipv4? && ip.WellFormed(c)
    ensures ip.WellFormed(Put16(c, ip.offset + 10, v))
    ensures ip.Ipv4Value(Put16(c, ip.offset + 10, v)) == ip.Ipv4Value(c)
  {
    Bounds(ip, c);
    ip.LengthKeeps(c, ip.offset + 10, v);
    hide Layer.WellFormed, Checksum, Put16, Get16;
    PutPut(c, ip.offset + 10, v, 0);
  }

  lemma Ipv4SelfSettled(ip: Layer, b: seq<U8>)
    requires ip.Ipv4? && ip.WellFormed(b) && |b| <= 0xFFFF
    ensures ip.WellFormed(ip.Reconciled(b))
    ensures ip.Reconciled(ip.Reconciled(b)) == ip.Reconciled(b)
  {
    Bounds(ip, b);
    ReconciledKeeps(ip, b);
    hide *;
    var o := ip.offset;
    var c, r := Put16(b, o + 2, |b| - o), ip.Reconciled(b);
    Ipv4ReconciledIsPut(ip, b);
    var v := ip.Ipv4Value(c);
    PutGet(c, o + 10, v, o + 2);
    PutSame(r, o + 2, |b| - o);
    Ipv4ValueIgnoresField(ip, c, v);
    Ipv4ReconciledIsPut(ip, r);
    PutSame(r, o + 10, v);
  }

  lemma TransportSelfSettled(l: Layer, b: seq<U8>)
    requires l.IsTransport() && l.WellFormed(b) && l.Fits(b) && |b| <= 0xFFFF
    ensures l.WellFormed(l.Reconciled(b)) && l.Fits(l.Reconciled(b))
    ensures TransportSettled(l, l.Reconciled(b))
  {
    ReconciledKeeps(l, b);
    hide *;
    var c := ChecksummedLast(l, b);
    ChecksumSettled(l, c);
  }

  /** A transport header computes its checksum last, over what it made first. */
  lemma ChecksummedLast(l: Layer, b: seq<U8>) returns (c: seq<U8>)
    requires l.IsTransport() && l.WellFormed(b) && l.Fits(b) && |b| <= 0xFFFF
    ensures l.WellFormed(c) && l.Fits(c) && |c| <= 0xFFFF && l.Cut(c) == c
    ensures l.offset + 6 <= |c| || !l.Udp?
    ensures l.Udp? ==> Get16(c, l.offset + 4) == |c| - l.offset
    ensures l.Reconciled(b) == l.Checksummed(c)
  {
    Bounds(l, b);
    hide Layer.WellFormed, Layer.Checksummed, Put16, Get16;
    if l.Udp? {
      l.LengthKeeps(b, l.offset + 4, |b| - l.offset);
      c := Put16(b, l.offset + 4, |b| - l.offset);
    } else {
      l.CutWellFormed(b);
      c := l.Cut(b);
    }
  }

  lemma ChecksumSettled(l: Layer, c: seq<U8>)
    requires l.IsTransport() && l.WellFormed(c) && l.Fits(c) && |c| <= 0xFFFF && l.Cut(c) == c
    requires l.Udp? ==> Get16(c, l.offset + 4) == |c| - l.offset
    ensures l.WellFormed(l.Checksummed(c)) && TransportSettled(l, l.Checksummed(c))
  {
    Bounds(l, c);
    hide Layer.Value, Layer.PseudoTotal, Layer.WellFormed;
    ChecksummedIsPut(l, c);
    ValueIgnoresField(l, c, l.Value(c));
  }

  lemma ValueIgnoresField(l: Layer, b: seq<U8>, v: U16)
    requires l.IsTransport() && l.WellFormed(b) && |b| <= 0xFFFF
    ensures l.WellFormed(Put16(b, l.offset + l.ChecksumField(), v))
    ensures l.Value(Put16(b, l.offset + l.ChecksumField(), v)) == l.Value(b)
  {
    Bounds(l, b);
    l.LengthKeeps(b, l.offset + l.ChecksumField(), v);
    hide Layer.WellFormed, Layer.Value, Layer.Src, Layer.Dst, Layer.HeaderLen, Put16;
    var at := l.offset + l.ChecksumField();
    Bounds(l, Put16(b, at, v));
    PutOther(b, at, v);
    PutPut(b, at, v, 0);
    AddressesBefore(l.envelope, b, Put16(b, at, v));
    EqualValue(l, b, Put16(b, at, v));
  }

  /** The addresses are in headers before the payload. */
  lemma {:induction false} AddressesBefore(e: Layer, b: seq<U8>, b': seq<U8>)
    requires e.IsIp() && e.WellFormed(b) && e.WellFormed(b')
    requires forall i | 0 <= i < e.PayloadOffset(b) :: b'[i] == b[i]
    ensures e.Src(b') == e.Src(b) && e.Dst(b') == e.Dst(b)
  {
    if !e.Ipv4? && !e.Ipv6? {
      AddressesBefore(e.envelope, b, b');
    }
  }

  /** What a reconciled transport header looks like, field by field. */
  ghost predicate TransportSettled(l: Layer, b: seq<U8>)
    requires l.IsTransport() && l.WellFormed(b)
  {
    && |b| <= 0xFFFF
    && Get16(b, l.offset + l.ChecksumField()) == l.Value(b)
    && (l.Udp? ==> Get16(b, l.offset + 4) == |b| - l.offset)
    && l.Cut(b) == b
  }

  lemma TransportSettledIff(l: Layer, b: seq<U8>)
    requires l.IsTransport() && l.WellFormed(b) && l.Fits(b) && TransportSettled(l, b)
    ensures l.Reconciled(b) == b
  {
    Bounds(l, b);
    ChecksummedIsPut(l, b);
    hide Layer.Value, Layer.Checksummed, Layer.WellFormed, Put16, Get16;
    if l.Udp? {
      PutSame(b, l.offset + 4, |b| - l.offset);
    }
  }

  lemma {:induction false} ChainSettled(e: Layer, b: seq<U8>)
    requires e.IsIp() && e.WellFormed(b) && |b| <= 0xFFFF
    requires e.Ip().WellFormed(b) && e.Ip().Fits(b) && e.Ip().Reconciled(b) == b
    ensures Settled(e, b)
  {
    if !e.Ipv4? && !e.Ipv6? {
      ChainSettled(e.envelope, b);
    }
  }

  /** After `reconcile_all` all headers are settled at once: no outer header's
      update invalidates an inner one. */
  lemma AllSettled(l: Layer, b: seq<U8>)
    requires l.WellFormed(b) && l.Fits(b) && |b| <= 0xFFFF
    ensures Settled(l, AllReconciled(l, b))
  {
    if l.IsIp() {
      IpAllSettled(l, b);
    } else if l.IsTransport() {
      TransportAllSettled(l, b);
    }
  }

  lemma IpAllSettled(l: Layer, b: seq<U8>)
    requires l.IsIp() && l.WellFormed(b) && l.Fits(b) && |b| <= 0xFFFF
    ensures Settled(l, AllReconciled(l, b))
  {
    hide Layer.Reconciled, Settled, AllReconciled;
    IpWellFormed(l, b);
    ChainReconciled(l, b);
    IpSelfSettled(l.Ip(), b);
    IpReconciledChanges(l.Ip(), b);
    IpFieldsApart(l, b, l.Ip().Reconciled(b));
    ChainSettled(l, l.Ip().Reconciled(b));
  }

  lemma TransportAllSettled(l: Layer, b: seq<U8>)
    requires l.IsTransport() && l.WellFormed(b) && l.Fits(b) && |b| <= 0xFFFF
    ensures Settled(l, AllReconciled(l, b))
  {
    hide Layer.Reconciled, Layer.Value;
    ReconciledKeeps(l, b);
    var t, ip := l.Reconciled(b), l.envelope.Ip();
    TransportSelfSettled(l, b);
    OuterKeepsView(l, t);
    IpReconciledChanges(ip, t);
    ChainReconciled(l.envelope, t);
    var r := ip.Reconciled(t);
    SameValue(l, t, r);
    SameFields(l, t, r);
    TransportSettledIff(l, r);
    IpSelfSettled(ip, t);
    ChainSettled(l.envelope, r);
  }

  lemma SameFields(l: Layer, b: seq<U8>, b': seq<U8>)
    requires l.IsTransport() && l.WellFormed(b) && l.WellFormed(b') && l.Fits(b)
    requires TransportSettled(l, b) && SameView(l, b, b') && l.Value(b') == l.Value(b)
    ensures TransportSettled(l, b') && l.Fits(b')
  {
    hide Layer.Value;
    Bounds(l, b);
  }

  lemma {:induction false} SettledIsFixed(l: Layer, b: seq<U8>)
    requires Settled(l, b)
    ensures AllReconciled(l, b) == b
  {
    if !l.Ethernet? {
      SettledIsFixed(l.envelope, b);
    }
  }

  // ---- messages cut in front of their own header ----

  lemma {:induction false} PayloadAligned(e: Layer, b: seq<U8>)
    requires e.IsIpv6() && e.WellFormed(b)
    ensures e.PayloadOffset(b) == e.Ip().offset + 40 + 8 * e.ExtUnits()
  {
    if !e.Ipv6? {
      PayloadAligned(e.envelope, b);
    }
  }

  /** Headers are aligned to eight octets and the limit is a multiple of them:
      the cut leaves a header and body of eight octets whole or takes both, and
      it takes them exactly when they begin at or after the limit. */
  lemma CutLeavesHeader(l: Layer, b: seq<U8>)
    requires (l.Icmpv4? || l.Icmpv6?) && l.truncating && l.WellFormed(b)
    ensures l.Icmpv4? ==> l.Fits(b)
    ensures l.Icmpv6? ==> l.envelope.IsIp() && (l.Fits(b) <==> l.envelope.ExtUnits() < 155)
    ensures l.Fits(b) <==> l.offset < l.CutAt()
    ensures l.Fits(b) <==> l.offset < |l.Cut(b)|
    ensures l.Fits(b) ==> l.offset + 8 <= l.CutAt()
  {
    if l.Icmpv6? {
      PayloadAligned(l.envelope, b);
    }
  }

  /** What is left of a message: 68 octets of data under IPv4, header and fixed
      body of eight octets aside, and 1280 octets in all under IPv6. */
  lemma CutLength(l: Layer, b: seq<U8>)
    requires (l.Icmpv4? || l.Icmpv6?) && l.truncating && l.WellFormed(b)
    ensures l.Icmpv4? ==> |l.Cut(b)| == if |b| - l.offset - 8 > 68 then l.offset + 8 + 68 else |b|
    ensures l.Icmpv6? ==>
              && l.envelope.IsIp()
              && |l.Cut(b)| == if |b| - l.envelope.Ip().offset > 1280 then l.envelope.Ip().offset + 1280 else |b|
    ensures l.Cut(b) == b[..|l.Cut(b)|]
  {
  }

  /** The buffer after `reconcile_all`; none where the source panics, because
      its read of a message whose header was cut off fails. */
  ghost function AfterReconcileAll(l: Layer, b: seq<U8>): Option<seq<U8>>
    requires l.WellFormed(b) && |b| <= 0xFFFF
  {
    if (l.Icmpv4? || l.Icmpv6?) && |l.Cut(b)| <= l.offset then None
    else
      HeaderLeft(l, b);
      Some(AllReconciled(l, b))
  }

  lemma HeaderLeft(l: Layer, b: seq<U8>)
    requires l.WellFormed(b)
    ensures l.Fits(b) <==> !((l.Icmpv4? || l.Icmpv6?) && |l.Cut(b)| <= l.offset)
  {
    if (l.Icmpv4? || l.Icmpv6?) && l.truncating {
      CutLeavesHeader(l, b);
    }
  }

  /** A second `reconcile_all` changes nothing. */
  lemma ReconcileIdempotent(l: Layer, b: seq<U8>)
    requires l.WellFormed(b) && |b| <= 0xFFFF
    ensures AfterReconcileAll(l, b).Some? ==>
              var r := AfterReconcileAll(l, b).value;
              l.WellFormed(r) && |r| <= 0xFFFF && AfterReconcileAll(l, r) == Some(r)
  {
    HeaderLeft(l, b);
    if l.Fits(b) {
      AllSettled(l, b);
      SettledIsFixed(l, AllReconciled(l, b));
      HeaderLeft(l, AllReconciled(l, b));
    }
  }

  lemma TransportRight(l: Layer, b: seq<U8>)
    requires l.IsTransport() && l.WellFormed(b) && l.Fits(b) && |b| <= 0xFFFF && l.Reconciled(b) == b
    ensures l.LengthRight(b) && l.Verifies(b)
  {
    TransportSelfSettled(l, b);
    FieldVerifies(l, b);
  }

  lemma FieldVerifies(l: Layer, b: seq<U8>)
    requires l.IsTransport() && l.WellFormed(b) && |b| <= 0xFFFF
    requires Get16(b, l.offset + l.ChecksumField()) == l.Value(b)
    ensures l.Verifies(b)
  {
    Bounds(l, b);
    var at, tail := l.ChecksumField(), b[l.offset..];
    TailField(b, l.offset, at);
    hide Layer.PseudoTotal, Layer.WellFormed, Put16, Get16, Checksum;
    FieldAccepted(l.PseudoTotal(b), tail, at, l.Udp?);
  }

  lemma TailField(b: seq<U8>, lo: nat, at: nat)
    requires lo + at + 2 <= |b|
    ensures Get16(b[lo..], at) == Get16(b, lo + at)
    ensures Put16(b, lo + at, 0)[lo..] == Put16(b[lo..], at, 0)
  {
  }

  /** A field that holds the checksum of the rest, with zero written as all
      ones where that is the rule, is accepted. */
  lemma FieldAccepted(ps: nat, tail: seq<U8>, at: nat, allOnes: bool)
    requires at % 2 == 0 && at + 2 <= |tail|
    requires var c := Checksum(ps, Put16(tail, at, 0));
             Get16(tail, at) == if allOnes && c == 0 then 0xFFFF else c
    ensures Checksum(ps, tail) == 0
  {
    hide Put16, Get16, Checksum;
    var z, v := Put16(tail, at, 0), Get16(tail, at);
    PutSame(tail, at, v);
    PutPut(tail, at, 0, v);
    StoredVerifies(ps, z, at);
    VerifiesIff(ps, z, at, v);
  }

  lemma Ipv4Right(l: Layer, b: seq<U8>)
    requires l.Ipv4? && l.WellFormed(b) && |b| <= 0xFFFF && l.Reconciled(b) == b
    ensures l.LengthRight(b) && l.Verifies(b)
  {
    Bounds(l, b);
    hide Layer.WellFormed, Checksum, Put16, Get16;
    var o := l.offset;
    var c := Put16(b, o + 2, |b| - o);
    l.LengthKeeps(b, o + 2, |b| - o);
    Ipv4ChecksummedIsPut(l, c);
    var v := l.Ipv4Value(c);
    PutGet(c, o + 10, v, o + 2);
    PutPut(c, o + 10, v, 0);
    var header := b[o..o + 20];
    PutSlice(b, o + 10, 0, o, o + 20);
    FieldAccepted(0, header, 10, false);
  }

  lemma {:induction false} SettledIsRight(l: Layer, b: seq<U8>)
    requires Settled(l, b)
    ensures AllRight(l, b)
  {
    if l.IsTransport() {
      TransportRight(l, b);
    } else if l.Ipv4? {
      Ipv4Right(l, b);
    } else if l.Ipv6? {
      PutSame(b, l.offset + 4, |b| - l.offset - 40);
    }
    if !l.Ethernet? {
      SettledIsRight(l.envelope, b);
    }
  }

  /** One `reconcile_all` makes all lengths equal to the buffer and all
      checksums verify together, for every stack of headers but one: an ICMPv6
      error message beneath 1240 octets of extension headers or more. */
  lemma ReconcileSound(l: Layer, b: seq<U8>)
    requires l.WellFormed(b) && |b| <= 0xFFFF
    ensures l.Icmpv6? ==> l.envelope.IsIp()
    ensures AfterReconcileAll(l, b).Some? <==> (l.Icmpv6? && l.truncating ==> l.envelope.ExtUnits() < 155)
    ensures AfterReconcileAll(l, b).Some? ==>
              var r := AfterReconcileAll(l, b).value;
              Settled(l, r) && AllRight(l, r)
  {
    ReturnsIff(l, b);
    hide *;
    if l.Fits(b) {
      FittingSound(l, b);
    }
  }

  lemma ReturnsIff(l: Layer, b: seq<U8>)
    requires l.WellFormed(b) && |b| <= 0xFFFF
    ensures l.Icmpv6? ==> l.envelope.IsIp()
    ensures AfterReconcileAll(l, b).Some? <==> (l.Icmpv6? && l.truncating ==> l.envelope.ExtUnits() < 155)
    ensures AfterReconcileAll(l, b) == if l.Fits(b) then Some(AllReconciled(l, b)) else None
  {
    HeaderLeft(l, b);
    if (l.Icmpv4? || l.Icmpv6?) && l.truncating {
      CutLeavesHeader(l, b);
    }
    hide Layer.WellFormed, Layer.Cut, AllReconciled;
  }

  lemma FittingSound(l: Layer, b: seq<U8>)
    requires l.WellFormed(b) && l.Fits(b) && |b| <= 0xFFFF
    ensures Settled(l, AllReconciled(l, b)) && AllRight(l, AllReconciled(l, b))
  {
    AllSettled(l, b);
    SettledIsRight(l, AllReconciled(l, b));
  }
}
