/** The packet stack over one buffer (capsule/src/packets): which bytes belong
    to which header, and what reconciling a header does to the bytes. A header
    pointer of the source is an offset here. */
module Layers {
  import opened Bytes
  import opened Checksums

  const VLAN_802_1Q: U16 := 0x8100
  const VLAN_802_1AD: U16 := 0x88A8
  const IPV4_MIN_MTU := 68
  const IPV6_MIN_MTU := 1280

  const TCP: U8 := 0x06
  const UDP: U8 := 0x11
  const IPV6_ROUTE: U8 := 0x2B
  const IPV6_FRAG: U8 := 0x2C
  const ICMPV6: U8 := 0x3A

  /** `2 * count` in eight bits. */
  function Doubled(count: nat): U8
    requires count <= 0xFF
  {
    if count < 0x80 then 2 * count else 2 * count - 0x100
  }

  /** A parsed packet: its envelope, and where its header begins. */
  datatype Layer =
    | Ethernet
    | Ipv4(envelope: Layer, offset: nat)
    | Ipv6(envelope: Layer, offset: nat)
    | SegmentRouting(envelope: Layer, offset: nat, count: nat)
    | Fragment(envelope: Layer, offset: nat)
    | Tcp(envelope: Layer, offset: nat)
    | Udp(envelope: Layer, offset: nat)
    | Icmpv4(envelope: Layer, offset: nat, truncating: bool)
    | Icmpv6(envelope: Layer, offset: nat, truncating: bool)
  {
    function Start(): nat {
      if Ethernet? then 0 else offset
    }

    function HeaderLen(b: seq<U8>): nat
      requires 14 <= |b|
    {
      match this
      case Ethernet =>
        if Get16(b, 12) == VLAN_802_1Q then 18
        else if Get16(b, 12) == VLAN_802_1AD then 22
        else 14
      case Ipv4(_, _) => 20
      case Ipv6(_, _) => 40
      case SegmentRouting(_, _, count) => 8 + 16 * count
      case Fragment(_, _) => 8
      case Tcp(_, _) => 20
      case Udp(_, _) => 8
      case Icmpv4(_, _, _) => 4
      case Icmpv6(_, _, _) => 4
    }

    function PayloadOffset(b: seq<U8>): nat
      requires 14 <= |b|
    {
      Start() + HeaderLen(b)
    }

    predicate IsIpv6() {
      Ipv6? || SegmentRouting? || Fragment?
    }

    predicate IsIp() {
      Ipv4? || IsIpv6()
    }

    predicate IsTransport() {
      Tcp? || Udp? || Icmpv4? || Icmpv6?
    }

    /** What parsing checks and pushing sets up: headers follow one another
        inside the buffer, under the envelopes their types allow, and a
        segment list has the length its header fields give. */
    ghost predicate WellFormed(b: seq<U8>)
    {
      && 14 <= |b|
      && PayloadOffset(b) <= |b|
      && (match this
          case Ethernet => true
          case Ipv4(e, o) => e.Ethernet?
          case Ipv6(e, o) => e.Ethernet?
          case SegmentRouting(e, o, count) =>
            && e.IsIpv6() && 1 <= count <= 0xFF
            && b[o + 4] == count - 1 && b[o + 1] == Doubled(count) != 0
          case Fragment(e, o) => e.IsIpv6()
          case Tcp(e, o) => e.IsIp()
          case Udp(e, o) => e.IsIp()
          case Icmpv4(e, o, truncating) => e.Ipv4?
          case Icmpv6(e, o, truncating) => e.IsIpv6())
      && (!Ethernet? ==> envelope.WellFormed(b) && offset == envelope.PayloadOffset(b))
    }

    /** The IP header proper under any extension headers. */
    function Ip(): (ip: Layer)
      requires IsIp()
      ensures ip.IsIp()
    {
      if Ipv4? || Ipv6? || !envelope.IsIp() then this else envelope.Ip()
    }

    /** The size of the extension headers down to this one, in units of eight
        octets. */
    function ExtUnits(): nat
      requires IsIp()
    {
      match this
      case SegmentRouting(e, _, count) => 1 + 2 * count + if e.IsIp() then e.ExtUnits() else 0
      case Fragment(e, _) => 1 + if e.IsIp() then e.ExtUnits() else 0
      case _ => 0
    }

    /** The source address, as `IpPacket::src` finds it. */
    ghost function Src(b: seq<U8>): (a: IpAddr)
      requires IsIp() && WellFormed(b)
      ensures a.Valid() && a.V4? == Ipv4?
    {
      match this
      case Ipv4(_, o) => V4(b[o + 12..o + 16])
      case Ipv6(_, o) => V6(b[o + 8..o + 24])
      case SegmentRouting(e, _, _) => e.Src(b)
      case Fragment(e, _) => e.Src(b)
    }

    /** The final destination: under a segment list, its first entry. */
    ghost function Dst(b: seq<U8>): (a: IpAddr)
      requires IsIp() && WellFormed(b)
      ensures a.Valid() && a.V4? == Ipv4?
    {
      match this
      case Ipv4(_, o) => V4(b[o + 16..o + 20])
      case Ipv6(_, o) => V6(b[o + 24..o + 40])
      case SegmentRouting(_, o, _) => V6(b[o + 8..o + 24])
      case Fragment(e, _) => e.Dst(b)
    }

    // ---- checksums of a transport header ----

    /** Where the checksum is, relative to the header. */
    function ChecksumField(): nat
      requires IsTransport()
    {
      if Tcp? then 16 else if Udp? then 6 else 2
    }

    function Protocol(): U8 {
      if Tcp? then TCP else if Udp? then UDP else ICMPV6
    }

    ghost function PseudoTotal(b: seq<U8>): nat
      requires IsTransport() && WellFormed(b) && |b| <= 0xFFFF
    {
      if Icmpv4? then 0
      else PseudoHeader(envelope.Src(b), envelope.Dst(b), |b| - offset, Protocol()).Total()
    }

    /** The value `compute_checksum` stores: it depends on the addresses, the
        length and the bytes from the header on, but not on the old value. */
    ghost function Value(b: seq<U8>): U16
      requires IsTransport() && WellFormed(b) && |b| <= 0xFFFF
    {
      var c := Checksum(PseudoTotal(b), Put16(b, offset + ChecksumField(), 0)[offset..]);
      if Udp? && c == 0 then 0xFFFF else c
    }

    /** `compute_checksum`: clears the field, sums, stores. */
    ghost function Checksummed(b: seq<U8>): (r: seq<U8>)
      requires IsTransport() && WellFormed(b) && |b| <= 0xFFFF
      ensures |r| == |b|
    {
      Put16(Put16(b, offset + ChecksumField(), 0), offset + ChecksumField(), Value(b))
    }

    /** A receiver accepts the checksum. */
    ghost predicate Verifies(b: seq<U8>)
      requires WellFormed(b) && |b| <= 0xFFFF
    {
      if IsTransport() then Checksum(PseudoTotal(b), b[offset..]) == 0
      else if Ipv4? then Checksum(0, b[offset..offset + 20]) == 0
      else true
    }

    /** The length field of the header, where it has one, is the length of
        what follows in the buffer. */
    ghost predicate LengthRight(b: seq<U8>)
      requires WellFormed(b)
    {
      match this
      case Ipv4(_, o) => Get16(b, o + 2) == |b| - o
      case Ipv6(_, o) => Get16(b, o + 4) == |b| - o - 40
      case Udp(_, o) => Get16(b, o + 4) == |b| - o
      case _ => true
    }

    // ---- reconcile ----

    /** An ICMPv6 error message is cut to the minimum MTU, an ICMPv4 one after
        so many octets of the data that follow header and fixed body. */
    function CutAt(): nat
      requires Icmpv4? || (Icmpv6? && envelope.IsIp())
    {
      if Icmpv4? then offset + 8 + IPV4_MIN_MTU else envelope.Ip().offset + IPV6_MIN_MTU
    }

    /** The header is among the bytes that stay. */
    ghost predicate Fits(b: seq<U8>)
      requires WellFormed(b)
    {
      (Icmpv4? || Icmpv6?) && truncating ==> offset + 4 <= CutAt()
    }

    ghost function Cut(b: seq<U8>): seq<U8>
      requires WellFormed(b)
    {
      if (Icmpv4? || Icmpv6?) && truncating && CutAt() < |b| then b[..CutAt()] else b
    }

    lemma CutWellFormed(b: seq<U8>)
      requires WellFormed(b) && Fits(b)
      ensures WellFormed(Cut(b)) && Fits(Cut(b)) && Cut(Cut(b)) == Cut(b)
    {
      if Icmpv4? || Icmpv6? {
        envelope.PrefixWellFormed(b, Cut(b));
      }
    }

    /** A header depends on no byte after it. */
    lemma {:induction false} PrefixWellFormed(b: seq<U8>, b': seq<U8>)
      requires WellFormed(b) && PayloadOffset(b) <= |b'|
      requires forall i | 0 <= i < PayloadOffset(b) :: b'[i] == b[i]
      ensures WellFormed(b') && PayloadOffset(b') == PayloadOffset(b)
    {
      if !Ethernet? {
        envelope.PrefixWellFormed(b, b');
      }
    }

    ghost function Ipv4Value(b: seq<U8>): U16
      requires Ipv4? && WellFormed(b)
    {
      Checksum(0, Put16(b, offset + 10, 0)[offset..offset + 20])
    }

    ghost function Ipv4Checksummed(b: seq<U8>): (r: seq<U8>)
      requires Ipv4? && WellFormed(b)
      ensures |r| == |b|
    {
      Put16(Put16(b, offset + 10, 0), offset + 10, Ipv4Value(b))
    }

    ghost function Reconciled(b: seq<U8>): (r: seq<U8>)
      requires WellFormed(b) && Fits(b) && |b| <= 0xFFFF
      ensures |r| <= 0xFFFF
    {
      match this
      case Ipv4(_, o) =>
        LengthKeeps(b, o + 2, |b| - o);
        Ipv4Checksummed(Put16(b, o + 2, |b| - o))
      case Ipv6(_, o) => Put16(b, o + 4, |b| - o - 40)
      case Udp(_, o) =>
        LengthKeeps(b, o + 4, |b| - o);
        Checksummed(Put16(b, o + 4, |b| - o))
      case Tcp(_, _) => Checksummed(b)
      case Icmpv4(_, _, _) =>
        CutWellFormed(b);
        Checksummed(Cut(b))
      case Icmpv6(_, _, _) =>
        CutWellFormed(b);
        Checksummed(Cut(b))
      case _ => b
    }

    /** Fields that are neither lengths nor the VLAN marker nor the list length
        of a segment routing header may hold anything. */
    ghost predicate Structural(i: nat)
    {
      match this
      case Ethernet => i == 12 || i == 13
      case SegmentRouting(e, o, _) => i == o + 1 || i == o + 4 || e.Structural(i)
      case _ => envelope.Structural(i)
    }

    lemma {:induction false} KeepsWellFormed(b: seq<U8>, b': seq<U8>)
      requires WellFormed(b) && |b'| == |b|
      requires forall i | 0 <= i < |b| && Structural(i) :: b'[i] == b[i]
      ensures WellFormed(b') && PayloadOffset(b') == PayloadOffset(b)
    {
      if !Ethernet? {
        envelope.KeepsWellFormed(b, b');
      }
    }

    lemma {:induction false} StructuralBefore(b: seq<U8>, i: nat)
      requires WellFormed(b) && Structural(i)
      ensures i < PayloadOffset(b)
      ensures !SegmentRouting? && !Ethernet? ==> i < offset
    {
      if !Ethernet? && envelope.Structural(i) {
        envelope.StructuralBefore(b, i);
      }
    }

    lemma LengthKeeps(b: seq<U8>, at: nat, v: U16)
      requires WellFormed(b) && !SegmentRouting? && !Ethernet?
      requires offset <= at && at + 2 <= |b|
      ensures WellFormed(Put16(b, at, v))
    {
      forall i | 0 <= i < |b| && Structural(i) ensures Put16(b, at, v)[i] == b[i] {
        StructuralBefore(b, i);
      }
      KeepsWellFormed(b, Put16(b, at, v));
    }
  }
}
