/** Packets as they are on the wire, two of which the source's own tests parse, and
    what the models say of them: where every field is, which number is whose, and
    that right checksums are taken for right. */
module KnownPackets {
  import opened Bytes
  import opened Wrappers
  import opened Checksums
  import opened Layers
  import opened Reconciling
  import opened ExtHeaders
  import opened Stacking

  // ---- the octets ----

  const Frame4: seq<U8> := [0x00, 0x00, 0x00, 0x00, 0x00, 0x01, 0x00, 0x00, 0x00, 0x00, 0x00, 0x02, 0x08, 0x00]
  const HeaderUdp: seq<U8> := [0x45, 0x00, 0x00, 0x26, 0xAB, 0x49, 0x40, 0x00, 0xFF, 0x11, 0xF7, 0x00]
  const HeaderTcp: seq<U8> := [0x45, 0x00, 0x00, 0x2C, 0x08, 0xB8, 0x40, 0x00, 0xFF, 0x06, 0x99, 0x97]
  const SourceAddr: seq<U8> := [0x8B, 0x85, 0xD9, 0x6E]
  const TargetAddr: seq<U8> := [0x8B, 0x85, 0xE9, 0x02]
  const PortsUdp: seq<U8> := [0x99, 0xD0, 0x04, 0x3F, 0x00, 0x12, 0x72, 0x28]
  const HelloUdp: seq<U8> := [0x68, 0x65, 0x6C, 0x6C, 0x6F, 0x68, 0x65, 0x6C, 0x6C, 0x6F]
  const PortsTcp: seq<U8> := [0x90, 0x05, 0x00, 0x17, 0x72, 0x14, 0xF1, 0x14, 0x00, 0x00, 0x00, 0x00]
  const FlagsTcp: seq<U8> := [0x60, 0x02, 0x22, 0x38, 0xA9, 0x2C, 0x00, 0x00, 0x02, 0x04, 0x05, 0xB4]
  const MessageUdp := PortsUdp + HelloUdp
  const MessageTcp := PortsTcp + FlagsTcp

  function Packet4(header: seq<U8>, message: seq<U8>): seq<U8> {
    Frame4 + (header + (SourceAddr + TargetAddr)) + message
  }

  // ---- sums, eight octets at a time ----

  lemma SumOfEight(d: seq<U8>, i: nat)
    requires i % 2 == 0 && i + 8 <= |d|
    ensures WordSum(d[..i + 8]) ==
            WordSum(d[..i]) + Get16(d, i) + Get16(d, i + 2) + Get16(d, i + 4) + Get16(d, i + 6)
  {
    WordSumStep(d, i);
    WordSumStep(d, i + 2);
    WordSumStep(d, i + 4);
    WordSumStep(d, i + 6);
  }

  lemma SumHeaderUdp()
    ensures |HeaderUdp| == 12 && WordSum(HeaderUdp) == 206464
  {
    var d := HeaderUdp;
    SumOfEight(d, 0);
    WordSumStep(d, 8);
    WordSumStep(d, 10);
    assert d[..0] == [] && d[..12] == d;
  }

  lemma SumHeaderTcp()
    ensures |HeaderTcp| == 12 && WordSum(HeaderTcp) == 140929
  {
    var d := HeaderTcp;
    SumOfEight(d, 0);
    WordSumStep(d, 8);
    WordSumStep(d, 10);
    assert d[..0] == [] && d[..12] == d;
  }

  lemma SumSourceAddr()
    ensures |SourceAddr| == 4 && WordSum(SourceAddr) == 91379
  {
    var d := SourceAddr;
    WordSumStep(d, 0);
    WordSumStep(d, 2);
    assert d[..0] == [] && d[..4] == d;
  }

  lemma SumTargetAddr()
    ensures |TargetAddr| == 4 && WordSum(TargetAddr) == 95367
  {
    var d := TargetAddr;
    WordSumStep(d, 0);
    WordSumStep(d, 2);
    assert d[..0] == [] && d[..4] == d;
  }

  lemma SumPortsUdp()
    ensures |PortsUdp| == 8 && WordSum(PortsUdp) == 69705
  {
    var d := PortsUdp;
    SumOfEight(d, 0);
    assert d[..0] == [] && d[..8] == d;
  }

  lemma SumHelloUdp()
    ensures |HelloUdp| == 10 && WordSum(HelloUdp) == 136724
  {
    var d := HelloUdp;
    SumOfEight(d, 0);
    WordSumStep(d, 8);
    assert d[..0] == [] && d[..10] == d;
  }

  lemma SumPortsTcp()
    ensures |PortsTcp| == 12 && WordSum(PortsTcp) == 127812
  {
    var d := PortsTcp;
    SumOfEight(d, 0);
    WordSumStep(d, 8);
    WordSumStep(d, 10);
    assert d[..0] == [] && d[..12] == d;
  }

  lemma SumFlagsTcp()
    ensures |FlagsTcp| == 12 && WordSum(FlagsTcp) == 78622
  {
    var d := FlagsTcp;
    SumOfEight(d, 0);
    WordSumStep(d, 8);
    WordSumStep(d, 10);
    assert d[..0] == [] && d[..12] == d;
  }

  /** A total that is right, with its checksum, is a multiple of 65535. */
  lemma TotalAccepted(ps: nat, d: seq<U8>, k: nat)
    requires k > 0 && ps + WordSum(d) == k * 0xFFFF
    ensures Checksum(ps, d) == 0
  {
    FoldModulus(0xFFFF, k - 1);
  }

  // ---- IPv4, untagged ----

  /** The addresses and the transport header of an untagged IPv4 frame. */
  lemma PlainIpv4Parses(b: seq<U8>)
    requires 34 <= |b| && b[12] == 0x08 && b[13] == 0x00
    ensures var ip := Ipv4(Ethernet, 14);
      && Parses(ip, b) && ip.WellFormed(b) && ip.PayloadOffset(b) == 34
      && ip.Src(b) == V4(b[26..30]) && ip.Dst(b) == V4(b[30..34])
    ensures b[23] == 6 && 54 <= |b| ==> var l := Tcp(Ipv4(Ethernet, 14), 34);
      Parses(l, b) && l.WellFormed(b)
    ensures b[23] == 17 && 42 <= |b| ==> var l := Udp(Ipv4(Ethernet, 14), 34);
      Parses(l, b) && l.WellFormed(b)
  {
    var ip := Ipv4(Ethernet, 14);
    assert Get16(b, 12) == ETHER_IPV4;
    assert Parses(Ethernet, b) && Ethernet.PayloadOffset(b) == 14;
    assert TryParse(AsIpv4, Ethernet, b) == Ok(ip) && Parses(ip, b) && ip.PayloadOffset(b) == 34;
    if b[23] == 6 && 54 <= |b| {
      assert TryParse(AsTcp, ip, b) == Ok(Tcp(ip, 34));
    } else if b[23] == 17 && 42 <= |b| {
      assert TryParse(AsUdp, ip, b) == Ok(Udp(ip, 34));
    }
  }

  /** The sums that a receiver of TCP or UDP over IPv4 takes. */
  lemma Ipv4Accepted(b: seq<U8>, l: Layer, j: nat, k: nat)
    requires 34 <= |b| <= 0xFFFF && b[12] == 0x08 && b[13] == 0x00 && (l.Tcp? || l.Udp?)
    requires l.envelope == Ipv4(Ethernet, 14) && l.offset == 34 && l.WellFormed(b)
    requires Get16(b, 16) == |b| - 14 && (l.Udp? ==> Get16(b, 38) == |b| - 34)
    requires j > 0 && WordSum(b[14..34]) == j * 0xFFFF
    requires k > 0
    requires WordSum(b[26..30]) + WordSum(b[30..34]) + (|b| - 34) + (if l.Tcp? then 6 else 17) + WordSum(b[34..]) ==
             k * 0xFFFF
    ensures AllRight(l, b)
  {
    PlainIpv4Parses(b);
    TotalAccepted(0, b[14..34], j);
    TotalAccepted(l.PseudoTotal(b), b[34..], k);
    hide Checksum, WordSum, Parses, Layer.PseudoTotal, Layer.Src, Layer.Dst;
    assert l.Verifies(b) && l.envelope.Verifies(b) && Ethernet.Verifies(b);
    assert l.LengthRight(b) && l.envelope.LengthRight(b) && Ethernet.LengthRight(b);
    assert AllRight(Ethernet, b) && AllRight(l.envelope, b);
  }

  /** A UDP packet from 139.133.217.110 to 139.133.233.2: all of it is right. */
  lemma UdpKnown()
    ensures var l, b := Udp(Ipv4(Ethernet, 14), 34), Packet4(HeaderUdp, MessageUdp);
      && Parses(l, b) && l.WellFormed(b) && AllRight(l, b)
      && l.envelope.Src(b) == V4([139, 133, 217, 110]) && l.envelope.Dst(b) == V4([139, 133, 233, 2])
  {
    hide *;
    var b := Packet4(HeaderUdp, MessageUdp);
    UdpFacts();
    Pieces(HeaderUdp, MessageUdp);
    PlainIpv4Parses(b);
    Ipv4Accepted(b, Udp(Ipv4(Ethernet, 14), 34), 6, 6);
  }

  lemma SumMessageUdp()
    ensures WordSum(MessageUdp) == 206429
  {
    hide WordSum;
    SumPortsUdp();
    SumHelloUdp();
    hide PortsUdp, HelloUdp;
    WordSumAppend(PortsUdp, HelloUdp);
  }

  lemma UdpFacts()
    ensures |HeaderUdp| == 12 && |MessageUdp| == 18
    ensures HeaderUdp[9] == 17 && Get16(HeaderUdp, 2) == 38 && Get16(MessageUdp, 4) == 18
    ensures WordSum(HeaderUdp) == 206464 && WordSum(MessageUdp) == 206429
    ensures SourceAddr == [139, 133, 217, 110] && WordSum(SourceAddr) == 91379
    ensures TargetAddr == [139, 133, 233, 2] && WordSum(TargetAddr) == 95367
  {
    SumHeaderUdp();
    SumSourceAddr();
    SumTargetAddr();
    SumMessageUdp();
    hide WordSum;
  }

  /** A TCP packet from 139.133.217.110 to 139.133.233.2: all of it is right. */
  lemma TcpKnown()
    ensures var l, b := Tcp(Ipv4(Ethernet, 14), 34), Packet4(HeaderTcp, MessageTcp);
      && Parses(l, b) && l.WellFormed(b) && AllRight(l, b)
      && l.envelope.Src(b) == V4([139, 133, 217, 110]) && l.envelope.Dst(b) == V4([139, 133, 233, 2])
  {
    hide *;
    var b := Packet4(HeaderTcp, MessageTcp);
    TcpFacts();
    Pieces(HeaderTcp, MessageTcp);
    PlainIpv4Parses(b);
    Ipv4Accepted(b, Tcp(Ipv4(Ethernet, 14), 34), 5, 6);
  }

  lemma SumMessageTcp()
    ensures WordSum(MessageTcp) == 206434
  {
    hide WordSum;
    SumPortsTcp();
    SumFlagsTcp();
    hide PortsTcp, FlagsTcp;
    WordSumAppend(PortsTcp, FlagsTcp);
  }

  lemma TcpFacts()
    ensures |HeaderTcp| == 12 && |MessageTcp| == 24
    ensures HeaderTcp[9] == 6 && Get16(HeaderTcp, 2) == 44
    ensures WordSum(HeaderTcp) == 140929 && WordSum(MessageTcp) == 206434
    ensures SourceAddr == [139, 133, 217, 110] && WordSum(SourceAddr) == 91379
    ensures TargetAddr == [139, 133, 233, 2] && WordSum(TargetAddr) == 95367
  {
    SumHeaderTcp();
    SumSourceAddr();
    SumTargetAddr();
    SumMessageTcp();
    hide WordSum;
  }

  /** Where the pieces of a packet are, and what its header sums to. */
  lemma Pieces(header: seq<U8>, message: seq<U8>)
    requires |header| == 12 && 8 <= |message|
    ensures var b := Packet4(header, message);
      && |b| == 34 + |message| && b[12] == 0x08 && b[13] == 0x00 && b[23] == header[9]
      && Get16(b, 16) == Get16(header, 2) && Get16(b, 38) == Get16(message, 4)
      && b[26..30] == SourceAddr && b[30..34] == TargetAddr && b[34..] == message
      && WordSum(b[14..34]) == WordSum(header) + WordSum(SourceAddr) + WordSum(TargetAddr)
  {
    assert |Frame4| == 14 && |SourceAddr| == 4 && |TargetAddr| == 4 && Frame4[12] == 0x08 && Frame4[13] == 0x00;
    hide Frame4, SourceAddr, TargetAddr, WordSum;
    WordSumAppend(header, SourceAddr + TargetAddr);
    WordSumAppend(SourceAddr, TargetAddr);
    assert Packet4(header, message)[14..34] == header + (SourceAddr + TargetAddr);
  }

  // ---- tags and segment lists ----

  /** One tag moves the payload of a frame by four octets, and two by eight; the
      type of the payload comes last. */
  lemma TaggedFrames(b: seq<U8>)
    requires 22 <= |b|
    ensures ParseEthernet(b) == Ok(Ethernet)
    ensures b[12] == 0x81 && b[13] == 0x00 ==> Ethernet.PayloadOffset(b) == 18 && NameAt(Ethernet, b) == 16
    ensures b[12] == 0x88 && b[13] == 0xA8 ==> Ethernet.PayloadOffset(b) == 22 && NameAt(Ethernet, b) == 20
    ensures b[12] < 0x81 ==> Ethernet.PayloadOffset(b) == 14 && NameAt(Ethernet, b) == 12
  {
  }

  /** Of 78 octets that begin with an untagged frame, an IPv6 header counts 24. */
  lemma Ipv6LengthKnown(b: seq<U8>)
    requires |b| == 78 && b[12] == 0x86 && b[13] == 0xDD
    ensures Ipv6(Ethernet, 14).WellFormed(b)
    ensures Ipv6(Ethernet, 14).LengthRight(b) <==> b[18] == 0 && b[19] == 24
  {
    PlainIpv6Parses(b);
    hide Parses;
  }

  /** TCP beneath a list of three segments: the first is the final destination. */
  lemma RoutedTcpParses(b: seq<U8>)
    requires 130 <= |b| && b[12] == 0x86 && b[13] == 0xDD && b[20] == 43
    requires b[54] == 6 && b[55] == 6 && b[58] == 2
    ensures var route := SegmentRouting(Ipv6(Ethernet, 14), 54, 3);
      && Parses(Tcp(route, 110), b) && route.WellFormed(b) && route.envelope.WellFormed(b)
      && route.Src(b) == V6(b[22..38]) && route.Dst(b) == V6(b[62..78]) && route.envelope.Dst(b) == V6(b[38..54])
      && Segments(b, 54, 3) == [b[62..78], b[78..94], b[94..110]]
      && Chain(route, b) == [43, 6]
  {
    RoutedParses(b);
    var route := SegmentRouting(Ipv6(Ethernet, 14), 54, 3);
    hide Layer.WellFormed, Segments;
    assert TryParse(AsTcp, route, b) == Ok(Tcp(route, 110));
  }

  lemma RoutedParses(b: seq<U8>)
    requires 130 <= |b| && b[12] == 0x86 && b[13] == 0xDD && b[20] == 43
    requires b[54] == 6 && b[55] == 6 && b[58] == 2
    ensures var ip, route := Ipv6(Ethernet, 14), SegmentRouting(Ipv6(Ethernet, 14), 54, 3);
      && Parses(route, b) && route.WellFormed(b) && ip.WellFormed(b) && route.PayloadOffset(b) == 110
      && Chain(route, b) == [43, 6] && Segments(b, 54, 3) == [b[62..78], b[78..94], b[94..110]]
  {
    var ip, route := Ipv6(Ethernet, 14), SegmentRouting(Ipv6(Ethernet, 14), 54, 3);
    PlainIpv6Parses(b);
    assert Doubled(3) == 6;
    assert route.WellFormed(b) && Names(ip, b, AsRouting);
    hide Parses, TryParse;
    ParsesIff(AsRouting, ip, b, route);
    RoutedUnfolds(b);
    assert Chain(ip, b) == [43];
  }

  lemma RoutedUnfolds(b: seq<U8>)
    requires 54 <= |b| && Parses(Ipv6(Ethernet, 14), b) && Ipv6(Ethernet, 14).PayloadOffset(b) <= |b|
    requires TryParse(AsRouting, Ipv6(Ethernet, 14), b) == Ok(SegmentRouting(Ipv6(Ethernet, 14), 54, 3))
    ensures Parses(SegmentRouting(Ipv6(Ethernet, 14), 54, 3), b)
  {
  }
}
