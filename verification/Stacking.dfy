/** Parsing and pushing the headers of a stack (capsule/src/packets): what is
    pushed parses back, and what parses is well formed. */
module Stacking {
  import opened Bytes
  import opened Wrappers
  import opened Mbufs
  import opened Layers
  import opened Reconciling
  import opened ExtHeaders

  const ETHER_IPV4: U16 := 0x0800
  const ETHER_IPV6: U16 := 0x86DD
  const ICMPV4: U8 := 0x01
  const DEFAULT_IP_TTL: U8 := 64

  datatype ParseError = WrongProtocol | OutOfBytes(error: BufferError) | BadSegmentList

  /** The header types that have an envelope. */
  datatype Kind = AsIpv4 | AsIpv6 | AsRouting | AsFragment | AsTcp | AsUdp | AsIcmpv4 | AsIcmpv6
  {
    /** The envelopes that the types of the source allow. */
    predicate Allows(e: Layer) {
      match this
      case AsIpv4 => e.Ethernet?
      case AsIpv6 => e.Ethernet?
      case AsTcp => e.IsIp()
      case AsUdp => e.IsIp()
      case AsIcmpv4 => e.Ipv4?
      case _ => e.IsIpv6()
    }

    function EtherType(): U16 {
      if AsIpv4? then ETHER_IPV4 else ETHER_IPV6
    }

    function Code(): U8 {
      match this
      case AsRouting => IPV6_ROUTE
      case AsFragment => IPV6_FRAG
      case AsTcp => TCP
      case AsUdp => UDP
      case AsIcmpv4 => ICMPV4
      case _ => ICMPV6
    }

    function Size(): nat {
      match this
      case AsIpv4 => 20
      case AsIpv6 => 40
      case AsRouting => 24
      case AsFragment => 8
      case AsTcp => 20
      case AsUdp => 8
      case _ => 4
    }

    function Over(e: Layer, offset: nat): Layer {
      match this
      case AsIpv4 => Ipv4(e, offset)
      case AsIpv6 => Ipv6(e, offset)
      case AsRouting => SegmentRouting(e, offset, 1)
      case AsFragment => Fragment(e, offset)
      case AsTcp => Tcp(e, offset)
      case AsUdp => Udp(e, offset)
      case AsIcmpv4 => Icmpv4(e, offset, false)
      case AsIcmpv6 => Icmpv6(e, offset, false)
    }

    /** The headers that the base type itself can push. */
    predicate Plain() {
      AsIpv4? || AsIpv6? || AsTcp? || AsUdp?
    }

    function Default(): (h: seq<U8>)
      requires Plain()
      ensures |h| == Size()
    {
      match this
      case AsIpv4 => [0x45] + Zeros(7) + [DEFAULT_IP_TTL] + Zeros(11)
      case AsIpv6 => [0x60] + Zeros(6) + [DEFAULT_IP_TTL] + Zeros(32)
      case AsTcp => Zeros(12) + [0x50] + Zeros(7)
      case AsUdp => Zeros(8)
    }
  }

  function Zeros(n: nat): (z: seq<U8>)
    ensures |z| == n
  {
    seq(n, i => 0)
  }

  /** Not one of the ICMP messages that reconciling cuts. */
  predicate Untyped(l: Layer) {
    l.Icmpv4? || l.Icmpv6? ==> !l.truncating
  }

  /** The header itself, whatever the message. */
  function Base(l: Layer): (r: Layer)
    ensures Untyped(r)
  {
    if l.Icmpv4? || l.Icmpv6? then l.(truncating := false) else l
  }

  function KindOf(l: Layer): Kind
    requires !l.Ethernet? && Untyped(l)
  {
    match l
    case Ipv4(_, _) => AsIpv4
    case Ipv6(_, _) => AsIpv6
    case SegmentRouting(_, _, _) => AsRouting
    case Fragment(_, _) => AsFragment
    case Tcp(_, _) => AsTcp
    case Udp(_, _) => AsUdp
    case Icmpv4(_, _, _) => AsIcmpv4
    case Icmpv6(_, _, _) => AsIcmpv6
  }

  // ---- which header follows ----

  /** Where an envelope names its payload: behind the VLAN tags of Ethernet in
      two bytes, in an IP or extension header in one. */
  function NameAt(e: Layer, b: seq<U8>): nat
    requires 14 <= |b| && (e.Ethernet? || e.IsIp())
  {
    match e
    case Ethernet => e.HeaderLen(b) - 2
    case Ipv4(_, o) => o + 9
    case _ => NextHeaderAt(e)
  }

  predicate Names(e: Layer, b: seq<U8>, k: Kind)
    requires 14 <= |b| && k.Allows(e) && e.PayloadOffset(b) <= |b|
  {
    if e.Ethernet? then Get16(b, NameAt(e, b)) == k.EtherType() else b[NameAt(e, b)] == k.Code()
  }

  ghost function Named(e: Layer, b: seq<U8>, k: Kind): (r: seq<U8>)
    requires 14 <= |b| && k.Allows(e) && e.PayloadOffset(b) <= |b|
    ensures |r| == |b|
  {
    if e.Ethernet? then Put16(b, NameAt(e, b), k.EtherType()) else b[NameAt(e, b) := k.Code()]
  }

  // ---- parsing ----

  function ParseEthernet(b: seq<U8>): Result<Layer, ParseError> {
    if |b| == 0 then Err(OutOfBytes(BadOffset))
    else if |b| < 14 || |b| < Ethernet.HeaderLen(b) then Err(OutOfBytes(OutOfBuffer))
    else Ok(Ethernet)
  }

  function TryParse(k: Kind, e: Layer, b: seq<U8>): Result<Layer, ParseError>
    requires 14 <= |b| && k.Allows(e) && e.PayloadOffset(b) <= |b|
  {
    var o := e.PayloadOffset(b);
    if !Names(e, b, k) then Err(WrongProtocol)
    else if k.AsRouting? then
      match ParseRouting(e, b)
      case Ok(l) => Ok(l)
      case Err(Buffer(error)) => Err(OutOfBytes(error))
      case Err(_) => Err(BadSegmentList)
    else if o >= |b| then Err(OutOfBytes(BadOffset))
    else if o + k.Size() > |b| then Err(OutOfBytes(OutOfBuffer))
    else Ok(k.Over(e, o))
  }

  /** A header parses exactly if it is well formed and its envelope names it. */
  lemma ParsesIff(k: Kind, e: Layer, b: seq<U8>, l: Layer)
    requires e.WellFormed(b) && k.Allows(e)
    ensures TryParse(k, e, b) == Ok(l) <==> Parsed(k, e, b, l)
  {
    if k.AsRouting? {
      RoutingParsesIff(e, b, l);
    } else {
      PlainParsesIff(k, e, b, l);
    }
  }

  ghost predicate Parsed(k: Kind, e: Layer, b: seq<U8>, l: Layer)
    requires e.WellFormed(b) && k.Allows(e)
  {
    && !l.Ethernet? && Untyped(l)
    && l.envelope == e && KindOf(l) == k && l.WellFormed(b) && Names(e, b, k)
  }

  lemma PlainParsesIff(k: Kind, e: Layer, b: seq<U8>, l: Layer)
    requires e.WellFormed(b) && k.Allows(e) && !k.AsRouting?
    ensures TryParse(k, e, b) == Ok(l) <==> Parsed(k, e, b, l)
  {
    var o := e.PayloadOffset(b);
    hide Names, ParseRouting;
    OverIff(k, e, o, l);
    OverWellFormed(k, e, b);
  }

  lemma OverIff(k: Kind, e: Layer, o: nat, l: Layer)
    requires !k.AsRouting?
    ensures l == k.Over(e, o) <==>
            !l.Ethernet? && Untyped(l) && l.envelope == e && KindOf(l) == k && l.offset == o
  {
  }

  lemma OverWellFormed(k: Kind, e: Layer, b: seq<U8>)
    requires e.WellFormed(b) && k.Allows(e) && !k.AsRouting?
    ensures k.Over(e, e.PayloadOffset(b)).WellFormed(b) <==> e.PayloadOffset(b) + k.Size() <= |b|
  {
  }

  lemma RoutingParsesIff(e: Layer, b: seq<U8>, l: Layer)
    requires e.WellFormed(b) && e.IsIpv6()
    ensures TryParse(AsRouting, e, b) == Ok(l) <==> Parsed(AsRouting, e, b, l)
  {
    NextHeaderBefore(e, b);
    var o := e.PayloadOffset(b);
    if o + 8 <= |b| {
      var last: int := b[o + 4];
      WrappedDouble(last);
      assert l.SegmentRouting? && l.envelope == e && l.WellFormed(b) ==> l.count == last + 1;
    }
  }

  /** Counting and doubling in eight bits. */
  lemma WrappedDouble(last: nat)
    requires last <= 0xFF
    ensures last < 0xFF ==> (last + 1) % 0x100 == last + 1 && 2 * (last + 1) % 0x100 == Doubled(last + 1)
    ensures last == 0xFF ==> (last + 1) % 0x100 == 0
  {
  }

  /** The assigned numbers and sizes: each type parses exactly where the field
      before it holds its own number and its header is there. */
  lemma AssignedNumbers(e: Layer, b: seq<U8>)
    requires e.WellFormed(b) && (e.Ethernet? || e.IsIp())
    ensures e.Ethernet? ==>
              var at, room := e.PayloadOffset(b) - 2, |b| - e.PayloadOffset(b);
              && (TryParse(AsIpv4, e, b).Ok? <==> b[at] == 0x08 && b[at + 1] == 0x00 && room >= 20)
              && (TryParse(AsIpv6, e, b).Ok? <==> b[at] == 0x86 && b[at + 1] == 0xDD && room >= 40)
    ensures e.Ipv4? ==>
              var at, room := e.offset + 9, |b| - e.PayloadOffset(b);
              && (TryParse(AsIcmpv4, e, b).Ok? <==> b[at] == 1 && room >= 4)
              && (TryParse(AsTcp, e, b).Ok? <==> b[at] == 6 && room >= 20)
              && (TryParse(AsUdp, e, b).Ok? <==> b[at] == 17 && room >= 8)
    ensures e.IsIpv6() ==>
              var at, room := if e.Ipv6? then e.offset + 6 else e.offset, |b| - e.PayloadOffset(b);
              && at < |b|
              && (TryParse(AsTcp, e, b).Ok? <==> b[at] == 6 && room >= 20)
              && (TryParse(AsUdp, e, b).Ok? <==> b[at] == 17 && room >= 8)
              && (TryParse(AsRouting, e, b).Ok? ==> b[at] == 43 && room >= 24)
              && (TryParse(AsFragment, e, b).Ok? <==> b[at] == 44 && room >= 8)
              && (TryParse(AsIcmpv6, e, b).Ok? <==> b[at] == 58 && room >= 4)
  {
    if e.IsIpv6() && TryParse(AsRouting, e, b).Ok? {
      var l := TryParse(AsRouting, e, b).value;
      RoutingParsesIff(e, b, l);
    }
    hide ParseRouting;
  }

  lemma EthernetParsesIff(b: seq<U8>)
    ensures ParseEthernet(b).Ok? <==> Ethernet.WellFormed(b)
  {
  }

  /** The whole stack, parsed from the Ethernet header on. */
  ghost predicate Parses(l: Layer, b: seq<U8>)
  {
    if l.Ethernet? then ParseEthernet(b) == Ok(Ethernet)
    else
      && Untyped(l)
      && Parses(l.envelope, b)
      && 14 <= |b| && l.envelope.PayloadOffset(b) <= |b| && KindOf(l).Allows(l.envelope)
      && TryParse(KindOf(l), l.envelope, b) == Ok(l)
  }

  /** What parses meets what all operations on packets ask for. */
  lemma {:induction false} ParsedIsWellFormed(l: Layer, b: seq<U8>)
    requires Parses(l, b)
    ensures l.WellFormed(b)
  {
    if l.Ethernet? {
      EthernetParsesIff(b);
    } else {
      ParsedIsWellFormed(l.envelope, b);
      ParsesIff(KindOf(l), l.envelope, b, l);
    }
  }

  /** A stack that parses names the protocol that its checksum is computed for;
      over IPv6 that is the last of the chain of next headers. */
  lemma ChecksumProtocol(l: Layer, b: seq<U8>)
    requires Parses(l, b) && (l.Tcp? || l.Udp? || l.Icmpv6?)
    ensures 14 <= |b| && l.envelope.IsIp() && NameAt(l.envelope, b) < |b|
    ensures b[NameAt(l.envelope, b)] == l.Protocol()
    ensures l.envelope.IsIpv6() ==>
              l.envelope.WellFormed(b) &&
              var c := Chain(l.envelope, b);
              c[|c| - 1] == l.Protocol()
  {
    ParsedIsWellFormed(l, b);
    ParsesIff(KindOf(l), l.envelope, b, l);
    NameBefore(l.envelope, b);
  }

  lemma NameBefore(e: Layer, b: seq<U8>)
    requires e.IsIp() && e.WellFormed(b)
    ensures NameAt(e, b) < e.PayloadOffset(b) <= |b|
  {
  }

  // ---- pushing ----

  /** A frame of zeros, and so without VLAN tags, in front of anything parses. */
  lemma EthernetParses(b: seq<U8>)
    ensures Parses(Ethernet, Zeros(14) + b) && Ethernet.WellFormed(Zeros(14) + b)
    ensures (Zeros(14) + b)[Ethernet.PayloadOffset(Zeros(14) + b)..] == b
  {
  }

  method TryPushEthernet(m: Mbuf) returns (r: Result<Layer, BufferError>)
    requires m.Valid()
    modifies m, m.buf
    ensures m.Valid()
    ensures r.Ok? <==> 14 < old(m.Tailroom())
    ensures r.Ok? ==> r.value == Ethernet && m.Data() == Zeros(14) + old(m.Data())
    ensures r.Err? ==> m.Data() == old(m.Data())
  {
    ghost var b := m.Data();
    var written := Rewrite(m, 0, 0, Zeros(14));
    assert b[..0] + Zeros(14) + b[0..] == Zeros(14) + b;
    r := if written.Ok? then Ok(Ethernet) else Err(written.error);
  }

  ghost function PushedOn(k: Kind, e: Layer, b: seq<U8>): (r: seq<U8>)
    requires e.WellFormed(b) && k.Plain() && k.Allows(e)
    ensures |r| == |b| + k.Size()
  {
    var c := Inserted(b, e.PayloadOffset(b), k.Default());
    e.PrefixWellFormed(b, c);
    Named(e, c, k)
  }

  lemma NamedKeeps(k: Kind, e: Layer, b: seq<U8>)
    requires e.WellFormed(b) && k.Allows(e)
    ensures e.WellFormed(Named(e, b, k)) && e.PayloadOffset(Named(e, b, k)) == e.PayloadOffset(b)
    ensures Names(e, Named(e, b, k), k)
    ensures e.Start() <= NameAt(e, b) < e.PayloadOffset(b)
    ensures forall i | 0 <= i < |b| && (i < e.Start() || e.PayloadOffset(b) <= i) :: Named(e, b, k)[i] == b[i]
  {
    if e.IsIpv6() {
      NextHeaderFree(e, b, k.Code());
    } else if e.Ipv4? {
      e.envelope.PrefixWellFormed(b, Named(e, b, k));
    }
  }

  /** A stack still parses after a change inside its last header that leaves
      that one well formed. */
  lemma {:induction false} ParsesSame(l: Layer, b: seq<U8>, b': seq<U8>)
    requires Parses(l, b) && l.WellFormed(b') && |b| >= 14 && l.PayloadOffset(b') == l.PayloadOffset(b)
    requires l.Start() <= |b| && forall i | 0 <= i < l.Start() :: b'[i] == b[i]
    ensures Parses(l, b')
  {
    if !l.Ethernet? {
      ParsedIsWellFormed(l, b);
      l.envelope.PrefixWellFormed(b, b');
      ParsesSame(l.envelope, b, b');
      ParsesIff(KindOf(l), l.envelope, b, l);
      ParsesIff(KindOf(l), l.envelope, b', l);
    }
  }

  /** Pushing a header on a stack that parses gives one that does, with the new
      header on top and the same payload. */
  lemma PushParses(k: Kind, e: Layer, b: seq<U8>)
    requires Parses(e, b) && e.WellFormed(b) && k.Plain() && k.Allows(e)
    ensures var b', l := PushedOn(k, e, b), k.Over(e, e.PayloadOffset(b));
      && Parses(l, b') && l.WellFormed(b')
      && b'[l.PayloadOffset(b')..] == b[e.PayloadOffset(b)..]
  {
    var o := e.PayloadOffset(b);
    var c, b', l := Inserted(b, o, k.Default()), PushedOn(k, e, b), k.Over(e, o);
    e.PrefixWellFormed(b, c);
    NamedKeeps(k, e, c);
    ParsesSame(e, b, b');
    OverWellFormed(k, e, b');
    ParsesIff(k, e, b', l);
  }

  /** A pushed header gives its own version and length, and a hop limit of 64. */
  lemma DefaultFields(k: Kind, e: Layer, b: seq<U8>)
    requires e.WellFormed(b) && k.Plain() && k.Allows(e)
    ensures var r, o := PushedOn(k, e, b), e.PayloadOffset(b);
      && r[o..o + k.Size()] == k.Default()
      && (k.AsIpv4? ==> r[o] == 4 * 16 + 20 / 4 && r[o + 8] == 64)
      && (k.AsIpv6? ==> r[o] == 6 * 16 && r[o + 7] == 64)
      && (k.AsTcp? ==> r[o + 12] == 20 / 4 * 16)
  {
    var r, o := PushedOn(k, e, b), e.PayloadOffset(b);
    NamedInserted(k, e, b, k.Default());
    assert r == Inserted(Named(e, b, k), o, k.Default());
    hide Named, Layer.WellFormed, Layer.PayloadOffset;
    assert r[o..o + k.Size()] == k.Default();
    if k.AsIpv4? || k.AsIpv6? || k.AsTcp? {
      var i := if k.AsIpv4? then 8 else if k.AsIpv6? then 7 else 12;
      assert r[o] == r[o..o + k.Size()][0] && r[o + i] == r[o..o + k.Size()][i];
    }
  }

  /** So does pushing an extension header. */
  lemma PushExtParses(x: Ext, e: Layer, b: seq<U8>)
    requires Parses(e, b) && e.WellFormed(b) && e.IsIpv6()
    ensures NextHeaderAt(e) < e.PayloadOffset(b)
    ensures var b', l := Pushed(x, e, b), x.Over(e, e.PayloadOffset(b));
      && Parses(l, b') && l.WellFormed(b')
      && b'[l.PayloadOffset(b')..] == b[e.PayloadOffset(b)..]
  {
    PushKeeps(x, e, b);
    PushedBefore(x, e, b);
    var b', l := Pushed(x, e, b), x.Over(e, e.PayloadOffset(b));
    assert KindOf(l) == (if x.Route? then AsRouting else AsFragment) && KindOf(l).Code() == x.Code();
    assert e.PayloadOffset(b') == e.PayloadOffset(b);
    hide Pushed, Layer.WellFormed, Layer.PayloadOffset, TryParse, Ext.Code;
    ParsesSame(e, b, b');
    ParsesIff(KindOf(l), e, b', l);
  }

  // ---- whole stacks ----

  /** Headers that can be pushed on `e` one after the other. */
  ghost predicate Pushable(ks: seq<Kind>, e: Layer, b: seq<U8>)
    decreases |ks|
  {
    ks != [] ==>
      && e.WellFormed(b) && ks[0].Allows(e) && !ks[0].AsIcmpv4? && !ks[0].AsIcmpv6?
      && Pushable(ks[1..], ks[0].Over(e, e.PayloadOffset(b)), OnePushed(ks[0], e, b))
  }

  ghost function OnePushed(k: Kind, e: Layer, b: seq<U8>): seq<U8>
    requires e.WellFormed(b) && k.Allows(e) && !k.AsIcmpv4? && !k.AsIcmpv6?
  {
    if k.Plain() then PushedOn(k, e, b)
    else
      NextHeaderBefore(e, b);
      Pushed(if k.AsRouting? then Route else Frag, e, b)
  }

  ghost function StackPushed(ks: seq<Kind>, e: Layer, b: seq<U8>): (Layer, seq<U8>)
    requires Pushable(ks, e, b)
    decreases |ks|
  {
    if ks == [] then (e, b)
    else StackPushed(ks[1..], ks[0].Over(e, e.PayloadOffset(b)), OnePushed(ks[0], e, b))
  }

  lemma OnePushParses(k: Kind, e: Layer, b: seq<U8>)
    requires Parses(e, b) && e.WellFormed(b) && k.Allows(e) && !k.AsIcmpv4? && !k.AsIcmpv6?
    ensures var b', l := OnePushed(k, e, b), k.Over(e, e.PayloadOffset(b));
      && Parses(l, b') && l.WellFormed(b')
      && b'[l.PayloadOffset(b')..] == b[e.PayloadOffset(b)..]
  {
    if k.Plain() {
      PushParses(k, e, b);
    } else {
      PushExtParses(if k.AsRouting? then Route else Frag, e, b);
    }
  }

  /** Round trip: whatever headers are pushed, parsing the packet from the
      start finds exactly those, over the payload that was there before. */
  lemma {:induction false} StackRoundTrip(ks: seq<Kind>, e: Layer, b: seq<U8>)
    requires Parses(e, b) && Pushable(ks, e, b)
    ensures var (l, b') := StackPushed(ks, e, b);
      && Parses(l, b') && l.WellFormed(b')
      && b'[l.PayloadOffset(b')..] == b[e.PayloadOffset(b)..]
    decreases |ks|
  {
    ParsedIsWellFormed(e, b);
    hide Parses, Layer.WellFormed, OnePushed;
    if ks != [] {
      OnePushParses(ks[0], e, b);
      StackRoundTrip(ks[1..], ks[0].Over(e, e.PayloadOffset(b)), OnePushed(ks[0], e, b));
    }
  }

  // ---- removing ----

  lemma NamedSame(k: Kind, e: Layer, b: seq<U8>)
    requires e.WellFormed(b) && k.Allows(e)
    ensures Named(e, b, k) == b <==> Names(e, b, k)
  {
    NamedKeeps(k, e, b);
    if e.Ethernet? {
      PutSame(b, NameAt(e, b), k.EtherType());
    }
  }

  lemma PutInserted(b: seq<U8>, o: nat, h: seq<U8>, at: nat, v: U16)
    requires at + 2 <= o <= |b|
    ensures Put16(Inserted(b, o, h), at, v) == Inserted(Put16(b, at, v), o, h)
  {
    PutBytes(b, at, v);
    PutBytes(Inserted(b, o, h), at, v);
  }

  lemma NamedInserted(k: Kind, e: Layer, b: seq<U8>, h: seq<U8>)
    requires e.WellFormed(b) && k.Allows(e)
    ensures var c := Inserted(b, e.PayloadOffset(b), h);
      && e.WellFormed(c) && e.PayloadOffset(c) == e.PayloadOffset(b)
      && Named(e, c, k) == Inserted(Named(e, b, k), e.PayloadOffset(b), h)
  {
    hide Inserted, Put16;
    var o := e.PayloadOffset(b);
    InsertedPrefix(b, o, h);
    e.PrefixWellFormed(b, Inserted(b, o, h));
    NamedKeeps(k, e, b);
    if e.Ethernet? {
      PutInserted(b, o, h, NameAt(e, b), k.EtherType());
    } else {
      ByteInserted(b, o, h, NameAt(e, b), k.Code());
    }
  }

  lemma InsertedPrefix(b: seq<U8>, o: nat, h: seq<U8>)
    requires o <= |b|
    ensures forall i | 0 <= i < o :: Inserted(b, o, h)[i] == b[i]
  {
  }

  lemma ByteInserted(b: seq<U8>, o: nat, h: seq<U8>, at: nat, v: U8)
    requires at < o <= |b|
    ensures Inserted(b, o, h)[at := v] == Inserted(b[at := v], o, h)
  {
  }

  /** Taking a pushed header out again leaves the old packet, but for what the
      envelope says follows: nothing changes exactly if it said so before. */
  lemma RemoveUndoesPlainPush(k: Kind, e: Layer, b: seq<U8>)
    requires e.WellFormed(b) && k.Plain() && k.Allows(e)
    ensures e.PayloadOffset(b) + k.Size() <= |PushedOn(k, e, b)|
    ensures Removed(PushedOn(k, e, b), e.PayloadOffset(b), k.Size()) == Named(e, b, k)
    ensures Named(e, b, k) == b <==> Names(e, b, k)
  {
    NamedInserted(k, e, b, k.Default());
    NamedSame(k, e, b);
    RemovedInserted(Named(e, b, k), e.PayloadOffset(b), k.Default());
    hide Named, Names, Inserted, Removed, Layer.WellFormed, Layer.PayloadOffset, Kind.Default;
  }

  // ---- reconciling ----

  lemma NameOutsideIp(e: Layer, b: seq<U8>)
    requires e.IsIp() && e.WellFormed(b)
    ensures NameAt(e, b) < e.PayloadOffset(b) && !IpField(e.Ip(), NameAt(e, b))
  {
    if !e.Ipv4? && !e.Ipv6? {
      IpWellFormed(e.envelope, b);
    }
  }

  /** The header above an IP or extension header still parses after a change of
      what reconciling the IP header may change. */
  lemma AboveIpParses(l: Layer, b: seq<U8>, b': seq<U8>)
    requires !l.Ethernet? && l.envelope.IsIp() && Parses(l, b) && l.WellFormed(b) && |b'| == |b|
    requires forall i | 0 <= i < |b| && !IpField(l.envelope.Ip(), i) :: b'[i] == b[i]
    requires Parses(l.envelope, b') && l.WellFormed(b')
    ensures Parses(l, b')
  {
    NameOutsideIp(l.envelope, b);
    IpFieldsApart(l.envelope, b, b');
    var k := KindOf(l);
    assert NameAt(l.envelope, b') == NameAt(l.envelope, b);
    assert Names(l.envelope, b', k) == Names(l.envelope, b, k);
    hide Layer.WellFormed, TryParse, Names;
    ParsesIff(k, l.envelope, b, l);
    ParsesIff(k, l.envelope, b', l);
  }

  /** Reconciling the IP header touches no name and no list length. */
  lemma {:induction false} ParsesAfterIp(l: Layer, b: seq<U8>, b': seq<U8>)
    requires l.IsIp() && Parses(l, b) && l.WellFormed(b) && |b'| == |b|
    requires forall i | 0 <= i < |b| && !IpField(l.Ip(), i) :: b'[i] == b[i]
    ensures Parses(l, b') && l.WellFormed(b')
  {
    IpFieldsApart(l, b, b');
    if l.Ipv4? || l.Ipv6? {
      ParsesSame(l, b, b');
    } else {
      ParsesAfterIp(l.envelope, b, b');
      AboveIpParses(l, b, b');
    }
  }

  /** A reconciled packet parses as the same stack of headers, also one whose
      message was cut. */
  lemma ReconciledParses(l: Layer, b: seq<U8>)
    requires Parses(Base(l), b) && l.WellFormed(b) && |b| <= 0xFFFF
    ensures AfterReconcileAll(l, b).Some? ==> Parses(Base(l), AfterReconcileAll(l, b).value)
  {
    ReturnsIff(l, b);
    hide *;
    if l.Fits(b) {
      FittingParses(l, b);
    }
  }

  lemma FittingParses(l: Layer, b: seq<U8>)
    requires Parses(Base(l), b) && l.WellFormed(b) && l.Fits(b) && |b| <= 0xFFFF
    ensures Parses(Base(l), AllReconciled(l, b))
  {
    if l.IsIp() {
      IpReconciledParses(l, b);
    } else if !l.Ethernet? {
      TransportReconciledParses(l, b);
    }
  }

  lemma TransportReconciledParses(l: Layer, b: seq<U8>)
    requires l.IsTransport() && Parses(Base(l), b) && l.WellFormed(b) && l.Fits(b) && |b| <= 0xFFFF
    ensures Parses(Base(l), AllReconciled(l, b))
  {
    Outermost(l, b);
    hide *;
    ReconciledAbove(l, b);
    SamePrefix(b, l.Reconciled(b), l.offset);
    ParsesSame(Base(l), b, l.Reconciled(b));
    EnvelopeReconciledParses(Base(l), l.Reconciled(b));
  }

  lemma EnvelopeReconciledParses(l: Layer, t: seq<U8>)
    requires l.IsTransport() && Parses(l, t) && l.WellFormed(t) && |t| <= 0xFFFF
    ensures !l.Ethernet? && l.envelope.IsIp() && l.envelope.WellFormed(t) && l.envelope.Fits(t)
    ensures Parses(l, AllReconciled(l.envelope, t))
  {
    Bounds(l, t);
    assert Parses(l.envelope, t);
    IpWellFormed(l.envelope, t);
    hide *;
    var e := l.envelope;
    OuterKeepsView(l, t);
    IpReconciledChanges(e.Ip(), t);
    ParsesAfterIp(e, t, e.Ip().Reconciled(t));
    AboveIpParses(l, t, e.Ip().Reconciled(t));
    ChainReconciled(e, t);
  }

  lemma SamePrefix(b: seq<U8>, b': seq<U8>, n: nat)
    requires n <= |b| && n <= |b'| && b'[..n] == b[..n]
    ensures forall i | 0 <= i < n :: b'[i] == b[i]
  {
    forall i | 0 <= i < n ensures b'[i] == b[i] {
      assert b'[..n][i] == b[..n][i];
    }
  }

  lemma Outermost(l: Layer, b: seq<U8>)
    requires l.IsTransport() && l.WellFormed(b) && Parses(Base(l), b) && l.Fits(b) && |b| <= 0xFFFF
    ensures Base(l).IsTransport() && !l.Ethernet? && !Base(l).Ethernet? && Base(l).envelope == l.envelope
    ensures Base(l).Start() == l.offset <= |b| && 14 <= |b|
    ensures |l.Reconciled(b)| <= 0xFFFF && l.WellFormed(l.Reconciled(b)) && l.envelope.WellFormed(l.Reconciled(b))
    ensures Base(l).WellFormed(l.Reconciled(b))
    ensures Base(l).PayloadOffset(l.Reconciled(b)) == Base(l).PayloadOffset(b)
    ensures l.envelope.Fits(l.Reconciled(b))
    ensures AllReconciled(l, b) == AllReconciled(l.envelope, l.Reconciled(b))
  {
    Bounds(l, b);
    ReconciledKeeps(l, b);
    hide Layer.Reconciled;
  }

  lemma IpReconciledParses(e: Layer, b: seq<U8>)
    requires e.IsIp() && Parses(e, b) && e.WellFormed(b) && |b| <= 0xFFFF
    ensures e.Fits(b) && Parses(e, AllReconciled(e, b))
  {
    IpWellFormed(e, b);
    ChainReconciled(e, b);
    IpReconciledChanges(e.Ip(), b);
    ParsesAfterIp(e, b, e.Ip().Reconciled(b));
  }

  /** The bytes before the header stay. */
  lemma ReconciledAbove(l: Layer, b: seq<U8>)
    requires l.IsTransport() && l.WellFormed(b) && l.Fits(b) && |b| <= 0xFFFF
    ensures var r := l.Reconciled(b);
      |r| == |l.Cut(b)| <= |b| && l.offset <= |r| && r[..l.offset] == b[..l.offset]
  {
    if l.Udp? {
      UdpAbove(l, b);
    } else {
      l.CutWellFormed(b);
      hide Layer.WellFormed, Layer.Checksummed;
      ChecksumAbove(l, l.Cut(b));
    }
  }

  lemma UdpAbove(l: Layer, b: seq<U8>)
    requires l.Udp? && l.WellFormed(b) && |b| <= 0xFFFF
    ensures var r := l.Reconciled(b);
      |r| == |b| && l.offset <= |r| && r[..l.offset] == b[..l.offset]
  {
    Bounds(l, b);
    hide Layer.WellFormed, Layer.Checksummed, Put16;
    l.LengthKeeps(b, l.offset + 4, |b| - l.offset);
    PutAbove(b, l.offset, 4, |b| - l.offset);
    ChecksumAbove(l, Put16(b, l.offset + 4, |b| - l.offset));
  }

  lemma ChecksumAbove(l: Layer, c: seq<U8>)
    requires l.IsTransport() && l.WellFormed(c) && |c| <= 0xFFFF
    ensures l.offset <= |c| && l.Checksummed(c)[..l.offset] == c[..l.offset]
  {
    Bounds(l, c);
    ChecksummedIsPut(l, c);
    PutAbove(c, l.offset, l.ChecksumField(), l.Value(c));
  }

  lemma PutAbove(b: seq<U8>, o: nat, at: nat, v: U16)
    requires o + at + 2 <= |b|
    ensures Put16(b, o + at, v)[..o] == b[..o]
  {
  }

  // ---- messages that reconciling cuts ----

  /** A message is known by the type in its header, and has a fixed body. */
  datatype Message = PacketTooBig | TimeExceeded6 | TimeExceeded4 | Redirect4
  {
    predicate Over(l: Layer) {
      if TimeExceeded4? || Redirect4? then l.Icmpv4? else l.Icmpv6?
    }

    function Type(): U8 {
      match this
      case PacketTooBig => 2
      case TimeExceeded6 => 3
      case TimeExceeded4 => 11
      case Redirect4 => 5
    }

    /** `downcast`: the type matches, and the body of four octets can be read. */
    predicate Downcasts(l: Layer, b: seq<U8>)
      requires Over(l)
    {
      l.offset + 8 <= |b| && b[l.offset] == Type()
    }
  }

  /** A message on which reconciling returns is still one of its type, with its
      whole body. */
  lemma ReconciledDowncasts(k: Message, l: Layer, b: seq<U8>)
    requires k.Over(l) && l.truncating
    requires Parses(Base(l), b) && k.Downcasts(l, b) && l.WellFormed(b) && |b| <= 0xFFFF
    ensures AfterReconcileAll(l, b).Some? ==>
              var r := AfterReconcileAll(l, b).value;
              Parses(Base(l), r) && k.Downcasts(l, r)
  {
    ReturnsIff(l, b);
    ReconciledParses(l, b);
    if l.Fits(b) {
      CutLeavesHeader(l, b);
      TypeKept(l, b);
    }
    hide Parses, Layer.WellFormed, AllReconciled, AfterReconcileAll;
  }

  /** An untagged frame that says so holds an IPv6 header. */
  lemma PlainIpv6Parses(b: seq<U8>)
    requires 54 <= |b| && b[12] == 0x86 && b[13] == 0xDD
    ensures var ip := Ipv6(Ethernet, 14);
      Parses(ip, b) && ip.WellFormed(b) && ip.PayloadOffset(b) == 54
  {
    assert Get16(b, 12) == ETHER_IPV6;
    assert Parses(Ethernet, b) && Ethernet.PayloadOffset(b) == 14;
    assert TryParse(AsIpv6, Ethernet, b) == Ok(Ipv6(Ethernet, 14));
  }

  /** A received packet on which reconciling panics: a Packet Too Big message
      beneath a list of 77 segments, which take all of the minimum MTU. */
  lemma CutOffReceived() returns (l: Layer, b: seq<U8>)
    ensures l == Icmpv6(SegmentRouting(Ipv6(Ethernet, 14), 54, 77), 1294, true) && |b| == 1302
    ensures l.WellFormed(b) && Parses(Base(l), b) && PacketTooBig.Downcasts(l, b)
    ensures AfterReconcileAll(l, b) == None
  {
    var ip, route := Ipv6(Ethernet, 14), SegmentRouting(Ipv6(Ethernet, 14), 54, 77);
    l := Icmpv6(route, 1294, true);
    b := Zeros(1302)[12 := 0x86][13 := 0xDD][20 := IPV6_ROUTE][54 := ICMPV6][55 := 154][58 := 76][1294 := 2];
    PlainIpv6Parses(b);
    assert Doubled(77) == 154;
    assert route.WellFormed(b) && Names(ip, b, AsRouting);
    ParsesIff(AsRouting, ip, b, route);
    assert Parses(route, b) && route.PayloadOffset(b) == 1294;
    assert TryParse(AsIcmpv6, route, b) == Ok(Base(l)) && Parses(Base(l), b);
    assert l.WellFormed(b);
    assert ip.ExtUnits() == 0 && route.ExtUnits() == 155;
    ReturnsIff(l, b);
  }

  lemma TypeKept(l: Layer, b: seq<U8>)
    requires (l.Icmpv4? || l.Icmpv6?) && l.WellFormed(b) && l.Fits(b) && |b| <= 0xFFFF
    ensures |AllReconciled(l, b)| == |l.Cut(b)|
    ensures l.offset < |b| && l.offset < |l.Cut(b)| && AllReconciled(l, b)[l.offset] == b[l.offset]
  {
    hide Layer.Reconciled;
    Bounds(l, b);
    ReconciledKeeps(l, b);
    ReconciledAbove(l, b);
    ReconciledType(l, b);
    var t := l.Reconciled(b);
    IpWellFormed(l.envelope, t);
    ChainReconciled(l.envelope, t);
    OuterKeepsView(l, t);
    IpReconciledChanges(l.envelope.Ip(), t);
  }

  lemma ReconciledType(l: Layer, b: seq<U8>)
    requires (l.Icmpv4? || l.Icmpv6?) && l.WellFormed(b) && l.Fits(b) && |b| <= 0xFFFF
    ensures l.offset + 4 <= |b| && l.offset < |l.Reconciled(b)| && l.Reconciled(b)[l.offset] == b[l.offset]
  {
    l.CutWellFormed(b);
    var c := l.Cut(b);
    Bounds(l, c);
    ChecksummedIsPut(l, c);
    PutOther(c, l.offset + 2, l.Value(c));
    hide Layer.Checksummed, Layer.Value, Put16;
  }

  // ---- the operations on the buffer ----

  method SetName(k: Kind, e: Layer, m: Mbuf)
    requires m.Valid() && e.WellFormed(m.Data()) && k.Allows(e)
    modifies m.buf
    ensures m.Valid() && m.Data() == Named(e, old(m.Data()), k)
  {
    NamedKeeps(k, e, m.Data());
    if e.Ethernet? {
      var len := ReadHeaderLen(e, m);
      m.Set16(len - 2, k.EtherType());
    } else if e.Ipv4? {
      m.Set8(e.offset + 9, k.Code());
    } else {
      m.Set8(NextHeaderAt(e), k.Code());
    }
  }

  method TryPushPlain(k: Kind, e: Layer, m: Mbuf) returns (r: Result<Layer, BufferError>)
    requires m.Valid() && e.WellFormed(m.Data()) && k.Plain() && k.Allows(e)
    modifies m, m.buf
    ensures m.Valid()
    ensures r.Ok? <==> k.Size() < old(m.Tailroom())
    ensures r.Ok? ==> r.value == k.Over(e, e.PayloadOffset(old(m.Data()))) && m.Data() == PushedOn(k, e, old(m.Data()))
    ensures r.Err? ==> m.Data() == old(m.Data())
  {
    hide *;
    PlainPushed(k, e, m.Data());
    var len := ReadHeaderLen(e, m);
    r := PushPlainAt(k, e, m, e.Start() + len);
  }

  method PushPlainAt(k: Kind, e: Layer, m: Mbuf, offset: nat) returns (r: Result<Layer, BufferError>)
    requires m.Valid() && e.WellFormed(m.Data()) && k.Plain() && k.Allows(e)
    requires 14 <= |m.Data()| && offset == e.PayloadOffset(m.Data()) <= |m.Data()|
    modifies m, m.buf
    ensures m.Valid()
    ensures r.Ok? <==> k.Size() < old(m.Tailroom())
    ensures r.Ok? ==> r.value == k.Over(e, offset) && m.Data() == PushedOn(k, e, old(m.Data()))
    ensures r.Err? ==> m.Data() == old(m.Data())
  {
    hide *;
    PlainPushed(k, e, m.Data());
    var written := Rewrite(m, offset, 0, k.Default());
    if written.Err? {
      r := Err(written.error);
    } else {
      SetName(k, e, m);
      r := Ok(k.Over(e, offset));
    }
  }

  lemma PlainPushed(k: Kind, e: Layer, b: seq<U8>)
    requires e.WellFormed(b) && k.Plain() && k.Allows(e)
    ensures 14 <= |b| && e.PayloadOffset(b) <= |b| && e.Start() + e.HeaderLen(b) == e.PayloadOffset(b)
    ensures k.Size() > 0
    ensures var o := e.PayloadOffset(b);
      var c := b[..o] + k.Default() + b[o..];
      e.WellFormed(c) && 14 <= |c| && e.PayloadOffset(c) <= |c| && Named(e, c, k) == PushedOn(k, e, b)
  {
    var o := e.PayloadOffset(b);
    assert b[..o] + k.Default() + b[o..] == Inserted(b, o, k.Default());
    e.PrefixWellFormed(b, Inserted(b, o, k.Default()));
  }

  /** `remove` of a header that needs no fixing up. */
  method RemovePlain(l: Layer, m: Mbuf) returns (r: Result<Layer, BufferError>)
    requires m.Valid() && !l.Ethernet? && l.WellFormed(m.Data())
    modifies m, m.buf
    ensures m.Valid() && r == Ok(l.envelope)
    ensures m.Data() == Removed(old(m.Data()), l.offset, l.HeaderLen(old(m.Data())))
  {
    var len := ReadHeaderLen(l, m);
    var _ := m.Shrink(l.offset, len);
    r := Ok(l.envelope);
  }

  /** Refused, like any empty change, when there is no payload. */
  method RemovePayload(l: Layer, m: Mbuf) returns (r: Result<(), BufferError>)
    requires m.Valid() && l.WellFormed(m.Data())
    modifies m, m.buf
    ensures m.Valid() && l.WellFormed(m.Data())
    ensures r.Ok? <==> l.PayloadOffset(old(m.Data())) < |old(m.Data())|
    ensures m.Data() == old(m.Data())[..l.PayloadOffset(old(m.Data()))]
  {
    ghost var b := m.Data();
    var len := ReadHeaderLen(l, m);
    var offset := l.Start() + len;
    r := m.Shrink(offset, m.dataLen - offset);
    assert m.Data() == b[..offset];
    l.PrefixWellFormed(b, m.Data());
  }
}
