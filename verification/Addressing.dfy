/** Changing an IP address under a TCP or UDP header, with the checksum
    updated incrementally (capsule/src/packets/{tcp,udp}.rs). */
module Addressing {
  import opened Bytes
  import opened Wrappers
  import opened Checksums
  import opened Mbufs
  import opened Layers
  import opened Reconciling
  import opened ExtHeaders
  import opened Packets

  datatype Which = Source | Destination

  ghost function AddrOf(w: Which, e: Layer, b: seq<U8>): (a: IpAddr)
    requires e.IsIp() && e.WellFormed(b)
    ensures a.Valid() && a.V4? == e.Ipv4?
  {
    if w.Source? then e.Src(b) else e.Dst(b)
  }

  /** The bytes that hold the addresses of the headers of `e`. */
  ghost predicate AddrByte(e: Layer, i: int) {
    match e
    case Ipv4(_, o) => o + 12 <= i < o + 20
    case Ipv6(_, o) => o + 8 <= i < o + 40
    case SegmentRouting(env, o, _) => o + 8 <= i < o + 24 || AddrByte(env, i)
    case Fragment(env, _) => AddrByte(env, i)
    case _ => false
  }

  lemma {:induction false} AddrByteFree(e: Layer, b: seq<U8>, i: nat)
    requires e.IsIp() && e.WellFormed(b) && AddrByte(e, i)
    ensures i < e.PayloadOffset(b) && !e.Structural(i)
  {
    if e.Structural(i) {
      e.StructuralBefore(b, i);
    }
    if !e.Ipv4? && !e.Ipv6? {
      if AddrByte(e.envelope, i) {
        AddrByteFree(e.envelope, b, i);
      } else if e.envelope.Structural(i) {
        e.envelope.StructuralBefore(b, i);
      }
    } else if e.envelope.Structural(i) {
      e.envelope.StructuralBefore(b, i);
    }
  }

  lemma AddrBytesKeep(e: Layer, b: seq<U8>, b': seq<U8>)
    requires e.IsIp() && e.WellFormed(b) && |b'| == |b|
    requires forall i | 0 <= i < |b| && !AddrByte(e, i) :: b'[i] == b[i]
    ensures e.WellFormed(b') && e.PayloadOffset(b') == e.PayloadOffset(b)
    ensures forall i | e.PayloadOffset(b) <= i < |b| :: b'[i] == b[i]
  {
    forall i: nat | i < |b| && AddrByte(e, i) ensures i < e.PayloadOffset(b) && !e.Structural(i) {
      AddrByteFree(e, b, i);
    }
    e.KeepsWellFormed(b, b');
  }

  /** `set_src` and `set_dst`: a segment routing header puts the destination
      first in its list, and passes it on when no segments are left. */
  ghost function WithAddr(w: Which, e: Layer, b: seq<U8>, ip: IpAddr): (r: seq<U8>)
    requires e.IsIp() && e.WellFormed(b) && ip.Valid() && ip.V4? == e.Ipv4?
    ensures |r| == |b|
    ensures forall i | 0 <= i < |b| && !AddrByte(e, i) :: r[i] == b[i]
    decreases e
  {
    match e
    case Ipv4(_, o) => Splice(b, if w.Source? then o + 12 else o + 16, ip.octets4)
    case Ipv6(_, o) => Splice(b, if w.Source? then o + 8 else o + 24, ip.octets6)
    case Fragment(env, _) => WithAddr(w, env, b, ip)
    case SegmentRouting(env, o, _) =>
      if w.Source? then WithAddr(w, env, b, ip)
      else
        var listed := Splice(b, o + 8, ip.octets6);
        AddrBytesKeep(e, b, listed);
        if listed[o + 3] == 0 then WithAddr(w, env, listed, ip) else listed
  }

  /** Addresses depend on the address bytes alone. */
  lemma {:induction false} AddrsSame(e: Layer, b: seq<U8>, b': seq<U8>)
    requires e.IsIp() && e.WellFormed(b) && e.WellFormed(b')
    requires |b| == |b'| && forall i | 0 <= i < |b| && AddrByte(e, i) :: b'[i] == b[i]
    ensures e.Src(b') == e.Src(b) && e.Dst(b') == e.Dst(b)
  {
    if !e.Ipv4? && !e.Ipv6? {
      AddrsSame(e.envelope, b, b');
    }
  }

  lemma SrcSame(e: Layer, b: seq<U8>, b': seq<U8>)
    requires e.SegmentRouting? && e.WellFormed(b) && e.WellFormed(b') && |b'| == |b|
    requires forall i | 0 <= i < e.offset :: b'[i] == b[i]
    ensures e.Src(b') == e.Src(b)
  {
    forall i: nat | i < |b| && AddrByte(e.envelope, i) ensures b'[i] == b[i] {
      AddrByteFree(e.envelope, b, i);
    }
    AddrsSame(e.envelope, b, b');
  }

  /** The one address is what was asked for, the other one is untouched. */
  ghost predicate AddrSet(w: Which, e: Layer, b: seq<U8>, r: seq<U8>, ip: IpAddr)
    requires e.IsIp() && e.WellFormed(b)
  {
    && e.WellFormed(r)
    && e.Src(r) == (if w.Source? then ip else e.Src(b))
    && e.Dst(r) == (if w.Source? then e.Dst(b) else ip)
  }

  lemma {:induction false} WithAddrSets(w: Which, e: Layer, b: seq<U8>, ip: IpAddr)
    requires e.IsIp() && e.WellFormed(b) && ip.Valid() && ip.V4? == e.Ipv4?
    ensures AddrSet(w, e, b, WithAddr(w, e, b, ip), ip)
    decreases e, 1
  {
    match e
    case Ipv4(_, _) => OwnAddrSets(w, e, b, ip);
    case Ipv6(_, _) => OwnAddrSets(w, e, b, ip);
    case Fragment(env, _) =>
      AddrBytesKeep(e, b, WithAddr(w, env, b, ip));
      WithAddrSets(w, env, b, ip);
    case SegmentRouting(_, _, _) =>
      if w.Source? {
        RoutingSrcSets(e, b, ip);
      } else {
        RoutingDstSets(e, b, ip);
      }
  }

  lemma OwnAddrSets(w: Which, e: Layer, b: seq<U8>, ip: IpAddr)
    requires (e.Ipv4? || e.Ipv6?) && e.WellFormed(b) && ip.Valid() && ip.V4? == e.Ipv4?
    ensures AddrSet(w, e, b, WithAddr(w, e, b, ip), ip)
  {
    AddrBytesKeep(e, b, WithAddr(w, e, b, ip));
  }

  lemma {:induction false} RoutingSrcSets(e: Layer, b: seq<U8>, ip: IpAddr)
    requires e.SegmentRouting? && e.WellFormed(b) && ip.Valid() && !ip.V4?
    ensures AddrSet(Source, e, b, WithAddr(Source, e, b, ip), ip)
    decreases e, 0
  {
    var r := WithAddr(Source, e.envelope, b, ip);
    AddrBytesKeep(e, b, r);
    WithAddrSets(Source, e.envelope, b, ip);
    ListUntouched(e, b, r);
  }

  lemma {:induction false} RoutingDstSets(e: Layer, b: seq<U8>, ip: IpAddr)
    requires e.SegmentRouting? && e.WellFormed(b) && ip.Valid() && !ip.V4?
    ensures AddrSet(Destination, e, b, WithAddr(Destination, e, b, ip), ip)
    decreases e, 0
  {
    var listed := Splice(b, e.offset + 8, ip.octets6);
    AddrBytesKeep(e, b, listed);
    SrcSame(e, b, listed);
    AddrBytesKeep(e, b, WithAddr(Destination, e, b, ip));
    if listed[e.offset + 3] == 0 {
      WithAddrSets(Destination, e.envelope, listed, ip);
      hide Splice;
      ListUntouched(e, listed, WithAddr(Destination, e.envelope, listed, ip));
    }
  }

  /** Under a segment list a new destination reaches the envelope exactly if no
      segments are left; otherwise the envelope keeps its own. */
  lemma EnvelopeFollows(e: Layer, b: seq<U8>, ip: IpAddr)
    requires e.SegmentRouting? && e.WellFormed(b) && ip.Valid() && !ip.V4?
    ensures var r := WithAddr(Destination, e, b, ip);
      && e.envelope.IsIpv6() && e.envelope.WellFormed(b) && e.envelope.WellFormed(r)
      && e.envelope.Dst(r) == (if b[e.offset + 3] == 0 then ip else e.envelope.Dst(b))
  {
    var listed := Splice(b, e.offset + 8, ip.octets6);
    AddrBytesKeep(e, b, listed);
    AddrBytesKeep(e, b, WithAddr(Destination, e, b, ip));
    assert listed[e.offset + 3] == b[e.offset + 3];
    if listed[e.offset + 3] == 0 {
      WithAddrSets(Destination, e.envelope, listed, ip);
    } else {
      BeforeList(e, b, listed);
    }
  }

  lemma BeforeList(e: Layer, b: seq<U8>, b': seq<U8>)
    requires e.SegmentRouting? && e.WellFormed(b) && e.WellFormed(b') && |b'| == |b|
    requires forall i | 0 <= i < e.offset :: b'[i] == b[i]
    ensures e.envelope.Dst(b') == e.envelope.Dst(b)
  {
    forall i: nat | i < |b| && AddrByte(e.envelope, i) ensures b'[i] == b[i] {
      AddrByteFree(e.envelope, b, i);
    }
    AddrsSame(e.envelope, b, b');
  }

  lemma ListUntouched(e: Layer, b: seq<U8>, r: seq<U8>)
    requires e.SegmentRouting? && e.WellFormed(b) && |r| == |b|
    requires forall i | 0 <= i < |b| && !AddrByte(e.envelope, i) :: r[i] == b[i]
    ensures r[e.offset + 8..e.offset + 24] == b[e.offset + 8..e.offset + 24]
  {
    forall i: nat | i < |b| && AddrByte(e.envelope, i) ensures i < e.offset {
      AddrByteFree(e.envelope, b, i);
    }
  }

  // ---- the checksum after the change ----

  ghost predicate HasPorts(l: Layer) {
    l.Tcp? || l.Udp?
  }

  function At(l: Layer): nat
    requires HasPorts(l)
  {
    l.offset + l.ChecksumField()
  }

  /** All ones stand for zero in a UDP checksum. */
  function Stored(l: Layer, c: U16): U16 {
    if l.Udp? && c == 0 then 0xFFFF else c
  }

  /** `set_src_ip` and `set_dst_ip`. */
  ghost function Readdressed(w: Which, l: Layer, b: seq<U8>, ip: IpAddr): Result<seq<U8>, AddrError>
    requires HasPorts(l) && l.WellFormed(b) && ip.Valid()
  {
    Bounds(l, b);
    match ComputeWithIpAddr(Get16(b, At(l)), AddrOf(w, l.envelope, b), ip)
    case Err(e) => Err(e)
    case Ok(c) => Ok(Put16(WithAddr(w, l.envelope, b, ip), At(l), Stored(l, c)))
  }

  /** What the checksum covers, with its own field cleared. */
  ghost function Total(l: Layer, b: seq<U8>): nat
    requires HasPorts(l) && l.WellFormed(b) && |b| <= 0xFFFF
  {
    Bounds(l, b);
    l.PseudoTotal(b) + WordSum(Put16(b, At(l), 0)[l.offset..])
  }

  lemma ValueIsStored(l: Layer, b: seq<U8>)
    requires HasPorts(l) && l.WellFormed(b) && |b| <= 0xFFFF
    ensures l.Value(b) == Stored(l, Not(Fold(Total(l, b)))) && Total(l, b) > 0
  {
    Bounds(l, b);
    hide *;
    var c := Not(Fold(Total(l, b)));
    TotalIsSum(l, b);
    ValueIsChecksum(l, b);
    StoredAs(l, c);
  }

  lemma ValueIsChecksum(l: Layer, b: seq<U8>)
    requires HasPorts(l) && l.WellFormed(b) && |b| <= 0xFFFF
    ensures l.offset <= At(l) && At(l) + 2 <= |b|
    ensures var c := Checksum(l.PseudoTotal(b), Put16(b, At(l), 0)[l.offset..]);
      l.Value(b) == if l.Udp? && c == 0 then 0xFFFF else c
  {
    Bounds(l, b);
    hide Layer.WellFormed, Layer.PseudoTotal, Checksum, Put16;
  }

  lemma TotalIsSum(l: Layer, b: seq<U8>)
    requires HasPorts(l) && l.WellFormed(b) && |b| <= 0xFFFF
    ensures l.offset <= At(l) && At(l) + 2 <= |b| && Total(l, b) > 0
    ensures Checksum(l.PseudoTotal(b), Put16(b, At(l), 0)[l.offset..]) == Not(Fold(Total(l, b)))
  {
    Bounds(l, b);
    ProtocolCounts(l, b);
    hide Layer.WellFormed, Layer.PseudoTotal, WordSum, Fold, Not, Put16;
  }

  lemma StoredAs(l: Layer, c: U16)
    ensures Stored(l, c) == if l.Udp? && c == 0 then 0xFFFF else c
  {
  }

  lemma ProtocolCounts(l: Layer, b: seq<U8>)
    requires HasPorts(l) && l.WellFormed(b) && |b| <= 0xFFFF
    ensures l.PseudoTotal(b) > 0
    ensures WordSum(l.envelope.Src(b).Octets()) + WordSum(l.envelope.Dst(b).Octets()) <= l.PseudoTotal(b)
  {
    Bounds(l, b);
    hide Layer.WellFormed, Layer.Src, Layer.Dst, WordSum;
  }

  lemma VerifiesByTotal(l: Layer, b: seq<U8>)
    requires HasPorts(l) && l.WellFormed(b) && |b| <= 0xFFFF
    ensures At(l) + 2 <= |b|
    ensures l.Verifies(b) <==> Congruent(Get16(b, At(l)), Not(Fold(Total(l, b))))
  {
    Bounds(l, b);
    ValueIsStored(l, b);
    TailField(b, l.offset, l.ChecksumField());
    hide Layer.WellFormed, Layer.PseudoTotal, Layer.Value, WordSum, Fold, Put16, Get16;
    var tail, f, v := b[l.offset..], l.ChecksumField(), Get16(b, At(l));
    PutPut(tail, f, 0, v);
    PutSame(tail, f, v);
    VerifiesIff(l.PseudoTotal(b), Put16(tail, f, 0), f, v);
  }

  /** The sum moves by the difference of the addresses, and by nothing else. */
  lemma TotalMoves(w: Which, l: Layer, b: seq<U8>, ip: IpAddr, v: U16)
    requires HasPorts(l) && l.WellFormed(b) && |b| <= 0xFFFF && ip.Valid() && ip.V4? == l.envelope.Ipv4?
    ensures At(l) + 2 <= |b|
    ensures var r := Put16(WithAddr(w, l.envelope, b, ip), At(l), v);
      && l.WellFormed(r)
      && Total(l, r) == Total(l, b) - WordSum(AddrOf(w, l.envelope, b).Octets()) + WordSum(ip.Octets())
      && AddrSet(w, l.envelope, b, r, ip)
  {
    Bounds(l, b);
    var c := WithAddr(w, l.envelope, b, ip);
    WithAddrSets(w, l.envelope, b, ip);
    AddrBytesKeep(l.envelope, b, c);
    LayerKeeps(l, b, c);
    var r := Put16(c, At(l), v);
    l.LengthKeeps(c, At(l), v);
    PutOther(c, At(l), v);
    AddressesBefore(l.envelope, c, r);
    PutPut(c, At(l), v, 0);
    PutTail(b, c, At(l), 0, l.offset);
    hide Layer.WellFormed, Layer.Src, Layer.Dst, WithAddr, Put16, WordSum;
  }

  lemma LayerKeeps(l: Layer, b: seq<U8>, c: seq<U8>)
    requires HasPorts(l) && l.WellFormed(b) && |c| == |b|
    requires l.envelope.WellFormed(c) && l.envelope.PayloadOffset(c) == l.envelope.PayloadOffset(b)
    ensures l.WellFormed(c)
  {
  }

  /** What the update stores and what it should have stored: if the old value
      stood for the sum of the old bytes, the new one does for the new bytes. */
  lemma Readdressing(w: Which, l: Layer, b: seq<U8>, ip: IpAddr) returns (r: seq<U8>, c: U16)
    requires HasPorts(l) && l.WellFormed(b) && |b| <= 0xFFFF && ip.Valid() && ip.V4? == l.envelope.Ipv4?
    ensures Readdressed(w, l, b, ip) == Ok(r)
    ensures |r| == |b| && l.WellFormed(r) && At(l) + 2 <= |b|
    ensures Get16(r, At(l)) == Stored(l, c)
    ensures Congruent(c, Not(Fold(Total(l, r)))) <==> Congruent(Get16(b, At(l)), Not(Fold(Total(l, b))))
    ensures Get16(b, At(l)) == Not(Fold(Total(l, b))) && Total(l, r) > 0 ==> c == Not(Fold(Total(l, r)))
  {
    hide *;
    ReaddressedIsPut(w, l, b, ip);
    OctetsInTotal(w, l, b);
    var olds, news, stored := AddrOf(w, l.envelope, b).Octets(), ip.Octets(), Get16(b, At(l));
    c := IncChecksum(stored, Words(olds), Words(news));
    r := Readdressed(w, l, b, ip).value;
    TotalMoves(w, l, b, ip, Stored(l, c));
    TransferAddr(stored, Total(l, b), olds, news);
  }

  /** The update changes a verifying datagram into a verifying one, and any
      other one, such as a UDP datagram sent without checksum that does not
      verify by chance, into one that does not verify. */
  lemma ReaddressVerifies(w: Which, l: Layer, b: seq<U8>, ip: IpAddr)
    requires HasPorts(l) && l.WellFormed(b) && |b| <= 0xFFFF && ip.Valid() && ip.V4? == l.envelope.Ipv4?
    ensures Readdressed(w, l, b, ip).Ok? && l.WellFormed(Readdressed(w, l, b, ip).value)
    ensures |Readdressed(w, l, b, ip).value| == |b|
    ensures l.Verifies(Readdressed(w, l, b, ip).value) <==> l.Verifies(b)
  {
    hide *;
    var r, c := Readdressing(w, l, b, ip);
    VerifiesByTotal(l, b);
    VerifiesByTotal(l, r);
    StoredResidue(l, c, Not(Fold(Total(l, r))));
  }

  /** What a receiver takes: a checksum that verifies, or for UDP none at all. */
  ghost predicate Accepted(l: Layer, b: seq<U8>)
    requires HasPorts(l) && l.WellFormed(b) && |b| <= 0xFFFF
  {
    AtBounds(l, b);
    l.Verifies(b) || (l.Udp? && Get16(b, At(l)) == 0)
  }

  /** An accepted packet stays accepted if and only if its checksum field is not
      zero or it verifies as it is: a UDP datagram sent without checksum gets
      one, computed from nothing. */
  lemma ReaddressAccepted(w: Which, l: Layer, b: seq<U8>, ip: IpAddr)
    requires HasPorts(l) && l.WellFormed(b) && |b| <= 0xFFFF && ip.Valid() && ip.V4? == l.envelope.Ipv4?
    requires Accepted(l, b)
    ensures Readdressed(w, l, b, ip).Ok? && l.WellFormed(Readdressed(w, l, b, ip).value)
    ensures |Readdressed(w, l, b, ip).value| == |b| && At(l) + 2 <= |b|
    ensures Accepted(l, Readdressed(w, l, b, ip).value) <==> Get16(b, At(l)) != 0 || l.Verifies(b)
  {
    AtBounds(l, b);
    ReaddressVerifies(w, l, b, ip);
    var r, c := Readdressing(w, l, b, ip);
    StoredNotZero(l, c);
    AcceptedIs(l, b);
    AcceptedIs(l, r);
    hide *;
  }

  lemma AcceptedIs(l: Layer, b: seq<U8>)
    requires HasPorts(l) && l.WellFormed(b) && |b| <= 0xFFFF
    ensures At(l) + 2 <= |b|
    ensures Accepted(l, b) <==> l.Verifies(b) || (l.Udp? && Get16(b, At(l)) == 0)
  {
    AtBounds(l, b);
    hide Layer.WellFormed, Layer.Verifies, Get16;
  }

  lemma StoredNotZero(l: Layer, c: U16)
    ensures l.Udp? ==> Stored(l, c) != 0
  {
  }

  lemma StoredResidue(l: Layer, c: U16, d: U16)
    ensures Congruent(Stored(l, c), d) <==> Congruent(c, d)
  {
  }

  lemma OctetsInTotal(w: Which, l: Layer, b: seq<U8>)
    requires HasPorts(l) && l.WellFormed(b) && |b| <= 0xFFFF
    ensures !l.Ethernet? && l.envelope.IsIp() && l.envelope.WellFormed(b)
    ensures WordSum(AddrOf(w, l.envelope, b).Octets()) <= Total(l, b)
  {
    Bounds(l, b);
    ProtocolCounts(l, b);
    hide Layer.WellFormed, Layer.Src, Layer.Dst, Layer.PseudoTotal, WordSum;
  }

  /** What is stored, written out. */
  lemma ReaddressedIsPut(w: Which, l: Layer, b: seq<U8>, ip: IpAddr)
    requires HasPorts(l) && l.WellFormed(b) && ip.Valid() && ip.V4? == l.envelope.Ipv4?
    ensures At(l) + 2 <= |b| && !l.Ethernet? && l.envelope.IsIp() && l.envelope.WellFormed(b)
    ensures var olds, news := AddrOf(w, l.envelope, b).Octets(), ip.Octets();
      && |olds| == |news| && olds != [] && |Words(olds)| == |Words(news)|
      && Readdressed(w, l, b, ip) ==
         Ok(Put16(WithAddr(w, l.envelope, b, ip), At(l),
                  Stored(l, IncChecksum(Get16(b, At(l)), Words(olds), Words(news)))))
  {
    Bounds(l, b);
    WordsLength(AddrOf(w, l.envelope, b).Octets());
    WordsLength(ip.Octets());
    hide Layer.WellFormed, Layer.Src, Layer.Dst, WithAddr, Put16, Get16, IncChecksum, Words;
  }

  lemma TransferAddr(stored: U16, total: nat, olds: seq<U8>, news: seq<U8>)
    requires |olds| == |news| && total >= WordSum(olds)
    ensures |Words(olds)| == |Words(news)|
    ensures var total' := total - WordSum(olds) + WordSum(news);
      && (Congruent(IncChecksum(stored, Words(olds), Words(news)), Not(Fold(total'))) <==>
          Congruent(stored, Not(Fold(total))))
      && (stored == Not(Fold(total)) && olds != [] && total' > 0 ==>
          IncChecksum(stored, Words(olds), Words(news)) == Not(Fold(total')))
  {
    WordsLength(olds);
    WordsLength(news);
    WordSumIsSum(olds);
    WordSumIsSum(news);
    IncrementalTransfers(stored, total, Words(olds), Words(news));
    IncrementalCurrent(total, Words(olds), Words(news));
  }

  /** If the stored checksum is what `compute_checksum` would store, it still
      is after the change of address, in either representation of zero. */
  lemma ReaddressCurrent(w: Which, l: Layer, b: seq<U8>, ip: IpAddr)
    requires HasPorts(l) && l.WellFormed(b) && |b| <= 0xFFFF && ip.Valid() && ip.V4? == l.envelope.Ipv4?
    requires l.Checksummed(b) == b
    ensures Readdressed(w, l, b, ip).Ok?
    ensures var r := Readdressed(w, l, b, ip).value;
      |r| == |b| && l.WellFormed(r) && l.Checksummed(r) == r
  {
    hide *;
    var r, c := Readdressing(w, l, b, ip);
    CurrentIff(l, b);
    CurrentIff(l, r);
    CurrentMoves(l, Total(l, b), Total(l, r), Get16(b, At(l)), c);
  }

  lemma CurrentIff(l: Layer, b: seq<U8>)
    requires HasPorts(l) && l.WellFormed(b) && |b| <= 0xFFFF
    ensures At(l) + 2 <= |b| && Total(l, b) > 0
    ensures l.Checksummed(b) == b <==> Get16(b, At(l)) == Stored(l, Not(Fold(Total(l, b))))
  {
    Bounds(l, b);
    ChecksummedIsPut(l, b);
    ValueIsStored(l, b);
  }

  /** A current checksum stays current: TCP keeps the one form of zero that
      summing gives, UDP the other. */
  lemma CurrentMoves(l: Layer, total: nat, total': nat, stored: U16, c: U16)
    requires total > 0 && total' > 0 && stored == Stored(l, Not(Fold(total)))
    requires Congruent(stored, Not(Fold(total))) ==> Congruent(c, Not(Fold(total')))
    requires stored == Not(Fold(total)) ==> c == Not(Fold(total'))
    ensures Stored(l, c) == Stored(l, Not(Fold(total')))
  {
    StoredResidue(l, Not(Fold(total)), Not(Fold(total)));
    assert Not(Fold(total')) < 0xFFFF;
  }

  /** Addresses of different families are refused. */
  lemma ReaddressMismatch(w: Which, l: Layer, b: seq<U8>, ip: IpAddr)
    requires HasPorts(l) && l.WellFormed(b) && ip.Valid()
    ensures Readdressed(w, l, b, ip) == Err(IpAddrMismatch) <==> ip.V4? != l.envelope.Ipv4?
  {
  }

  // ---- the operations on the buffer ----

  method ReadOwnAddr(w: Which, e: Layer, m: Mbuf) returns (a: IpAddr)
    requires m.Valid() && e.IsIp() && e.WellFormed(m.Data())
    ensures a == AddrOf(w, e, m.Data())
  {
    if w.Source? {
      a := ReadSrc(e, m);
    } else {
      a := ReadDst(e, m);
    }
  }

  method ChecksumWithIpAddr(oldChecksum: U16, olds: IpAddr, news: IpAddr) returns (r: Result<U16, AddrError>)
    requires olds.Valid() && news.Valid()
    ensures r == ComputeWithIpAddr(oldChecksum, olds, news)
  {
    var oldWords, newWords := Words(olds.Octets()), Words(news.Octets());
    WordsLength(olds.Octets());
    WordsLength(news.Octets());
    if olds.V4? == news.V4? {
      assert oldWords[..|oldWords|] == oldWords && newWords[..|newWords|] == newWords;
      var c := ComputeInc(oldChecksum, oldWords, newWords);
      r := Ok(c);
    } else {
      r := Err(IpAddrMismatch);
    }
  }

  lemma {:induction false} FlatSegments(b: seq<U8>, o: nat, n: nat)
    requires o + 8 + 16 * n <= |b|
    ensures Flat(Segments(b, o, n)) == b[o + 8..o + 8 + 16 * n]
    decreases n
  {
    if n > 0 {
      FlatSegments(b, o + 16, n - 1);
      assert Segments(b, o, n)[1..] == Segments(b, o + 16, n - 1);
      assert b[o + 8..o + 8 + 16 * n] == b[o + 8..o + 24] + b[o + 24..o + 8 + 16 * n];
    }
  }

  lemma FlatFirstReplaced(b: seq<U8>, o: nat, n: nat, a: Addr)
    requires 1 <= n && o + 8 + 16 * n <= |b|
    ensures |Segments(b, o, n)| == n
    ensures Flat([a] + Segments(b, o, n)[1..]) == a + b[o + 24..o + 8 + 16 * n]
  {
    var rest := Segments(b, o, n)[1..];
    FlatSegments(b, o + 16, n - 1);
    assert rest == Segments(b, o + 16, n - 1);
    assert ([a] + rest)[1..] == rest;
  }

  lemma RoutingHeader(e: Layer, b: seq<U8>)
    requires e.SegmentRouting? && e.WellFormed(b)
    ensures HoldsList(e, b) && e.envelope.IsIpv6() && e.envelope.WellFormed(b)
    ensures 1 <= e.count <= 0xFF && e.offset + 8 + 16 * e.count <= |b|
    ensures b[e.offset + 1] == Doubled(e.count) && b[e.offset + 4] == e.count - 1
    ensures ListEnd(e, e.count) == e.offset + 8 + 16 * e.count && Low8(e.count) == e.count
  {
  }

  /** Rewriting the list with a new first entry touches nothing else. */
  lemma FirstReplaced(l: Layer, b: seq<U8>, a: Addr)
    requires l.SegmentRouting? && l.WellFormed(b)
    ensures HoldsList(l, b) && 1 <= l.count <= 0xFF && l.offset + 8 + 16 * l.count <= |b|
    ensures ListEnd(l, l.count) == l.offset + 8 + 16 * l.count && Low8(l.count) == l.count
    ensures |[a] + Segments(b, l.offset, l.count)[1..]| == l.count
    ensures WithSegments(l, b, [a] + Segments(b, l.offset, l.count)[1..]) == Splice(b, l.offset + 8, a)
  {
    hide *;
    RoutingHeader(l, b);
    FlatFirstReplaced(b, l.offset, l.count, a);
    var segments := [a] + Segments(b, l.offset, l.count)[1..];
    Written(l, b, segments);
    PutBack(b, l.offset, l.count, a, Flat(segments));
  }

  lemma Written(l: Layer, b: seq<U8>, segments: seq<Addr>)
    requires HoldsList(l, b) && 1 <= |segments| == l.count && ListEnd(l, l.count) == l.offset + 8 + 16 * l.count <= |b|
    requires b[l.offset + 1] == Doubled(l.count)
    ensures var o := l.offset;
      WithSegments(l, b, segments) ==
      (b[..o + 8] + Flat(segments) + b[o + 8 + 16 * l.count..])[o + 1 := b[o + 1]][o + 4 := l.count - 1]
  {
    assert Low8(l.count) == l.count && LastEntry(l.count) == l.count - 1;
    hide Flat, Doubled, Low8, LastEntry, ListEnd;
  }

  lemma PutBack(b: seq<U8>, o: nat, n: nat, a: Addr, flat: seq<U8>)
    requires 1 <= n <= 0xFF && o + 8 + 16 * n <= |b|
    requires b[o + 4] == n - 1 && flat == a + b[o + 24..o + 8 + 16 * n]
    ensures (b[..o + 8] + flat + b[o + 8 + 16 * n..])[o + 1 := b[o + 1]][o + 4 := n - 1] == Splice(b, o + 8, a)
  {
    assert b[..o + 8] + flat + b[o + 8 + 16 * n..] == Splice(b, o + 8, a);
  }

  method ReadOtherSegments(l: Layer, m: Mbuf, first: Addr) returns (segments: seq<Addr>)
    requires m.Valid() && l.SegmentRouting? && l.WellFormed(m.Data())
    ensures segments == [first] + Segments(m.Data(), l.offset, l.count)[1..]
  {
    segments := [first];
    ghost var all := Segments(m.Data(), l.offset, l.count);
    var i := 1;
    while i < l.count
      invariant 1 <= i <= l.count
      invariant segments == [first] + all[1..i]
    {
      var segment := ReadAddr(m, l.offset + 8 + 16 * i, 16);
      assert segment == all[i];
      assert all[1..i + 1] == all[1..i] + [segment];
      segments := segments + [segment];
      i := i + 1;
    }
    assert all[1..i] == all[1..];
  }

  lemma ListedKeeps(e: Layer, b: seq<U8>, a: Addr)
    requires e.SegmentRouting? && e.WellFormed(b) && HoldsList(e, b)
    ensures e.WellFormed(Splice(b, e.offset + 8, a)) && e.envelope.WellFormed(Splice(b, e.offset + 8, a))
  {
    AddrBytesKeep(e, b, Splice(b, e.offset + 8, a));
  }

  method SetAddr(w: Which, e: Layer, m: Mbuf, ip: IpAddr)
    requires m.Valid() && e.IsIp() && e.WellFormed(m.Data()) && ip.Valid() && ip.V4? == e.Ipv4?
    modifies m, m.buf
    ensures m.Valid() && m.Data() == WithAddr(w, e, old(m.Data()), ip)
    decreases e
  {
    match e
    case Ipv4(_, o) =>
      var _ := m.WriteSlice(if w.Source? then o + 12 else o + 16, ip.octets4);
    case Ipv6(_, o) =>
      var _ := m.WriteSlice(if w.Source? then o + 8 else o + 24, ip.octets6);
    case Fragment(env, _) => SetAddr(w, env, m, ip);
    case SegmentRouting(env, _, _) =>
      if w.Source? {
        SetAddr(w, env, m, ip);
      } else {
        SetRoutedDst(e, m, ip);
      }
  }

  method SetRoutedDst(e: Layer, m: Mbuf, ip: IpAddr)
    requires m.Valid() && e.SegmentRouting? && e.WellFormed(m.Data()) && ip.Valid() && !ip.V4?
    modifies m, m.buf
    ensures m.Valid() && m.Data() == WithAddr(Destination, e, old(m.Data()), ip)
    decreases e, 0
  {
    hide Layer.WellFormed, WithSegments, Splice, Segments, Mbuf.Tailroom;
    ghost var b := m.Data();
    RoutingHeader(e, b);
    var segments := ReadOtherSegments(e, m, ip.octets6);
    FirstReplaced(e, b, ip.octets6);
    var r := SetSegments(e, m, segments);
    ListedKeeps(e, b, ip.octets6);
    var segmentsLeft := m.Get8(e.offset + 3);
    if segmentsLeft == 0 {
      SetAddr(Destination, e.envelope, m, ip);
    }
  }

  method ReadChecksum(l: Layer, m: Mbuf) returns (c: U16)
    requires m.Valid() && HasPorts(l) && At(l) + 2 <= m.dataLen
    ensures c == Get16(m.Data(), At(l))
  {
    var hi := m.Get8(At(l));
    var lo := m.Get8(At(l) + 1);
    c := Word(hi, lo);
  }

  /** `set_src_ip` and `set_dst_ip` of both protocols; a refused address
      leaves the packet as it was. */
  method SetIp(w: Which, l: Layer, m: Mbuf, ip: IpAddr) returns (r: Result<(), AddrError>)
    requires m.Valid() && HasPorts(l) && l.WellFormed(m.Data()) && ip.Valid()
    modifies m, m.buf
    ensures m.Valid()
    ensures r.Ok? <==> Readdressed(w, l, old(m.Data()), ip).Ok?
    ensures r.Ok? ==> m.Data() == Readdressed(w, l, old(m.Data()), ip).value
    ensures r.Err? ==> r.error == Readdressed(w, l, old(m.Data()), ip).error && m.Data() == old(m.Data())
  {
    hide *;
    ghost var b := m.Data();
    AtBounds(l, b);
    var oldIp := ReadOwnAddr(w, l.envelope, m);
    var oldChecksum := ReadChecksum(l, m);
    var checksum := ChecksumWithIpAddr(oldChecksum, oldIp, ip);
    ReaddressedUnfolds(w, l, b, ip);
    if checksum.Err? {
      r := Err(checksum.error);
    } else {
      SetAddrAndChecksum(w, l, m, ip, Stored(l, checksum.value));
      r := Ok(());
    }
  }

  method SetAddrAndChecksum(w: Which, l: Layer, m: Mbuf, ip: IpAddr, c: U16)
    requires m.Valid() && HasPorts(l) && At(l) + 2 <= m.dataLen
    requires l.envelope.IsIp() && l.envelope.WellFormed(m.Data()) && ip.Valid() && ip.V4? == l.envelope.Ipv4?
    modifies m, m.buf
    ensures m.Valid() && m.Data() == Put16(WithAddr(w, l.envelope, old(m.Data()), ip), At(l), c)
  {
    hide Layer.WellFormed, WithAddr, Put16, Get16, Mbuf.Data;
    SetAddr(w, l.envelope, m, ip);
    m.Set16(At(l), c);
  }

  lemma AtBounds(l: Layer, b: seq<U8>)
    requires HasPorts(l) && l.WellFormed(b)
    ensures At(l) + 2 <= |b| && !l.Ethernet? && l.envelope.IsIp() && l.envelope.WellFormed(b)
  {
    Bounds(l, b);
  }

  lemma ReaddressedUnfolds(w: Which, l: Layer, b: seq<U8>, ip: IpAddr)
    requires HasPorts(l) && l.WellFormed(b) && ip.Valid()
    ensures At(l) + 2 <= |b| && !l.Ethernet? && l.envelope.IsIp() && l.envelope.WellFormed(b)
    ensures var c := ComputeWithIpAddr(Get16(b, At(l)), AddrOf(w, l.envelope, b), ip);
      && (c.Ok? ==> ip.V4? == l.envelope.Ipv4? &&
                    Readdressed(w, l, b, ip) == Ok(Put16(WithAddr(w, l.envelope, b, ip), At(l), Stored(l, c.value))))
      && (c.Err? ==> Readdressed(w, l, b, ip) == Err(c.error))
  {
    AtBounds(l, b);
    hide Layer.WellFormed, WithAddr, Put16, Get16, AddrOf, IncChecksum, Words;
  }
}
