/** The packet operations themselves, on the shared buffer. */
module Packets {
  import opened Bytes
  import opened Wrappers
  import opened Checksums
  import opened Mbufs
  import opened Layers
  import opened Reconciling

  method ReadAddr(m: Mbuf, at: nat, len: nat) returns (octets: seq<U8>)
    requires m.Valid() && at + len <= m.dataLen && len > 0
    ensures octets == m.Data()[at..at + len]
  {
    var r := m.ReadSlice(at, len);
    octets := r.value;
  }

  method ReadSrc(e: Layer, m: Mbuf) returns (a: IpAddr)
    requires m.Valid() && e.IsIp() && e.WellFormed(m.Data())
    ensures a == e.Src(m.Data())
    decreases e
  {
    match e
    case Ipv4(_, o) =>
      var octets := ReadAddr(m, o + 12, 4);
      a := V4(octets);
    case Ipv6(_, o) =>
      var octets := ReadAddr(m, o + 8, 16);
      a := V6(octets);
    case SegmentRouting(env, _, _) => a := ReadSrc(env, m);
    case Fragment(env, _) => a := ReadSrc(env, m);
  }

  method ReadDst(e: Layer, m: Mbuf) returns (a: IpAddr)
    requires m.Valid() && e.IsIp() && e.WellFormed(m.Data())
    ensures a == e.Dst(m.Data())
    decreases e
  {
    match e
    case Ipv4(_, o) =>
      var octets := ReadAddr(m, o + 16, 4);
      a := V4(octets);
    case Ipv6(_, o) =>
      var octets := ReadAddr(m, o + 24, 16);
      a := V6(octets);
    case SegmentRouting(_, o, _) =>
      var octets := ReadAddr(m, o + 8, 16);
      a := V6(octets);
    case Fragment(env, _) => a := ReadDst(env, m);
  }

  /** The folded sum of the pseudo-header; ICMPv4 has none. */
  method PseudoHeaderSum(l: Layer, m: Mbuf) returns (sum: U16)
    requires m.Valid() && l.IsTransport() && l.WellFormed(m.Data())
    ensures sum == Fold(l.PseudoTotal(m.Data()))
  {
    FoldSmall(0);
    hide Layer.Src, Layer.Dst, Fold, WordSum;
    if l.Icmpv4? {
      sum := 0;
    } else {
      var src := ReadSrc(l.envelope, m);
      var dst := ReadDst(l.envelope, m);
      sum := PseudoHeader(src, dst, m.dataLen - l.offset, l.Protocol()).FoldedSum();
    }
  }

  method ComputeChecksum(l: Layer, m: Mbuf)
    requires m.Valid() && l.IsTransport() && l.WellFormed(m.Data())
    modifies m.buf
    ensures m.Valid() && m.Data() == l.Checksummed(old(m.Data()))
  {
    hide Layer.WellFormed, Layer.PseudoTotal, Checksum, Fold, Put16, Get16, Layer.Value, Layer.Checksummed;
    ghost var b := m.Data();
    Bounds(l, b);
    var at := l.offset + l.ChecksumField();
    l.LengthKeeps(b, at, 0);
    m.Set16(at, 0);
    ghost var z := m.Data();
    Bounds(l, z);
    var r := m.ReadSlice(l.offset, m.dataLen - l.offset);
    var data := r.value;
    assert data == z[l.offset..];
    var sum := PseudoHeaderSum(l, m);
    var c := Compute(sum, data);
    SumFoldedFirst(l.PseudoTotal(z), sum, data);
    ChecksumStored(l, b, c);
    m.Set16(at, if l.Udp? && c == 0 then 0xFFFF else c);
  }

  lemma SumFoldedFirst(total: nat, sum: U16, data: seq<U8>)
    requires sum == Fold(total)
    ensures Checksum(sum, data) == Checksum(total, data)
  {
    FoldFirst(total, WordSum(data));
  }

  method ComputeIpv4Checksum(l: Layer, m: Mbuf)
    requires m.Valid() && l.Ipv4? && l.WellFormed(m.Data())
    modifies m.buf
    ensures m.Valid() && m.Data() == l.Ipv4Checksummed(old(m.Data()))
  {
    m.Set16(l.offset + 10, 0);
    var r := m.ReadSlice(l.offset, 20);
    var c := Compute(0, r.value);
    m.Set16(l.offset + 10, c);
  }

  /** ICMPv4 messages have their data trimmed, ICMPv6 ones the whole packet. */
  method CutMessage(l: Layer, m: Mbuf)
    requires m.Valid() && (l.Icmpv4? || l.Icmpv6?) && l.WellFormed(m.Data())
    modifies m, m.buf
    ensures m.Valid() && m.Data() == l.Cut(old(m.Data()))
  {
    ghost var b := m.Data();
    Bounds(l, b);
    if l.truncating {
      if l.Icmpv4? {
        var dataLen, dataOffset := m.dataLen - (l.offset + 8), l.offset + 8;
        if dataLen > IPV4_MIN_MTU {
          var _ := m.Shrink(dataOffset + IPV4_MIN_MTU, dataLen - IPV4_MIN_MTU);
        }
      } else {
        var _ := m.Truncate(l.envelope.Ip().offset + IPV6_MIN_MTU);
      }
    }
    assert m.Data() == l.Cut(b);
  }

  /** The checksum of a message that may have been cut in front of its header:
      the read then fails, and the source panics. */
  method ChecksumMessage(l: Layer, m: Mbuf) returns (r: Result<(), BufferError>)
    requires m.Valid() && (l.Icmpv4? || l.Icmpv6?)
    requires l.offset < m.dataLen ==> l.WellFormed(m.Data())
    modifies m.buf
    ensures m.Valid()
    ensures r.Ok? <==> l.offset < m.dataLen
    ensures r.Ok? ==> m.Data() == l.Checksummed(old(m.Data()))
    ensures r.Err? ==> r.error == BadOffset && m.Data() == old(m.Data())
  {
    if l.offset < m.dataLen {
      ComputeChecksum(l, m);
      r := Ok(());
    } else {
      var read := m.ReadSlice(l.offset, 0);
      r := Err(read.error);
    }
  }

  method ReconcileMessage(l: Layer, m: Mbuf) returns (r: Result<(), BufferError>)
    requires m.Valid() && (l.Icmpv4? || l.Icmpv6?) && l.WellFormed(m.Data())
    modifies m, m.buf
    ensures m.Valid()
    ensures r.Ok? <==> l.Fits(old(m.Data()))
    ensures r.Ok? ==> m.Data() == l.Reconciled(old(m.Data()))
    ensures r.Err? ==> r.error == BadOffset && m.Data() == l.Cut(old(m.Data()))
  {
    hide Layer.WellFormed, Layer.Checksummed, Layer.Cut, Layer.Fits;
    ghost var b := m.Data();
    HeaderLeft(l, b);
    if l.Fits(b) {
      l.CutWellFormed(b);
    }
    CutMessage(l, m);
    r := ChecksumMessage(l, m);
  }

  method Reconcile(l: Layer, m: Mbuf) returns (r: Result<(), BufferError>)
    requires m.Valid() && l.WellFormed(m.Data())
    modifies m, m.buf
    ensures m.Valid()
    ensures r.Ok? <==> l.Fits(old(m.Data()))
    ensures r.Ok? ==> m.Data() == l.Reconciled(old(m.Data()))
    ensures r.Err? ==> r.error == BadOffset && m.Data() == l.Cut(old(m.Data()))
  {
    hide Layer.WellFormed, Layer.Checksummed, Layer.Ipv4Checksummed, Layer.Cut, Put16, Get16;
    ghost var b := m.Data();
    Bounds(l, b);
    r := Ok(());
    match l
    case Ipv4(_, o) =>
      l.LengthKeeps(b, o + 2, |b| - o);
      m.Set16(o + 2, m.dataLen - o);
      ComputeIpv4Checksum(l, m);
    case Ipv6(_, o) =>
      m.Set16(o + 4, m.dataLen - o - 40);
    case Udp(_, o) =>
      l.LengthKeeps(b, o + 4, |b| - o);
      m.Set16(o + 4, m.dataLen - o);
      ComputeChecksum(l, m);
    case Tcp(_, _) =>
      ComputeChecksum(l, m);
    case Icmpv4(_, _, _) =>
      r := ReconcileMessage(l, m);
    case Icmpv6(_, _, _) =>
      r := ReconcileMessage(l, m);
    case _ =>
  }

  method ReconcileAll(l: Layer, m: Mbuf) returns (r: Result<(), BufferError>)
    requires m.Valid() && l.WellFormed(m.Data())
    modifies m, m.buf
    ensures m.Valid()
    ensures r.Ok? <==> AfterReconcileAll(l, old(m.Data())).Some?
    ensures r.Ok? ==> m.Data() == AfterReconcileAll(l, old(m.Data())).value
    ensures r.Ok? ==> Settled(l, m.Data()) && AllRight(l, m.Data())
    ensures r.Err? ==> r.error == BadOffset && m.Data() == l.Cut(old(m.Data()))
    decreases l
  {
    ghost var b := m.Data();
    HeaderLeft(l, b);
    ReconcileSound(l, b);
    AfterOne(l, b);
    hide Layer.WellFormed, Layer.Reconciled, Layer.Fits, Layer.Cut, AfterReconcileAll, Settled, AllRight;
    r := Reconcile(l, m);
    if r.Ok? && !l.Ethernet? {
      r := ReconcileAll(l.envelope, m);
    }
  }

  /** One step of `reconcile_all`: no envelope can fail. */
  lemma AfterOne(l: Layer, b: seq<U8>)
    requires l.WellFormed(b) && |b| <= 0xFFFF
    ensures l.Fits(b) <==> AfterReconcileAll(l, b).Some?
    ensures l.Ethernet? ==> l.Fits(b) && l.Reconciled(b) == b && AfterReconcileAll(l, b) == Some(b)
    ensures !l.Ethernet? && l.Fits(b) ==>
              && l.envelope.WellFormed(l.Reconciled(b))
              && AfterReconcileAll(l.envelope, l.Reconciled(b)) == AfterReconcileAll(l, b)
  {
    HeaderLeft(l, b);
    if !l.Ethernet? && l.Fits(b) {
      ReconciledKeeps(l, b);
      HeaderLeft(l.envelope, l.Reconciled(b));
      hide Layer.Reconciled;
    }
  }
}
