/** The message buffer (capsule/src/dpdk/mbuf.rs). */
module Mbufs {
  import opened Bytes
  import opened Wrappers

  datatype BufferError = BadOffset | NotResized | OutOfBuffer

  /** `fresh` put in at `off`. */
  function Inserted(d: seq<U8>, off: nat, bytes: seq<U8>): (r: seq<U8>)
    requires off <= |d|
    ensures |r| == |d| + |bytes|
  {
    d[..off] + bytes + d[off..]
  }

  /** The `len` bytes at `off` taken out. */
  function Removed(d: seq<U8>, off: nat, len: nat): (r: seq<U8>)
    requires off + len <= |d|
    ensures |r| == |d| - len
  {
    d[..off] + d[off + len..]
  }

  lemma RemovedInserted(d: seq<U8>, off: nat, bytes: seq<U8>)
    requires off <= |d|
    ensures Removed(Inserted(d, off, bytes), off, |bytes|) == d
  {
    assert Inserted(d, off, bytes)[off + |bytes|..] == d[off..];
  }

  /** Closing the gap by moving every later byte up by `len`. */
  lemma MovedUp(d: seq<U8>, was: seq<U8>, off: nat, len: nat)
    requires off + len <= |was| && |d| == |was| - len
    requires forall i | 0 <= i < off :: d[i] == was[i]
    requires forall i | off + len <= i < |was| :: d[i - len] == was[i]
    ensures d == Removed(was, off, len)
  {
  }

  /** A single-segment buffer: the packet is `dataLen` bytes of `buf` from
      `dataOff` on. */
  class Mbuf {
    const buf: array<U8>
    const dataOff: nat
    var dataLen: nat
    var pktLen: nat

    /** All lengths fit the `u16` fields, and the packet fits the buffer. */
    ghost predicate Valid()
      reads this
    {
      buf.Length <= 0xFFFF && dataOff + dataLen <= buf.Length && pktLen == dataLen
    }

    ghost function Data(): (d: seq<U8>)
      requires Valid()
      reads this, buf
      ensures |d| == dataLen
    {
      buf[dataOff..dataOff + dataLen]
    }

    function Tailroom(): nat
      requires Valid()
      reads this
    {
      buf.Length - dataOff - dataLen
    }

    constructor (size: nat, headroom: nat)
      requires headroom <= size <= 0xFFFF
      ensures Valid() && fresh(buf)
      ensures Data() == [] && Tailroom() == size - headroom
    {
      buf := new U8[size];
      dataOff := headroom;
      dataLen, pktLen := 0, 0;
    }

    /** Moves `len` bytes, as if through a temporary copy. */
    method Copy(dst: nat, src: nat, len: nat)
      requires src + len <= buf.Length && dst + len <= buf.Length
      modifies buf
      ensures forall j | dst <= j < dst + len :: buf[j] == old(buf[j - dst + src])
      ensures forall j | 0 <= j < buf.Length && !(dst <= j < dst + len) :: buf[j] == old(buf[j])
    {
      forall i | 0 <= i < len {
        buf[dst + i] := buf[src + i];
      }
    }

    method Extend(offset: nat, len: nat) returns (r: Result<(), BufferError>)
      requires Valid()
      modifies this, buf
      ensures Valid()
      ensures r.Ok? <==> len > 0 && offset <= old(dataLen) && len < old(Tailroom())
      ensures r.Ok? ==> dataLen == old(dataLen) + len &&
                        Data() == Inserted(old(Data()), offset, Data()[offset..offset + len])
      ensures r.Err? ==> r.error == NotResized && Data() == old(Data())
    {
      if !(len > 0) || !(offset <= dataLen) || !(len < Tailroom()) {
        return Err(NotResized);
      }
      ghost var was := Data();
      var toCopy := dataLen - offset;
      if toCopy > 0 {
        Copy(dataOff + offset + len, dataOff + offset, toCopy);
      }
      dataLen := dataLen + len;
      pktLen := pktLen + len;
      assert forall i | 0 <= i < offset :: Data()[i] == was[i];
      assert forall i | offset + len <= i < dataLen :: Data()[i] == was[i - len];
      assert Data() == Inserted(was, offset, Data()[offset..offset + len]);
      r := Ok(());
    }

    method Shrink(offset: nat, len: nat) returns (r: Result<(), BufferError>)
      requires Valid()
      modifies this, buf
      ensures Valid()
      ensures r.Ok? <==> len > 0 && offset + len <= old(dataLen)
      ensures r.Ok? ==> Data() == Removed(old(Data()), offset, len)
      ensures r.Err? ==> r.error == NotResized && Data() == old(Data())
    {
      if !(len > 0) || !(offset + len <= dataLen) {
        return Err(NotResized);
      }
      ghost var was := Data();
      var toCopy := dataLen - offset - len;
      if toCopy > 0 {
        Copy(dataOff + offset, dataOff + offset + len, toCopy);
      }
      dataLen := dataLen - len;
      pktLen := pktLen - len;
      assert forall i | 0 <= i < offset :: Data()[i] == was[i];
      assert forall i | offset + len <= i < |was| :: Data()[i - len] == was[i];
      MovedUp(Data(), was, offset, len);
      r := Ok(());
    }

    method Resize(offset: nat, len: int) returns (r: Result<(), BufferError>)
      requires Valid()
      modifies this, buf
      ensures Valid()
      ensures r.Ok? <==> if len < 0 then offset - len <= old(dataLen)
                         else len > 0 && offset <= old(dataLen) && len < old(Tailroom())
      ensures r.Ok? && len < 0 ==> Data() == Removed(old(Data()), offset, -len)
      ensures r.Ok? && len > 0 ==> dataLen == old(dataLen) + len &&
                                   Data() == Inserted(old(Data()), offset, Data()[offset..offset + len])
      ensures r.Err? ==> r.error == NotResized && Data() == old(Data())
    {
      if len < 0 {
        r := Shrink(offset, -len);
      } else {
        r := Extend(offset, len);
      }
    }

    method Truncate(toLen: nat) returns (r: Result<(), BufferError>)
      requires Valid()
      modifies this
      ensures Valid()
      ensures r.Ok? <==> toLen < old(dataLen)
      ensures r.Ok? ==> Data() == old(Data())[..toLen]
      ensures r.Err? ==> r.error == NotResized && Data() == old(Data())
    {
      if !(toLen < dataLen) {
        return Err(NotResized);
      }
      dataLen := toLen;
      pktLen := toLen;
      r := Ok(());
    }

    method ReadSlice(offset: nat, count: nat) returns (r: Result<seq<U8>, BufferError>)
      requires Valid()
      ensures r == if offset >= dataLen then Err(BadOffset)
                   else if offset + count > dataLen then Err(OutOfBuffer)
                   else Ok(Data()[offset..offset + count])
    {
      if offset >= dataLen {
        return Err(BadOffset);
      }
      if offset + count > dataLen {
        return Err(OutOfBuffer);
      }
      r := Ok(buf[dataOff..dataOff + dataLen][offset..offset + count]);
    }

    method WriteSlice(offset: nat, bytes: seq<U8>) returns (r: Result<(), BufferError>)
      requires Valid()
      modifies buf
      ensures Valid()
      ensures r.Ok? <==> offset + |bytes| <= dataLen && offset < dataLen
      ensures offset + |bytes| <= dataLen ==> Data() == Splice(old(Data()), offset, bytes)
      ensures offset + |bytes| > dataLen ==> Data() == old(Data())
      ensures r.Err? ==> r.error == if offset + |bytes| > dataLen then OutOfBuffer else BadOffset
    {
      if offset + |bytes| > dataLen {
        return Err(OutOfBuffer);
      }
      forall i | 0 <= i < |bytes| {
        buf[dataOff + offset + i] := bytes[i];
      }
      assert Data() == Splice(old(Data()), offset, bytes);
      r := if offset < dataLen then Ok(()) else Err(BadOffset);
    }

    // ---- header fields, by offset instead of by pointer ----

    method Get8(off: nat) returns (v: U8)
      requires Valid() && off < dataLen
      ensures v == Data()[off]
    {
      v := buf[dataOff + off];
    }

    method Set8(off: nat, v: U8)
      requires Valid() && off < dataLen
      modifies buf
      ensures Valid() && Data() == old(Data())[off := v]
    {
      buf[dataOff + off] := v;
      assert Data() == old(Data())[off := v];
    }

    method Set16(off: nat, v: U16)
      requires Valid() && off + 2 <= dataLen
      modifies buf
      ensures Valid() && Data() == Put16(old(Data()), off, v)
    {
      buf[dataOff + off] := v / 0x100;
      buf[dataOff + off + 1] := v % 0x100;
      PutBytes(old(Data()), off, v);
      assert Data() == Put16(old(Data()), off, v);
    }
  }

  /** Resizing at the front of a region and then writing over all of it
      replaces the region, whatever the bytes that came in between. */
  lemma Rewritten(b: seq<U8>, b': seq<U8>, at: nat, len: nat, bytes: seq<U8>)
    requires at + len <= |b|
    requires |bytes| == len ==> b' == b
    requires |bytes| < len ==> b' == Removed(b, at, len - |bytes|)
    requires |bytes| > len ==> at + |bytes| <= |b'| && b' == Inserted(b, at, b'[at..at + |bytes| - len])
    ensures at + |bytes| <= |b'|
    ensures Splice(b', at, bytes) == b[..at] + bytes + b[at + len..]
  {
    assert b'[..at] == b[..at];
    assert b'[at + |bytes|..] == b[at + len..];
  }

  /** Resizes the `len` bytes at `at` unless they have the right size
      already, and writes `bytes` over them. */
  method Rewrite(m: Mbuf, at: nat, len: nat, bytes: seq<U8>) returns (r: Result<(), BufferError>)
    requires m.Valid() && at + len <= m.dataLen && bytes != []
    modifies m, m.buf
    ensures m.Valid()
    ensures r.Ok? <==> |bytes| <= len || |bytes| - len < old(m.Tailroom())
    ensures r.Ok? ==> m.Data() == old(m.Data())[..at] + bytes + old(m.Data())[at + len..]
    ensures r.Err? ==> m.Data() == old(m.Data()) && r.error == NotResized
  {
    ghost var b := m.Data();
    if |bytes| != len {
      r := m.Resize(at, |bytes| - len);
      if r.Err? {
        return;
      }
    }
    Rewritten(b, m.Data(), at, len, bytes);
    r := m.WriteSlice(at, bytes);
  }
}
