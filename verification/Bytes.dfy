/** Fixed-width integers and big-endian fields in a byte sequence. */
module Bytes {
  type U8 = x: int | 0 <= x < 0x100
  type U16 = x: int | 0 <= x < 0x1_0000
  type U32 = x: int | 0 <= x < 0x1_0000_0000

  /** What is left of a number in eight bits. */
  function Low8(n: nat): (r: U8)
    ensures n < 0x100 ==> r == n
    ensures r <= n
  {
    n % 0x100
  }

  function Word(hi: U8, lo: U8): U16 {
    0x100 * hi + lo
  }

  function Get16(s: seq<U8>, off: nat): U16
    requires off + 2 <= |s|
  {
    Word(s[off], s[off + 1])
  }

  /** Stores the two bytes whose big-endian value is `v`. */
  ghost function Put16(s: seq<U8>, off: nat, v: U16): (r: seq<U8>)
    requires off + 2 <= |s|
    ensures |r| == |s| && Get16(r, off) == v
  {
    assert Word(v / 0x100, v % 0x100) == v;
    var hi: U8, lo: U8 :| Word(hi, lo) == v;
    s[off := hi][off + 1 := lo]
  }

  lemma PutBytes(s: seq<U8>, off: nat, v: U16)
    requires off + 2 <= |s|
    ensures Put16(s, off, v) == s[off := v / 0x100][off + 1 := v % 0x100]
  {
  }

  lemma PutPut(s: seq<U8>, off: nat, u: U16, v: U16)
    requires off + 2 <= |s|
    ensures Put16(Put16(s, off, u), off, v) == Put16(s, off, v)
  {
  }

  lemma PutSame(s: seq<U8>, off: nat, v: U16)
    requires off + 2 <= |s|
    ensures Put16(s, off, v) == s <==> Get16(s, off) == v
  {
  }

  lemma PutOther(s: seq<U8>, off: nat, v: U16)
    requires off + 2 <= |s|
    ensures forall i | 0 <= i < |s| && i != off && i != off + 1 :: Put16(s, off, v)[i] == s[i]
  {
  }

  lemma PutGet(s: seq<U8>, off: nat, v: U16, at: nat)
    requires off + 2 <= |s| && at + 2 <= |s| && (at + 2 <= off || off + 2 <= at)
    ensures Get16(Put16(s, off, v), at) == Get16(s, at)
  {
  }

  lemma PutTail(s: seq<U8>, s': seq<U8>, off: nat, v: U16, lo: nat)
    requires lo <= off && off + 2 <= |s| == |s'|
    requires forall i | lo <= i < |s| :: s'[i] == s[i]
    ensures Put16(s', off, v)[lo..] == Put16(s, off, v)[lo..]
  {
  }

  lemma PutSlice(s: seq<U8>, off: nat, v: U16, lo: nat, hi: nat)
    requires lo <= off && off + 2 <= hi <= |s|
    ensures Put16(s, off, v)[lo..hi] == Put16(s[lo..hi], off - lo, v)
    ensures Get16(s[lo..hi], off - lo) == Get16(s, off)
  {
  }

  /** Overwrites part of `s` with `t`. */
  function Splice(s: seq<U8>, off: nat, t: seq<U8>): (r: seq<U8>)
    requires off + |t| <= |s|
    ensures |r| == |s| && r[off..off + |t|] == t
    ensures forall i | 0 <= i < |s| && !(off <= i < off + |t|) :: r[i] == s[i]
  {
    s[..off] + t + s[off + |t|..]
  }
}
