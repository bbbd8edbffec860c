/** Address ranges (capsule/src/net/cidr), for addresses of 32 and 128 bits
    alike: an address is a number, and `width` is how many bits it has. */
module Cidrs {
  import opened Wrappers

  const USIZE_BITS := 64

  // ---- machine words of `width` bits ----

  function Pow2(n: nat): (r: nat)
    ensures r >= 1 && (n > 0 ==> r >= 2)
  {
    if n == 0 then 1 else 2 * Pow2(n - 1)
  }

  function Ones(width: nat): nat {
    Pow2(width) - 1
  }

  function Not(width: nat, a: nat): nat
    requires a < Pow2(width)
  {
    Ones(width) - a
  }

  /** The low bits that a word of `width` bits keeps of a number. */
  function Wrapped(width: nat, a: nat): (r: nat)
    ensures r < Pow2(width)
    ensures a < Pow2(width) ==> r == a
    ensures a == Pow2(width) ==> r == 0
    decreases a
  {
    if a < Pow2(width) then a else Wrapped(width, a - Pow2(width))
  }

  function Half(a: nat): (h: nat)
    ensures a == 2 * h || a == 2 * h + 1
  {
    a / 2
  }

  /** The lowest bit. */
  function Odd(a: nat): (o: bool)
    ensures a == 2 * Half(a) + if o then 1 else 0
  {
    a != 2 * Half(a)
  }

  function And(width: nat, a: nat, b: nat): nat {
    if width == 0 then 0
    else 2 * And(width - 1, Half(a), Half(b)) + if Odd(a) && Odd(b) then 1 else 0
  }

  function Or(width: nat, a: nat, b: nat): nat {
    if width == 0 then 0
    else 2 * Or(width - 1, Half(a), Half(b)) + if Odd(a) || Odd(b) then 1 else 0
  }

  /** Bits shifted past the top are lost. */
  function ShiftLeft(width: nat, a: nat, count: nat): nat
    requires a < Pow2(width)
    decreases count
  {
    if count == 0 then a
    else ShiftLeft(width, if 2 * a >= Pow2(width) then 2 * a - Pow2(width) else 2 * a, count - 1)
  }

  function LeadingZeros(width: nat, a: nat): nat {
    if width == 0 || a >= Pow2(width - 1) then 0 else 1 + LeadingZeros(width - 1, a)
  }

  function TrailingZeros(width: nat, a: nat): nat {
    if width == 0 || Odd(a) then 0 else 1 + TrailingZeros(width - 1, Half(a))
  }

  function CountZeros(width: nat, a: nat): nat {
    if width == 0 then 0
    else (if Odd(a) then 0 else 1) + CountZeros(width - 1, Half(a))
  }

  // ---- ranges ----

  datatype CidrError = Malformed | InvalidPrefixLength

  datatype Cidr = Cidr(width: nat, address: nat, mask: nat)
  {
    ghost predicate Valid() {
      address < Pow2(width) && mask < Pow2(width)
    }

    function Length(): nat
      requires Valid()
    {
      LeadingZeros(width, Not(width, mask))
    }

    function Network(): nat {
      And(width, mask, address)
    }

    function Broadcast(): nat
      requires Valid()
    {
      Or(width, And(width, mask, address), Not(width, mask))
    }

    function Contains(a: nat): bool {
      And(width, mask, address) == And(width, mask, a)
    }

    function Size(): nat
      requires Valid() && Length() <= width
    {
      Pow2(width - Length())
    }
  }

  function New(width: nat, address: nat, length: nat): Result<Cidr, CidrError> {
    if length == 0 then Ok(Cidr(width, address, Ones(width)))
    else if length <= width then Ok(Cidr(width, address, ShiftLeft(width, Ones(width), width - length)))
    else Err(Malformed)
  }

  function NetmaskLength(width: nat, netmask: nat): Result<nat, CidrError>
    requires netmask < Pow2(width)
  {
    if LeadingZeros(width, netmask) == 0 && TrailingZeros(width, netmask) == CountZeros(width, netmask) then
      Ok(LeadingZeros(width, Not(width, netmask)))
    else
      Err(InvalidPrefixLength)
  }

  function WithNetmask(width: nat, address: nat, netmask: nat): Result<Cidr, CidrError>
    requires netmask < Pow2(width)
  {
    match NetmaskLength(width, netmask)
    case Ok(length) => New(width, address, length)
    case Err(e) => Err(e)
  }

  // ---- masks ----

  /** `host` zeros below ones. */
  function Mask(width: nat, host: nat): (m: nat)
    requires host <= width
    ensures m < Pow2(width)
  {
    Pow2Grows(host, width);
    Pow2(width) - Pow2(host)
  }

  lemma {:induction false} Pow2Grows(a: nat, b: nat)
    requires a <= b
    ensures Pow2(a) <= Pow2(b) && (a < b ==> 2 * Pow2(a) <= Pow2(b))
    decreases b
  {
    if a < b {
      Pow2Grows(a, b - 1);
    }
  }

  lemma {:induction false} ShiftedOnes(width: nat, a: nat, count: nat)
    requires a + count <= width
    ensures ShiftLeft(width, Mask(width, a), count) == Mask(width, a + count)
    decreases count
  {
    if count > 0 {
      Pow2Grows(a + 1, width);
      ShiftedOnes(width, a + 1, count - 1);
    }
  }

  /** The mask of a prefix length between 1 and the width; length 0 gives the
      mask of a single address. */
  lemma NewMask(width: nat, address: nat, length: nat)
    ensures New(width, address, length).Ok? <==> length <= width
    ensures length <= width ==>
              New(width, address, length).value ==
              Cidr(width, address, Mask(width, if length == 0 then 0 else width - length))
  {
    if 1 <= length <= width {
      ShiftedOnes(width, 0, width - length);
    }
  }

  lemma {:induction false} LeadingZerosOfOnes(width: nat, host: nat)
    requires host <= width
    ensures LeadingZeros(width, Ones(host)) == width - host
    decreases width
  {
    if host < width {
      Pow2Grows(host, width - 1);
      LeadingZerosOfOnes(width - 1, host);
    } else if width > 0 {
      assert Ones(host) >= Pow2(width - 1);
    }
  }

  /** `length` gives back the length that `new` was called with, unless that
      was 0. */
  lemma LengthOfNew(width: nat, address: nat, length: nat)
    requires address < Pow2(width) && length <= width
    ensures New(width, address, length).Ok? && New(width, address, length).value.Valid()
    ensures New(width, address, length).value.Length() == if length == 0 then width else length
  {
    var host := if length == 0 then 0 else width - length;
    NewMask(width, address, length);
    LengthOfMask(Cidr(width, address, Mask(width, host)), host);
  }

  lemma LengthOfMask(c: Cidr, host: nat)
    requires host <= c.width && c.address < Pow2(c.width) && c.mask == Mask(c.width, host)
    ensures c.Valid() && Not(c.width, c.mask) == Ones(host) && c.Length() == c.width - host
  {
    LeadingZerosOfOnes(c.width, host);
  }

  lemma {:induction false} NoZeros(width: nat, m: nat)
    requires m < Pow2(width)
    ensures CountZeros(width, m) == 0 <==> m == Ones(width)
  {
    if width > 0 {
      NoZeros(width - 1, Half(m));
    }
  }

  lemma {:induction false} Contiguous(width: nat, m: nat)
    requires m < Pow2(width)
    ensures TrailingZeros(width, m) <= width
    ensures TrailingZeros(width, m) == CountZeros(width, m) <==> m == Mask(width, TrailingZeros(width, m))
    decreases width
  {
    if width > 0 {
      if Odd(m) {
        NoZeros(width, m);
      } else {
        Contiguous(width - 1, Half(m));
      }
    }
  }

  lemma MaskBits(width: nat, host: nat)
    requires host <= width && width > 0
    ensures Odd(Mask(width, host)) == (host == 0)
    ensures Half(Mask(width, host)) == Mask(width - 1, if host == 0 then 0 else host - 1)
  {
    hide Half, Odd;
    if host > 0 {
      assert Mask(width, host) == 2 * Mask(width - 1, host - 1);
    } else {
      assert Mask(width, 0) == 2 * Mask(width - 1, 0) + 1;
    }
  }

  lemma {:induction false} TrailingZerosOfMask(width: nat, host: nat)
    requires host <= width
    ensures TrailingZeros(width, Mask(width, host)) == host
    decreases width
  {
    hide Half, Odd, Mask;
    if width > 0 {
      MaskBits(width, host);
      if host > 0 {
        TrailingZerosOfMask(width - 1, host - 1);
      }
    }
  }

  lemma TopBit(width: nat, m: nat)
    requires m < Pow2(width) && width > 0
    ensures LeadingZeros(width, m) == 0 <==> m >= Pow2(width - 1)
  {
  }

  /** Exactly the masks that `new` builds for lengths from 1 on have a length,
      and it is that one; all others are refused. */
  lemma NetmaskLengthIff(width: nat, netmask: nat, length: nat)
    requires width > 0 && netmask < Pow2(width)
    ensures NetmaskLength(width, netmask) == Ok(length) <==>
            1 <= length <= width && netmask == Mask(width, width - length)
  {
    Contiguous(width, netmask);
    hide TrailingZeros, CountZeros, LeadingZeros, Mask;
    var host := TrailingZeros(width, netmask);
    if netmask == Mask(width, host) {
      MaskZeros(width, host);
    }
    if 1 <= length <= width && netmask == Mask(width, width - length) {
      TrailingZerosOfMask(width, width - length);
    }
  }

  /** The zeros of a mask, and of its complement, as far as they lead. */
  lemma MaskZeros(width: nat, host: nat)
    requires width > 0 && host <= width
    ensures LeadingZeros(width, Mask(width, host)) == 0 <==> host < width
    ensures LeadingZeros(width, Not(width, Mask(width, host))) == width - host
  {
    TopBit(width, Mask(width, host));
    LeadingZerosOfOnes(width, host);
    if host < width {
      Pow2Grows(host, width - 1);
    }
  }

  ghost predicate OfLength(width: nat, netmask: nat, length: nat) {
    1 <= length <= width && netmask == Mask(width, width - length)
  }

  /** A range made from a netmask has just that mask. */
  lemma WithNetmaskKeepsMask(width: nat, address: nat, netmask: nat)
    requires width > 0 && netmask < Pow2(width)
    ensures WithNetmask(width, address, netmask) ==
            if exists length :: OfLength(width, netmask, length)
            then Ok(Cidr(width, address, netmask)) else Err(InvalidPrefixLength)
  {
    hide New, NetmaskLength, Mask;
    forall length: nat
      ensures NetmaskLength(width, netmask) == Ok(length) <==> OfLength(width, netmask, length)
    {
      NetmaskLengthIff(width, netmask, length);
    }
    if NetmaskLength(width, netmask).Ok? {
      assert OfLength(width, netmask, NetmaskLength(width, netmask).value);
      NewMask(width, address, NetmaskLength(width, netmask).value);
    } else {
      LengthError(width, netmask);
    }
  }

  lemma LengthError(width: nat, netmask: nat)
    requires netmask < Pow2(width)
    ensures NetmaskLength(width, netmask).Err? ==> NetmaskLength(width, netmask).error == InvalidPrefixLength
  {
  }

  // ---- what a range contains ----

  /** The `host` low bits. */
  function Low(host: nat, a: nat): (r: nat)
    ensures r <= a && r < Pow2(host)
  {
    if host == 0 then 0 else 2 * Low(host - 1, Half(a)) + if Odd(a) then 1 else 0
  }

  lemma {:induction false} AndMask(width: nat, host: nat, a: nat)
    requires host <= width && a < Pow2(width)
    ensures And(width, Mask(width, host), a) == a - Low(host, a)
    decreases width
  {
    hide Half, Odd, Mask;
    if width > 0 {
      MaskBits(width, host);
      AndMask(width - 1, if host == 0 then 0 else host - 1, Half(a));
    }
  }

  lemma {:induction false} OrOnes(width: nat, host: nat, n: nat)
    requires host <= width && n < Pow2(width) && Low(host, n) == 0
    ensures Or(width, n, Ones(host)) == n + Ones(host)
    decreases width
  {
    if width > 0 {
      if host == 0 {
        OrOnes(width - 1, 0, Half(n));
      } else {
        OrOnes(width - 1, host - 1, Half(n));
        assert Ones(host) == 2 * Ones(host - 1) + 1;
      }
    }
  }

  lemma {:induction false} LowOfSum(host: nat, n: nat, d: nat)
    requires Low(host, n) == 0 && d < Pow2(host)
    ensures Low(host, n + d) == d
  {
    if host > 0 {
      assert !Odd(n) && Half(n + d) == Half(n) + Half(d);
      LowOfSum(host - 1, Half(n), Half(d));
    }
  }

  lemma {:induction false} LowCleared(host: nat, a: nat)
    ensures Low(host, a - Low(host, a)) == 0
  {
    if host > 0 {
      LowCleared(host - 1, Half(a));
      assert Half(a - Low(host, a)) == Half(a) - Low(host - 1, Half(a));
    }
  }

  /** A range with `host` low bits free. */
  ghost predicate HasHost(c: Cidr, host: nat) {
    host <= c.width && c.address < Pow2(c.width) && c.mask == Mask(c.width, host)
  }

  lemma Bounds(c: Cidr, host: nat)
    requires HasHost(c, host)
    ensures c.Valid() && c.Length() == c.width - host && c.Size() == Pow2(host)
    ensures c.Network() == c.address - Low(host, c.address)
    ensures c.Broadcast() == c.Network() + Pow2(host) - 1 < Pow2(c.width)
    ensures Low(host, c.Network()) == 0
  {
    LengthOfMask(c, host);
    AndMask(c.width, host, c.address);
    hide Half, Odd, And, Or, LeadingZeros;
    LowCleared(host, c.address);
    OrOnes(c.width, host, c.Network());
    BelowTop(c.width, host, c.Network());
  }

  lemma {:induction false} BelowTop(width: nat, host: nat, n: nat)
    requires host <= width && n < Pow2(width) && Low(host, n) == 0
    ensures n + Pow2(host) <= Pow2(width)
  {
    if host > 0 {
      BelowTop(width - 1, host - 1, Half(n));
    }
  }

  /** The numbers with the same bits above the `host` low ones are a block. */
  lemma BlockIff(host: nat, n: nat, a: nat)
    requires Low(host, n) == 0
    ensures a - Low(host, a) == n <==> n <= a < n + Pow2(host)
  {
    if n <= a < n + Pow2(host) {
      LowOfSum(host, n, a - n);
    }
  }

  /** Membership is order: from the network address to the broadcast address. */
  lemma ContainsIff(c: Cidr, host: nat, a: nat)
    requires HasHost(c, host) && a < Pow2(c.width)
    ensures c.Valid()
    ensures c.Contains(a) <==> c.Network() <= a <= c.Broadcast()
  {
    Bounds(c, host);
    AndMask(c.width, host, a);
    hide And, Low, Pow2, Mask, Cidr.Broadcast;
    BlockIff(host, c.Network(), a);
  }

  /** All of it for a range made by `new`: it holds its own address, as many
      addresses as the length leaves bits, and begins at a multiple of that. */
  lemma RangeOfNew(width: nat, address: nat, length: nat, a: nat)
    requires address < Pow2(width) && a < Pow2(width) && length <= width
    ensures New(width, address, length).Ok?
    ensures var c := New(width, address, length).value;
      var host := if length == 0 then 0 else width - length;
      && HasHost(c, host) && c.Valid() && c.Length() <= width
      && (c.Contains(a) <==> c.Network() <= a <= c.Broadcast())
      && c.Network() <= address <= c.Broadcast() && Low(host, c.Network()) == 0
      && c.Broadcast() - c.Network() + 1 == c.Size() == Pow2(host)
  {
    var host := if length == 0 then 0 else width - length;
    NewMask(width, address, length);
    Bounds(New(width, address, length).value, host);
    ContainsIff(New(width, address, length).value, host, a);
  }

  /** The size fits a `usize` exactly if fewer than 64 bits are free. */
  lemma SizeFits(c: Cidr, host: nat)
    requires HasHost(c, host)
    ensures c.Valid() && c.Length() <= c.width
    ensures c.Size() < Pow2(USIZE_BITS) <==> host < USIZE_BITS
  {
    Bounds(c, host);
    if host < USIZE_BITS {
      Pow2Grows(host, USIZE_BITS);
    } else {
      Pow2Grows(USIZE_BITS, host);
    }
  }

  // ---- iterating ----

  /** Counts with words of `width` bits. */
  class CidrIterator {
    const width: nat
    var next: Option<nat>
    const end: nat

    ghost predicate Valid()
      reads this
    {
      end < Pow2(width) && (next.Some? ==> next.value <= end)
    }

    /** The addresses still to come. */
    ghost function Rest(): seq<nat>
      requires Valid()
      reads this
    {
      if next.None? then [] else Range(next.value, end + 1 - next.value)
    }

    /** The size is cast to a word of the address's width before one is taken
        off, and both wrap: a range of all addresses ends at the last one. */
    constructor (width: nat, start: nat, size: nat)
      requires size >= 1 && start + (size - 1) < Pow2(width)
      ensures Valid() && Rest() == Range(start, size)
    {
      this.width := width;
      next := Some(start);
      end := start + if Wrapped(width, size) == 0 then Ones(width) else Wrapped(width, size) - 1;
    }

    method Next() returns (a: Option<nat>)
      requires Valid()
      modifies this`next
      ensures Valid()
      ensures a == if old(Rest()) == [] then None else Some(old(Rest())[0])
      ensures Rest() == if old(Rest()) == [] then [] else old(Rest())[1..]
      ensures a.Some? ==> a.value < Pow2(width)
    {
      a := next;
      if next.Some? {
        RangeStep(next.value, end + 1 - next.value);
        next := if next.value == end then None else Some(next.value + 1);
      }
    }
  }

  lemma NextOfRest(all: seq<nat>, rest: seq<nat>)
    ensures if rest == [] then all + rest == all else all + rest == all + [rest[0]] + rest[1..]
  {
  }

  function Range(start: nat, size: nat): seq<nat>
    decreases size
  {
    if size == 0 then [] else [start] + Range(start + 1, size - 1)
  }

  lemma RangeStep(start: nat, size: nat)
    requires size > 0
    ensures Range(start, size)[0] == start && Range(start, size)[1..] == Range(start + 1, size - 1)
  {
  }

  /** All addresses of a range, by its iterator. A `usize` has to hold their
      number. */
  method Collect(c: Cidr, host: nat) returns (all: seq<nat>)
    requires HasHost(c, host) && host < USIZE_BITS
    ensures c.Valid() && c.Length() <= c.width
    ensures all == Range(c.Network(), c.Size())
  {
    Bounds(c, host);
    hide Range, Pow2, Low, Cidr.Network, Cidr.Size, Cidr.Length, Cidr.Broadcast;
    var iter := new CidrIterator(c.width, c.Network(), c.Size());
    ghost var goal := iter.Rest();
    all := [];
    var a := iter.Next();
    while a.Some?
      invariant iter.Valid()
      invariant goal == if a.Some? then all + [a.value] + iter.Rest() else all
      decreases a.Some?, |iter.Rest()|
    {
      all := all + [a.value];
      ghost var rest := iter.Rest();
      NextOfRest(all, rest);
      a := iter.Next();
    }
  }

  /** The iterator's list is ascending without gaps, and has in it exactly what
      the range contains. */
  lemma CollectsContained(c: Cidr, host: nat, a: nat)
    requires HasHost(c, host) && a < Pow2(c.width)
    ensures c.Valid() && c.Length() <= c.width
    ensures |Range(c.Network(), c.Size())| == c.Size()
    ensures forall i | 0 <= i < c.Size() :: Range(c.Network(), c.Size())[i] == c.Network() + i
    ensures a in Range(c.Network(), c.Size()) <==> c.Contains(a)
  {
    Bounds(c, host);
    ContainsIff(c, host, a);
    var all := Range(c.Network(), c.Size());
    RangeAt(c.Network(), c.Size());
    if c.Contains(a) {
      assert all[a - c.Network()] == a;
    }
  }

  lemma {:induction false} RangeAt(start: nat, size: nat)
    ensures |Range(start, size)| == size
    ensures forall i | 0 <= i < size :: Range(start, size)[i] == start + i
    decreases size
  {
    if size > 0 {
      RangeAt(start + 1, size - 1);
    }
  }
}
