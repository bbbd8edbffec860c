/** The Internet checksum, in full and by incremental update
    (capsule/src/packets/checksum.rs). */
module Checksums {
  import opened Bytes
  import opened Wrappers

  // ---- one's-complement sums ----

  /** The sum of the big-endian 16-bit words; an odd last byte is padded. */
  function WordSum(data: seq<U8>): nat {
    if |data| == 0 then 0
    else if |data| == 1 then 0x100 * data[0]
    else Word(data[0], data[1]) + WordSum(data[2..])
  }

  function Sum(words: seq<U16>): nat {
    if words == [] then 0 else words[0] + Sum(words[1..])
  }

  /** A sum with all carries folded in: the residue modulo 65535, where zero
      stands only for a sum that is zero and all ones for any other multiple. */
  function Fold(n: nat): U16 {
    if n == 0 then 0 else (n - 1) % 0xFFFF + 1
  }

  /** Equal as one's-complement numbers. */
  ghost predicate Congruent(m: int, n: int) {
    m % 0xFFFF == n % 0xFFFF
  }

  function Not(v: U16): U16 {
    0xFFFF - v
  }

  function Checksum(pseudoHeaderSum: nat, data: seq<U8>): U16 {
    Not(Fold(pseudoHeaderSum + WordSum(data)))
  }

  function IncTotal(oldChecksum: U16, olds: seq<U16>, news: seq<U16>): nat
    requires |olds| == |news|
    decreases |olds|
  {
    if olds == [] then Not(oldChecksum)
    else Not(olds[0]) + news[0] + IncTotal(oldChecksum, olds[1..], news[1..])
  }

  function IncChecksum(oldChecksum: U16, olds: seq<U16>, news: seq<U16>): U16
    requires |olds| == |news|
  {
    Not(Fold(IncTotal(oldChecksum, olds, news)))
  }

  // ---- the loops ----

  method FoldCarries(n: U32) returns (r: U16)
    ensures r == Fold(n)
  {
    var sum := n;
    while sum / 0x1_0000 != 0
      invariant 0 <= sum < 0x1_0000_0000
      invariant Fold(sum) == Fold(n)
      decreases sum
    {
      FoldStep(sum);
      sum := sum / 0x1_0000 + sum % 0x1_0000;
    }
    FoldSmall(sum);
    r := sum;
  }

  lemma FoldSmall(n: U16)
    ensures Fold(n) == n
  {
  }

  lemma FoldStep(n: nat)
    requires n >= 0x1_0000
    ensures Fold(n / 0x1_0000 + n % 0x1_0000) == Fold(n)
  {
    FoldModulus(n / 0x1_0000 + n % 0x1_0000, n / 0x1_0000);
  }

  lemma {:induction false} FoldModulus(n: nat, k: nat)
    requires n > 0
    ensures Fold(n + k * 0xFFFF) == Fold(n)
    decreases k
  {
    if k > 0 {
      FoldModulus(n, k - 1);
      assert (n + k * 0xFFFF - 1) % 0xFFFF == (n + (k - 1) * 0xFFFF - 1) % 0xFFFF;
    }
  }

  /** Each byte count a `u16` length can name fits the `u32` accumulator. */
  method Compute(pseudoHeaderSum: U16, payload: seq<U8>) returns (c: U16)
    requires |payload| <= 0xFFFF
    ensures c == Checksum(pseudoHeaderSum, payload)
  {
    var len := |payload|;
    var data := payload;
    var checksum: U32 := pseudoHeaderSum;
    if len % 2 > 0 {
      checksum := checksum + Word(payload[len - 1], 0);
      data := payload[..len - 1];
      WordSumAppend(data, [payload[len - 1]]);
      assert data + [payload[len - 1]] == payload;
    }
    hide Fold;
    ghost var start := checksum;
    var i := 0;
    while i < len / 2
      invariant 0 <= i <= len / 2
      invariant checksum == start + WordSum(data[..2 * i])
      invariant WordSum(data[..2 * i]) <= i * 0xFFFF
    {
      WordSumStep(data, 2 * i);
      checksum := checksum + Get16(data, 2 * i);
      i := i + 1;
    }
    assert data[..2 * i] == data;
    var folded := FoldCarries(checksum);
    c := Not(folded);
  }

  /** Pairs the old and new words; the longer list is cut to the shorter. */
  method ComputeInc(oldChecksum: U16, oldValue: seq<U16>, newValue: seq<U16>) returns (c: U16)
    requires |oldValue| <= 0x7FFF || |newValue| <= 0x7FFF
    ensures var n := if |oldValue| <= |newValue| then |oldValue| else |newValue|;
            c == IncChecksum(oldChecksum, oldValue[..n], newValue[..n])
  {
    var n := if |oldValue| <= |newValue| then |oldValue| else |newValue|;
    ghost var olds, news := oldValue[..n], newValue[..n];
    var checksum: U32 := Not(oldChecksum);
    var i := 0;
    while i < n
      invariant 0 <= i <= n
      invariant checksum <= (2 * i + 1) * 0xFFFF
      invariant checksum + IncTotal(oldChecksum, olds[i..], news[i..]) - Not(oldChecksum) ==
                IncTotal(oldChecksum, olds, news)
    {
      checksum := checksum + Not(oldValue[i]) + newValue[i];
      i := i + 1;
    }
    var folded := FoldCarries(checksum);
    c := Not(folded);
  }

  lemma WordSumPair(hi: U8, lo: U8)
    ensures WordSum([hi, lo]) == Word(hi, lo)
  {
    assert [hi, lo][2..] == [];
  }

  lemma WordSumStep(data: seq<U8>, i: nat)
    requires i % 2 == 0 && i + 2 <= |data|
    ensures WordSum(data[..i + 2]) == WordSum(data[..i]) + Get16(data, i)
  {
    WordSumAppend(data[..i], [data[i], data[i + 1]]);
    WordSumPair(data[i], data[i + 1]);
    assert data[..i + 2] == data[..i] + [data[i], data[i + 1]];
  }

  lemma {:induction false} WordSumAppend(a: seq<U8>, b: seq<U8>)
    requires |a| % 2 == 0
    ensures WordSum(a + b) == WordSum(a) + WordSum(b)
  {
    if a == [] {
      assert a + b == b;
    } else {
      WordSumAppend(a[2..], b);
      assert (a + b)[2..] == a[2..] + b;
    }
  }

  lemma WordSumAround(pre: seq<U8>, hi: U8, lo: U8, post: seq<U8>)
    requires |pre| % 2 == 0
    ensures WordSum(pre + ([hi, lo] + post)) == WordSum(pre) + Word(hi, lo) + WordSum(post)
  {
    WordSumAppend(pre, [hi, lo] + post);
    WordSumAppend([hi, lo], post);
    WordSumPair(hi, lo);
  }

  lemma PutAround(data: seq<U8>, off: nat, v: U16)
    requires off + 2 <= |data|
    ensures data == data[..off] + ([data[off], data[off + 1]] + data[off + 2..])
    ensures var data' := Put16(data, off, v);
      data' == data[..off] + ([data'[off], data'[off + 1]] + data[off + 2..])
  {
  }

  lemma WordSumPut(data: seq<U8>, off: nat, v: U16)
    requires off % 2 == 0 && off + 2 <= |data|
    ensures WordSum(Put16(data, off, v)) == WordSum(data) - Get16(data, off) + v
  {
    hide WordSum, Put16;
    var data', pre, post := Put16(data, off, v), data[..off], data[off + 2..];
    PutAround(data, off, v);
    WordSumAround(pre, data[off], data[off + 1], post);
    WordSumAround(pre, data'[off], data'[off + 1], post);
  }

  // ---- what the checksum promises ----

  /** The pseudo-header may be folded before the payload is added. */
  lemma FoldFirst(a: nat, b: nat)
    ensures Fold(Fold(a) + b) == Fold(a + b)
  {
    if a > 0 {
      FoldModulus(Fold(a) + b, (a - 1) / 0xFFFF);
    }
  }

  /** Verification by a receiver, section 1 step 3 of RFC 1071: a message that
      is not all zeros verifies exactly if its field holds the checksum of the
      rest, in either representation of zero. */
  lemma VerifiesIff(pseudoHeaderSum: nat, data: seq<U8>, off: nat, field: U16)
    requires off % 2 == 0 && off + 2 <= |data| && Get16(data, off) == 0
    ensures Checksum(pseudoHeaderSum, Put16(data, off, field)) == 0 <==>
            && Congruent(field, Checksum(pseudoHeaderSum, data))
            && pseudoHeaderSum + WordSum(data) + field > 0
  {
    hide Fold, Not, Put16, Get16, WordSum;
    WordSumPut(data, off, field);
    FieldCancels(pseudoHeaderSum + WordSum(data), field);
  }

  lemma FieldCancels(total: nat, field: U16)
    ensures Not(Fold(total + field)) == 0 <==>
            Congruent(field, Not(Fold(total))) && total + field > 0
  {
    NotFold(total);
    ModNegated(total, field);
    ModNegated(1, total + field - 1);
  }

  /** Storing the checksum makes the message verify, for every payload. */
  lemma StoredVerifies(pseudoHeaderSum: nat, data: seq<U8>, off: nat)
    requires off % 2 == 0 && off + 2 <= |data| && Get16(data, off) == 0
    ensures Checksum(pseudoHeaderSum, Put16(data, off, Checksum(pseudoHeaderSum, data))) == 0
  {
    var c := Checksum(pseudoHeaderSum, data);
    assert pseudoHeaderSum + WordSum(data) + c > 0;
    VerifiesIff(pseudoHeaderSum, data, off, c);
  }

  /** An odd last octet counts as if a zero followed it. */
  lemma {:induction false} OddPadded(data: seq<U8>)
    requires |data| % 2 == 1
    ensures WordSum(data) == WordSum(data + [0])
  {
    if |data| == 1 {
      WordSumPair(data[0], 0);
      assert data + [0] == [data[0], 0];
    } else {
      OddPadded(data[2..]);
      assert (data + [0])[2..] == data[2..] + [0];
    }
  }

  function Words(data: seq<U8>): seq<U16> {
    if |data| == 0 then []
    else if |data| == 1 then [Word(data[0], 0)]
    else [Get16(data, 0)] + Words(data[2..])
  }

  lemma {:induction false} WordSumIsSum(data: seq<U8>)
    ensures WordSum(data) == Sum(Words(data))
  {
    if |data| >= 2 {
      WordSumIsSum(data[2..]);
    }
  }

  lemma {:induction false} SumAppend(a: seq<U16>, b: seq<U16>)
    ensures Sum(a + b) == Sum(a) + Sum(b)
  {
    if a == [] {
      assert a + b == b;
    } else {
      SumAppend(a[1..], b);
      assert (a + b)[1..] == a[1..] + b;
    }
  }

  lemma TakeOne(a: seq<U16>, b: seq<U16>) returns (i: nat)
    requires multiset(a) == multiset(b) && a != []
    ensures i < |b| && b[i] == a[0]
    ensures multiset(a[1..]) == multiset(b[..i] + b[i + 1..])
  {
    assert a[0] in multiset(b);
    i :| 0 <= i < |b| && b[i] == a[0];
    var rest := b[..i] + b[i + 1..];
    assert a == [a[0]] + a[1..];
    assert b == b[..i] + ([b[i]] + b[i + 1..]);
    assert multiset(b[..i] + ([b[i]] + b[i + 1..])) == multiset([b[i]]) + multiset(rest);
    assert multiset(a) == multiset([a[0]]) + multiset(a[1..]);
    assert multiset(b) == multiset([a[0]]) + multiset(rest);
    assert multiset(a[1..]) == multiset(b) - multiset([a[0]]) == multiset(rest);
  }

  lemma {:induction false} SumPermuted(a: seq<U16>, b: seq<U16>)
    requires multiset(a) == multiset(b)
    ensures Sum(a) == Sum(b)
    decreases |a|
  {
    if a == [] {
      assert |b| == |multiset(b)| == 0;
    } else {
      var i := TakeOne(a, b);
      assert b == b[..i] + ([b[i]] + b[i + 1..]);
      SumPermuted(a[1..], b[..i] + b[i + 1..]);
      SumAppend(b[..i], b[i + 1..]);
      SumAppend(b[..i], [b[i]] + b[i + 1..]);
      SumAppend([b[i]], b[i + 1..]);
      assert Sum([b[i]]) == b[i] by {
        assert [b[i]][1..] == [];
      }
    }
  }

  /** The order of the words does not matter. */
  lemma OrderIndependent(pseudoHeaderSum: nat, data: seq<U8>, data': seq<U8>)
    requires multiset(Words(data)) == multiset(Words(data'))
    ensures Checksum(pseudoHeaderSum, data) == Checksum(pseudoHeaderSum, data')
  {
    WordSumIsSum(data);
    WordSumIsSum(data');
    SumPermuted(Words(data), Words(data'));
  }

  // ---- incremental update, Equation 3 of RFC 1624 ----

  lemma {:induction false} IncTotalSum(oldChecksum: U16, olds: seq<U16>, news: seq<U16>)
    requires |olds| == |news|
    ensures IncTotal(oldChecksum, olds, news) == Not(oldChecksum) + |olds| * 0xFFFF - Sum(olds) + Sum(news)
    ensures Sum(olds) <= |olds| * 0xFFFF
    decreases |olds|
  {
    if olds != [] {
      IncTotalSum(oldChecksum, olds[1..], news[1..]);
    }
  }

  /** Whatever checksum was stored, an update moves it by exactly the change of
      the sum: the result is right if and only if the old value was. */
  lemma IncrementalTransfers(stored: U16, total: nat, olds: seq<U16>, news: seq<U16>)
    requires |olds| == |news| && total >= Sum(olds)
    ensures var total' := total - Sum(olds) + Sum(news);
            Congruent(IncChecksum(stored, olds, news), Not(Fold(total'))) <==> Congruent(stored, Not(Fold(total)))
  {
    IncTotalSum(stored, olds, news);
    var total' := total - Sum(olds) + Sum(news);
    NotFold(IncTotal(stored, olds, news));
    NotFold(total');
    NotFold(total);
    NotFold(Not(stored));
    FoldSmall(Not(stored));
    var d := IncTotal(stored, olds, news) - |olds| * 0xFFFF - total';
    assert d == Not(stored) - total;
    ModEqual(IncTotal(stored, olds, news), total', |olds|, d);
    ModEqual(Not(stored), total, 0, d);
  }

  lemma NotFold(n: nat)
    ensures Not(Fold(n)) % 0xFFFF == (0 - n) % 0xFFFF
  {
  }

  lemma ModNegated(m: int, n: int)
    ensures (m + n) % 0xFFFF == 0 <==> n % 0xFFFF == (0 - m) % 0xFFFF
  {
  }

  lemma ModEqual(m: int, n: int, k: int, d: int)
    requires m == n + k * 0xFFFF + d
    ensures (0 - m) % 0xFFFF == (0 - n) % 0xFFFF <==> d % 0xFFFF == 0
  {
  }

  /** Updating a current checksum gives the recomputed one, except that it
      never gives all ones: the two differ exactly when something changed
      and everything summed is now zero. */
  lemma IncrementalCurrent(total: nat, olds: seq<U16>, news: seq<U16>)
    requires |olds| == |news| && total >= Sum(olds)
    ensures var total' := total - Sum(olds) + Sum(news);
            IncChecksum(Not(Fold(total)), olds, news) == Not(Fold(total')) <==> olds == [] || total' > 0
  {
    hide Fold, Sum, Not;
    IncTotalSum(Not(Fold(total)), olds, news);
    IncrementalTransfers(Not(Fold(total)), total, olds, news);
    NothingReplaced(total, olds, news);
    if olds != [] {
      SameResidue(IncTotal(Not(Fold(total)), olds, news), total - Sum(olds) + Sum(news));
    }
  }

  lemma NothingReplaced(total: nat, olds: seq<U16>, news: seq<U16>)
    requires |olds| == |news| && total >= Sum(olds)
    ensures olds == [] ==> IncChecksum(Not(Fold(total)), olds, news) == Not(Fold(total)) && Sum(olds) == Sum(news) == 0
    ensures olds != [] ==> IncTotal(Not(Fold(total)), olds, news) > 0
  {
    IncTotalSum(Not(Fold(total)), olds, news);
    FoldSmall(Fold(total));
  }

  lemma SameResidue(m: nat, n: nat)
    requires m > 0 && Congruent(Not(Fold(m)), Not(Fold(n)))
    ensures Not(Fold(m)) == Not(Fold(n)) <==> n > 0
  {
    if n > 0 {
      assert 1 <= Fold(m) && 1 <= Fold(n);
    }
  }

  // ---- replacing words of a payload ----

  /** Aligned, in range and pairwise different. */
  ghost predicate Fields(data: seq<U8>, offs: seq<nat>) {
    && (forall i | 0 <= i < |offs| :: offs[i] % 2 == 0 && offs[i] + 2 <= |data|)
    && (forall i, j | 0 <= i < j < |offs| :: offs[i] != offs[j])
  }

  ghost function WordsAt(data: seq<U8>, offs: seq<nat>): (r: seq<U16>)
    requires Fields(data, offs)
    ensures |r| == |offs|
  {
    seq(|offs|, i requires 0 <= i < |offs| => Get16(data, offs[i]))
  }

  ghost function PutWords(data: seq<U8>, offs: seq<nat>, news: seq<U16>): (r: seq<U8>)
    requires Fields(data, offs) && |news| == |offs|
    ensures |r| == |data|
    decreases |offs|
  {
    if offs == [] then data
    else PutWords(Put16(data, offs[0], news[0]), offs[1..], news[1..])
  }

  lemma {:induction false} WordSumPutWords(data: seq<U8>, offs: seq<nat>, news: seq<U16>)
    requires Fields(data, offs) && |news| == |offs|
    ensures WordSum(PutWords(data, offs, news)) + Sum(WordsAt(data, offs)) == WordSum(data) + Sum(news)
    decreases |offs|
  {
    hide WordSum;
    if offs != [] {
      var data' := Put16(data, offs[0], news[0]);
      WordSumPut(data, offs[0], news[0]);
      WordSumPutWords(data', offs[1..], news[1..]);
      FieldsApart(data, offs, news[0]);
    }
  }

  lemma FieldsApart(data: seq<U8>, offs: seq<nat>, v: U16)
    requires Fields(data, offs) && offs != []
    ensures WordsAt(data, offs)[1..] == WordsAt(Put16(data, offs[0], v), offs[1..])
  {
  }

  /** Updating the checksum for any set of replaced 16-bit words is the same
      as summing the new payload from scratch, but for the all-zero sum. */
  lemma IncrementalIsFull(pseudoHeaderSum: nat, data: seq<U8>, offs: seq<nat>, news: seq<U16>)
    requires Fields(data, offs) && |news| == |offs|
    ensures var data' := PutWords(data, offs, news);
            var inc := IncChecksum(Checksum(pseudoHeaderSum, data), WordsAt(data, offs), news);
            && Congruent(inc, Checksum(pseudoHeaderSum, data'))
            && (inc == Checksum(pseudoHeaderSum, data') <==> offs == [] || pseudoHeaderSum + WordSum(data') > 0)
  {
    hide Fold, WordSum, WordsAt, Sum;
    var total, olds := pseudoHeaderSum + WordSum(data), WordsAt(data, offs);
    WordSumPutWords(data, offs, news);
    SumOfFields(data, offs);
    IncrementalCurrent(total, olds, news);
    IncrementalTransfers(Not(Fold(total)), total, olds, news);
  }

  lemma SumOfFields(data: seq<U8>, offs: seq<nat>)
    requires Fields(data, offs)
    ensures Sum(WordsAt(data, offs)) <= WordSum(data)
  {
    WordSumPutWords(data, offs, seq(|offs|, i => 0));
    SumOfZeros(|offs|);
  }

  lemma {:induction false} SumOfZeros(n: nat)
    ensures Sum(seq(n, i => 0)) == 0
  {
    if n > 0 {
      SumOfZeros(n - 1);
      assert seq(n, i => 0)[1..] == seq(n - 1, i => 0);
    }
  }

  // ---- pseudo-headers and addresses ----

  datatype IpAddr =
    | V4(octets4: seq<U8>)
    | V6(octets6: seq<U8>)
  {
    ghost predicate Valid() {
      if V4? then |octets4| == 4 else |octets6| == 16
    }

    function Octets(): seq<U8> {
      if V4? then octets4 else octets6
    }
  }

  datatype PseudoHeader = PseudoHeader(src: IpAddr, dst: IpAddr, packetLen: U16, protocol: U8)
  {
    /** Addresses of one family, as the two variants of the source demand. */
    ghost predicate Valid() {
      src.Valid() && dst.Valid() && src.V4? == dst.V4?
    }

    ghost function Total(): nat {
      WordSum(src.Octets()) + WordSum(dst.Octets()) + packetLen + protocol
    }

    /** The octets of the pseudo-header, for IPv4 as in section 3.1 of RFC 793 and
        for IPv6 as in section 8.1 of RFC 8200. */
    function Layout(): (r: seq<U8>)
      ensures |r| == |src.Octets()| + |dst.Octets()| + if src.V4? then 4 else 8
    {
      var length := [packetLen / 0x100, packetLen % 0x100];
      src.Octets() + dst.Octets() +
      if src.V4? then [0, protocol] + length else [0, 0] + length + [0, 0, 0, protocol]
    }

    /** What is summed is the words of those octets. */
    lemma TotalIsLayout()
      requires Valid()
      ensures Total() == WordSum(Layout()) && |Layout()| % 2 == 0
    {
      var s, d, hi, lo := src.Octets(), dst.Octets(), packetLen / 0x100, packetLen % 0x100;
      if src.V4? {
        WordSumWords(s, d, [0, protocol] + [hi, lo]);
        WordSumPairs(0, protocol, [hi, lo]);
        WordSumPair(hi, lo);
      } else {
        var rest := [0, 0, 0, protocol];
        WordSumWords(s, d, [0, 0] + [hi, lo] + rest);
        assert [0, 0] + [hi, lo] + rest == [0, 0] + ([hi, lo] + rest);
        WordSumPairs(0, 0, [hi, lo] + rest);
        WordSumPairs(hi, lo, rest);
        assert rest == [0, 0] + [0, protocol];
        WordSumPairs(0, 0, [0, protocol]);
        WordSumPair(0, protocol);
      }
    }

    method FoldedSum() returns (r: U16)
      requires Valid()
      ensures r == Fold(Total()) == Fold(WordSum(Layout()))
    {
      TotalIsLayout();
      var s := SegmentSum(src.Octets());
      var d := SegmentSum(dst.Octets());
      r := FoldCarries(s + d + packetLen + protocol);
    }
  }

  lemma WordSumPairs(hi: U8, lo: U8, rest: seq<U8>)
    ensures WordSum([hi, lo] + rest) == Word(hi, lo) + WordSum(rest)
  {
    WordSumAppend([hi, lo], rest);
    WordSumPair(hi, lo);
  }

  lemma WordSumWords(s: seq<U8>, d: seq<U8>, rest: seq<U8>)
    requires |s| % 2 == 0 && |d| % 2 == 0
    ensures WordSum(s + d + rest) == WordSum(s) + WordSum(d) + WordSum(rest)
  {
    WordSumAppend(s + d, rest);
    WordSumAppend(s, d);
  }

  method SegmentSum(octets: seq<U8>) returns (sum: U32)
    requires |octets| == 4 || |octets| == 16
    ensures sum == WordSum(octets) <= 8 * 0xFFFF
  {
    hide Fold;
    sum := 0;
    var i := 0;
    while i < |octets|
      invariant 0 <= i <= |octets| && i % 2 == 0
      invariant sum == WordSum(octets[..i]) && 2 * sum <= i * 0xFFFF
    {
      WordSumStep(octets, i);
      sum := sum + Get16(octets, i);
      i := i + 2;
    }
    assert octets[..i] == octets;
  }

  lemma {:induction false} WordsLength(data: seq<U8>)
    ensures |Words(data)| == (|data| + 1) / 2
  {
    if |data| >= 2 {
      WordsLength(data[2..]);
    }
  }

  datatype AddrError = IpAddrMismatch

  function ComputeWithIpAddr(oldChecksum: U16, olds: IpAddr, news: IpAddr): Result<U16, AddrError>
    requires olds.Valid() && news.Valid()
  {
    WordsLength(olds.Octets());
    WordsLength(news.Octets());
    if olds.V4? == news.V4? then
      Ok(IncChecksum(oldChecksum, Words(olds.Octets()), Words(news.Octets())))
    else
      Err(IpAddrMismatch)
  }
}
