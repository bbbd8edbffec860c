/** Handing packets to a device, and returning the ones it will not take
    (capsule/src/dpdk). */
module Transmits {
  import opened Wrappers
  import opened Batches

  /** The number of packets is passed in 16 bits to a port, and in 32 bits to the
      kernel interface. */
  const PORT_WIDTH := 0x1_0000

  // ---- returning memory ----

  datatype Put = Put(pool: nat, packets: seq<Packet>)

  class Pools {
    var puts: seq<Put>

    method PutBulk(pool: nat, packets: seq<Packet>)
      modifies this
      ensures puts == old(puts) + [Put(pool, packets)]
    {
      puts := puts + [Put(pool, packets)];
    }
  }

  /** The puts for `packets`, when `pending` are still to be put. */
  function Puts(pool: nat, pending: seq<Packet>, packets: seq<Packet>): seq<Put>
    decreases |packets|
  {
    if packets == [] then [Put(pool, pending)]
    else if packets[0].pool == pool then Puts(pool, pending + [packets[0]], packets[1..])
    else [Put(pool, pending)] + Puts(pool, [packets[0]], packets[1..])
  }

  function FreePuts(packets: seq<Packet>): seq<Put> {
    if packets == [] then [] else Puts(packets[0].pool, [], packets)
  }

  datatype Failure = EmptyBulk

  method FreeBulk(pools: Pools, packets: seq<Packet>) returns (r: Result<(), Failure>)
    modifies pools
    ensures r.Err? <==> packets == []
    ensures pools.puts == old(pools.puts) + FreePuts(packets)
  {
    if packets == [] {
      r := Err(EmptyBulk);
    } else {
      var toFree := [];
      var pool := packets[0].pool;
      var i := 0;
      while i < |packets|
        invariant 0 <= i <= |packets|
        invariant pools.puts + Puts(pool, toFree, packets[i..]) == old(pools.puts) + FreePuts(packets)
      {
        var packet := packets[i];
        assert packets[i..][1..] == packets[i + 1..];
        if packet.pool == pool {
          toFree := toFree + [packet];
        } else {
          ghost var rest := Puts(pool, [packet], packets[i + 1..]);
          assert pools.puts + ([Put(pool, toFree)] + rest) == (pools.puts + [Put(pool, toFree)]) + rest;
          pools.PutBulk(pool, toFree);
          toFree := [packet];
        }
        i := i + 1;
      }
      pools.PutBulk(pool, toFree);
      r := Ok(());
    }
  }

  function Returned(puts: seq<Put>): seq<Packet> {
    if puts == [] then [] else puts[0].packets + Returned(puts[1..])
  }

  /** Every packet is returned once, in order; no put is empty, and all go to
      the pool of the first packet. */
  lemma FreedOnce(packets: seq<Packet>)
    ensures Returned(FreePuts(packets)) == packets
    ensures forall put | put in FreePuts(packets) :: put.packets != [] && put.pool == packets[0].pool
  {
    if packets != [] {
      assert packets[0] == packets[..1][0];
      PutsOnce(packets[0].pool, packets[..1], packets[1..]);
      assert [] + [packets[0]] == packets[..1];
      assert packets[..1] + packets[1..] == packets;
    }
  }

  lemma {:induction false} PutsOnce(pool: nat, pending: seq<Packet>, packets: seq<Packet>)
    requires pending != []
    ensures Returned(Puts(pool, pending, packets)) == pending + packets
    ensures forall put | put in Puts(pool, pending, packets) :: put.packets != [] && put.pool == pool
    decreases |packets|
  {
    if packets != [] {
      if packets[0].pool == pool {
        PutsOnce(pool, pending + [packets[0]], packets[1..]);
        assert (pending + [packets[0]]) + packets[1..] == pending + packets;
      } else {
        PutsOnce(pool, [packets[0]], packets[1..]);
        assert [packets[0]] + packets[1..] == packets;
      }
    }
  }

  /** A put ends where a packet of another pool comes next: in every put only the
      first packet can be of another pool, and in every one but the first it is. */
  ghost predicate SplitAtOthers(puts: seq<Put>, pool: nat) {
    && (forall i, j | 0 <= i < |puts| && 0 < j < |puts[i].packets| :: puts[i].packets[j].pool == pool)
    && (forall i | 0 < i < |puts| && puts[i].packets != [] :: puts[i].packets[0].pool != pool)
  }

  lemma FreedSplit(packets: seq<Packet>)
    requires packets != []
    ensures SplitAtOthers(FreePuts(packets), packets[0].pool)
  {
    assert [] + [packets[0]] == [packets[0]];
    PutsSplit(packets[0].pool, [packets[0]], packets[1..]);
  }

  lemma {:induction false} PutsSplit(pool: nat, pending: seq<Packet>, packets: seq<Packet>)
    requires forall j | 0 < j < |pending| :: pending[j].pool == pool
    requires pending != []
    ensures SplitAtOthers(Puts(pool, pending, packets), pool)
    ensures Puts(pool, pending, packets) != []
    ensures Puts(pool, pending, packets)[0].packets != [] && Puts(pool, pending, packets)[0].packets[0] == pending[0]
    decreases |packets|
  {
    if packets != [] {
      if packets[0].pool == pool {
        PutsSplit(pool, pending + [packets[0]], packets[1..]);
      } else {
        PutsSplit(pool, [packets[0]], packets[1..]);
      }
    }
  }

  /** Memory goes back where it came from exactly if it is all of one pool. */
  lemma FreedToOwnPool(packets: seq<Packet>)
    ensures (forall put, p | put in FreePuts(packets) && p in put.packets :: p.pool == put.pool) <==>
            (forall p | p in packets :: p.pool == packets[0].pool)
  {
    FreedOnce(packets);
    forall p: Packet ensures p in packets <==> exists put :: put in FreePuts(packets) && p in put.packets {
      InReturned(FreePuts(packets), p);
    }
  }

  lemma {:induction false} InReturned(puts: seq<Put>, p: Packet)
    ensures p in Returned(puts) <==> exists put :: put in puts && p in put.packets
  {
    if puts != [] {
      InReturned(puts[1..], p);
      assert puts == [puts[0]] + puts[1..];
    }
  }

  // ---- sending ----

  /** A device, of which all that is known is that no burst takes more packets
      than it was offered. */
  class Device {
    const accepts: nat -> nat
    var calls: nat
    var sent: seq<Packet>

    constructor (accepts: nat -> nat)
      ensures this.accepts == accepts && calls == 0 && sent == []
    {
      this.accepts := accepts;
      calls, sent := 0, [];
    }

    method Burst(packets: seq<Packet>, toSend: nat) returns (n: nat)
      requires toSend <= |packets|
      modifies this
      ensures n == Taken(accepts, old(calls), toSend) && calls == old(calls) + 1
      ensures sent == old(sent) + packets[..n]
    {
      n := Taken(accepts, calls, toSend);
      calls := calls + 1;
      sent := sent + packets[..n];
    }
  }

  function Taken(accepts: nat -> nat, call: nat, toSend: nat): (n: nat)
    ensures n <= toSend
  {
    if accepts(call) <= toSend then accepts(call) else toSend
  }

  /** A count in an unsigned integer of so many values. */
  function Truncated(n: nat, width: nat): (r: nat)
    requires width > 0
    ensures r < width && r <= n && (n < width ==> r == n)
  {
    if n < width then n else Truncated(n - width, width)
  }

  /** How many packets were sent, and whether the others were freed. */
  datatype Outcome = Outcome(sent: nat, freed: bool)
  {
    function Plus(n: nat): Outcome {
      Outcome(n + sent, freed)
    }
  }

  function Sending(width: nat, accepts: nat -> nat, call: nat, n: nat): (out: Outcome)
    requires width > 0
    ensures out.sent <= n && (n > 0 && out.freed ==> out.sent < n)
    decreases n
  {
    var toSend := Truncated(n, width);
    var taken := Taken(accepts, call, toSend);
    if taken == 0 then Outcome(0, true)
    else if taken == toSend then Outcome(taken, false)
    else
      Sending(width, accepts, call + 1, n - taken).Plus(taken)
  }

  method Transmit(device: Device, pools: Pools, width: nat, packets: seq<Packet>) returns (r: Result<(), Failure>)
    requires width > 0
    modifies device, pools
    ensures r.Err? <==> packets == []
    ensures var out := Sending(width, device.accepts, old(device.calls), |packets|);
      && device.sent == old(device.sent) + packets[..out.sent]
      && pools.puts == old(pools.puts) + if out.freed then FreePuts(packets[out.sent..]) else []
  {
    hide Truncated, Taken, FreePuts;
    ghost var before, out := device.sent, Sending(width, device.accepts, device.calls, |packets|);
    var ptrs := packets;
    ghost var done: nat := 0;
    r := Ok(());
    var more := true;
    while more
      invariant done <= |packets| && ptrs == packets[done..]
      invariant device.sent == before + packets[..done]
      invariant more ==> r.Ok? && (done == 0 || ptrs != []) && pools.puts == old(pools.puts)
      invariant more ==> out == Sending(width, device.accepts, device.calls, |ptrs|).Plus(done)
      invariant !more ==> out.sent == done && (r.Err? <==> packets == []) &&
                          pools.puts == old(pools.puts) + if out.freed then FreePuts(ptrs) else []
      decreases more, |ptrs|
    {
      var toSend := Truncated(|ptrs|, width);
      var sent := device.Burst(ptrs, toSend);
      if sent > 0 {
        SentSoFar(before, packets, done, sent);
        done := done + sent;
        ptrs := ptrs[sent..];
        more := toSend - sent > 0;
      } else {
        r := FreeBulk(pools, ptrs);
        more := false;
      }
    }
  }

  lemma SentSoFar(before: seq<Packet>, packets: seq<Packet>, done: nat, n: nat)
    requires done + n <= |packets|
    ensures (before + packets[..done]) + packets[done..][..n] == before + packets[..done + n]
    ensures packets[done..][n..] == packets[done + n..]
  {
  }

  // ---- what the loop promises ----

  /** Either the rest is freed, or as many are sent as the width can tell. */
  lemma {:induction false} SentOrFreed(width: nat, accepts: nat -> nat, call: nat, n: nat)
    requires width > 0
    ensures var out := Sending(width, accepts, call, n);
      out.sent <= Truncated(n, width) && (!out.freed ==> out.sent == Truncated(n, width) > 0)
    decreases n
  {
    var taken := Taken(accepts, call, Truncated(n, width));
    if 0 < taken < Truncated(n, width) {
      SentOrFreed(width, accepts, call + 1, n - taken);
      TruncatedLess(n, width, taken);
    }
  }

  lemma {:induction false} TruncatedLess(n: nat, width: nat, taken: nat)
    requires width > 0 && taken <= Truncated(n, width)
    ensures Truncated(n - taken, width) == Truncated(n, width) - taken
    decreases n
  {
    if n >= width {
      TruncatedLess(n - width, width, taken);
    }
  }

  lemma {:induction false} TruncatedIsModulo(n: nat)
    ensures Truncated(n, PORT_WIDTH) == n % PORT_WIDTH
  {
    if n >= PORT_WIDTH {
      TruncatedIsModulo(n - PORT_WIDTH);
    }
  }

  /** What the device would take in `j` calls, were it offered enough. */
  function Willing(accepts: nat -> nat, call: nat, j: nat): nat
    decreases j
  {
    if j == 0 then 0 else accepts(call) + Willing(accepts, call + 1, j - 1)
  }

  /** The `j`-th call takes nothing, with some of `n` packets still to be sent. */
  ghost predicate Stalls(accepts: nat -> nat, call: nat, j: nat, n: nat) {
    accepts(call + j) == 0 && Willing(accepts, call, j) < n
  }

  /** Packets are freed if and only if none of the `m` can be offered or some call
      stalls, and then exactly those before such a call have been sent. */
  ghost predicate Persists(out: Outcome, accepts: nat -> nat, call: nat, m: nat) {
    && (out.freed <==> m == 0 || exists j: nat :: Stalls(accepts, call, j, m))
    && (!out.freed ==> out.sent == m)
    && (out.freed && m > 0 ==> exists j: nat :: Stalls(accepts, call, j, m) && out.sent == Willing(accepts, call, j))
  }

  /** The loop goes on until everything offered is sent or a burst takes nothing. */
  lemma {:induction false} FreedIffStalled(width: nat, accepts: nat -> nat, call: nat, n: nat)
    requires width > 0
    ensures Persists(Sending(width, accepts, call, n), accepts, call, Truncated(n, width))
    decreases n
  {
    var m := Truncated(n, width);
    var taken := Taken(accepts, call, m);
    if taken == 0 {
      assert m > 0 ==> Stalls(accepts, call, 0, m) && Willing(accepts, call, 0) == 0;
    } else if taken == m {
      forall j: nat ensures !Stalls(accepts, call, j, m) {}
    } else {
      TruncatedLess(n, width, taken);
      FreedIffStalled(width, accepts, call + 1, n - taken);
      PersistsBefore(Sending(width, accepts, call + 1, n - taken), accepts, call, m);
      hide Persists, Truncated;
    }
  }

  lemma PersistsBefore(out: Outcome, accepts: nat -> nat, call: nat, m: nat)
    requires 0 < accepts(call) < m && Persists(out, accepts, call + 1, m - accepts(call))
    ensures Persists(out.Plus(accepts(call)), accepts, call, m)
  {
    var next, left := call + 1, m - accepts(call);
    if exists j: nat :: Stalls(accepts, call, j, m) {
      var j: nat :| Stalls(accepts, call, j, m);
      StallsLater(accepts, call, m, j - 1);
      assert Stalls(accepts, next, j - 1, left);
    }
    if out.freed {
      var j: nat :| Stalls(accepts, next, j, left) && out.sent == Willing(accepts, next, j);
      StallsLater(accepts, call, m, j);
      assert Stalls(accepts, call, j + 1, m);
    }
  }

  /** After a call that took some packets, but not all. */
  lemma StallsLater(accepts: nat -> nat, call: nat, m: nat, j: nat)
    requires 0 < accepts(call) < m
    ensures Stalls(accepts, call + 1, j, m - accepts(call)) <==> Stalls(accepts, call, j + 1, m)
    ensures Willing(accepts, call, j + 1) == accepts(call) + Willing(accepts, call + 1, j)
  {
  }

  /** A device that always takes something gets everything it can be offered. */
  lemma NothingFreed(width: nat, accepts: nat -> nat, call: nat, n: nat)
    requires width > 0 && Truncated(n, width) > 0 && forall c: nat :: accepts(c) > 0
    ensures Sending(width, accepts, call, n) == Outcome(Truncated(n, width), false)
  {
    FreedIffStalled(width, accepts, call, n);
  }

  ghost predicate Leaks(width: nat, accepts: nat -> nat, n: nat)
    requires width > 0
  {
    !Sending(width, accepts, 0, n).freed && Sending(width, accepts, 0, n).sent < n
  }

  /** No device makes the loop lose a packet exactly if their number fits the
      width or is a multiple of what the width can tell apart. */
  lemma NothingLeaks(width: nat, n: nat)
    requires width > 0
    ensures (forall accepts: nat -> nat :: !Leaks(width, accepts, n)) <==> n < width || Truncated(n, width) == 0
  {
    forall accepts: nat -> nat ensures Leaks(width, accepts, n) ==> n >= width && Truncated(n, width) != 0 {
      SentOrFreed(width, accepts, 0, n);
    }
    if n >= width && Truncated(n, width) != 0 {
      assert Leaks(width, call => n, n);
    }
  }

  /** A port counts in 16 bits: it leaks nothing, on any device, exactly if there
      are fewer packets than 65536 or a multiple of it. */
  lemma PortLeaksNothing(n: nat)
    ensures (forall accepts: nat -> nat :: !Leaks(PORT_WIDTH, accepts, n)) <==> n < PORT_WIDTH || n % PORT_WIDTH == 0
  {
    NothingLeaks(PORT_WIDTH, n);
    TruncatedIsModulo(n);
  }

  /** From 1 up to as many packets as the width can count, each is sent or
      returned, exactly once and in order, whatever the device does. */
  lemma TransmitConserves(width: nat, accepts: nat -> nat, call: nat, packets: seq<Packet>)
    requires 1 <= |packets| < width
    ensures var out := Sending(width, accepts, call, |packets|);
      packets[..out.sent] + Returned(if out.freed then FreePuts(packets[out.sent..]) else []) == packets
  {
    var out := Sending(width, accepts, call, |packets|);
    SentOrFreed(width, accepts, call, |packets|);
    FreedOnce(packets[out.sent..]);
  }
}
