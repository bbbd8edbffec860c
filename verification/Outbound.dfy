/** A pipeline together with the port that it sends to: what becomes of every
    buffer (capsule/src/batch/send.rs, capsule/src/dpdk). */
module Outbound {
  import opened Batches
  import opened Sends
  import opened Conservation
  import opened Transmits

  /** What the device took, and what was put back. */
  datatype Onward = Onward(sent: seq<Packet>, puts: seq<Put>)

  /** The outcome of transmitting one queue after the other; the device is in a
      state of its own at each of them. */
  function Handed(devices: nat -> nat -> nat, queues: seq<seq<Packet>>): Onward {
    if queues == [] then Onward([], [])
    else
      var n := |queues| - 1;
      var out := Sending(PORT_WIDTH, devices(n), 0, |queues[n]|);
      var puts := if out.freed then FreePuts(queues[n][out.sent..]) else [];
      var before := Handed(devices, queues[..n]);
      Onward(before.sent + queues[n][..out.sent], before.puts + puts)
  }

  /** The puts of all bulk frees. */
  function AllFreed(queues: seq<seq<Packet>>): seq<Put> {
    if queues == [] then [] else AllFreed(queues[..|queues| - 1]) + FreePuts(queues[|queues| - 1])
  }

  lemma {:induction false} CountAppend(q: nat -> bool, a: seq<Packet>, b: seq<Packet>)
    ensures Count(q, a + b) == Count(q, a) + Count(q, b)
  {
    if a == [] {
      assert a + b == b;
    } else {
      CountAppend(q, a[1..], b);
      assert (a + b)[1..] == a[1..] + b;
    }
  }

  lemma PacketsAssociative(a: seq<Packet>, b: seq<Packet>, c: seq<Packet>)
    ensures a + (b + c) == (a + b) + c
  {
  }

  lemma {:induction false} ReturnedAppend(a: seq<Put>, b: seq<Put>)
    ensures Returned(a + b) == Returned(a) + Returned(b)
  {
    if a == [] {
      assert a + b == b;
    } else {
      ReturnedAppend(a[1..], b);
      assert (a + b)[1..] == a[1..] + b;
      PacketsAssociative(a[0].packets, Returned(a[1..]), Returned(b));
    }
  }

  /** Queues that a port can count are sent or put back, every packet once. */
  lemma {:induction false} HandedConserves(q: nat -> bool, devices: nat -> nat -> nat, queues: seq<seq<Packet>>)
    requires forall t | t in queues :: 1 <= |t| < PORT_WIDTH
    ensures var on := Handed(devices, queues);
      Count(q, on.sent) + Count(q, Returned(on.puts)) == Count(q, Flat(queues))
  {
    if queues != [] {
      var n := |queues| - 1;
      var last, before := queues[n], Handed(devices, queues[..n]);
      var out := Sending(PORT_WIDTH, devices(n), 0, |last|);
      var puts := if out.freed then FreePuts(last[out.sent..]) else [];
      assert Handed(devices, queues) == Onward(before.sent + last[..out.sent], before.puts + puts);
      assert Flat(queues) == Flat(queues[..n]) + last;
      hide *;
      HandedConserves(q, devices, queues[..n]);
      TransmitConserves(PORT_WIDTH, devices(n), 0, last);
      CountAppend(q, last[..out.sent], Returned(puts));
      CountAppend(q, before.sent, last[..out.sent]);
      ReturnedAppend(before.puts, puts);
      CountAppend(q, Returned(before.puts), Returned(puts));
      CountAppend(q, Flat(queues[..n]), last);
    }
  }

  lemma {:induction false} AllFreedConserves(q: nat -> bool, queues: seq<seq<Packet>>)
    ensures Count(q, Returned(AllFreed(queues))) == Count(q, Flat(queues))
  {
    if queues != [] {
      var n := |queues| - 1;
      var last, before := queues[n], AllFreed(queues[..n]);
      assert AllFreed(queues) == before + FreePuts(last);
      assert Flat(queues) == Flat(queues[..n]) + last;
      hide *;
      AllFreedConserves(q, queues[..n]);
      FreedOnce(last);
      ReturnedAppend(before, FreePuts(last));
      CountAppend(q, Returned(before), last);
      CountAppend(q, Flat(queues[..n]), last);
    }
  }

  /** From the wire to the wire: over any number of runs, against any device,
      every buffer that was received or created has been taken by the device,
      put back, emitted or lost to an abort, once; and no bulk free ever met an
      empty queue. */
  lemma EveryBufferAccounted(s: Send, q: nat -> bool, devices: nat -> nat -> nat)
    requires s.Ready() && Buffers(q).Respects(s.batch)
    requires forall t | t in s.transmitted :: |t| < PORT_WIDTH
    ensures var on := Handed(devices, s.transmitted);
      Count(q, s.received) + CountCreated(q, s.trace.log) ==
      Count(q, on.sent) + Count(q, Returned(on.puts)) + Count(q, Returned(AllFreed(s.freed))) +
      CountSent(q, s.trace.log) + CountLost(q, s.trace.log)
    ensures forall t | t in s.transmitted || t in s.freed :: t != []
  {
    NothingLost(s, q);
    HandedConserves(q, devices, s.transmitted);
    AllFreedConserves(q, s.freed);
  }
}
