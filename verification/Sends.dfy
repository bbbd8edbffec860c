/** Running a whole pipeline (capsule/src/batch/send.rs). */
module Sends {
  import opened Batches

  function Acted(ds: seq<Disposition>): seq<Packet> {
    if ds == [] then []
    else (if ds[0].Act? then [ds[0].packet] else []) + Acted(ds[1..])
  }

  function Dropped(ds: seq<Disposition>): seq<Packet> {
    if ds == [] then []
    else (if ds[0].Drop? then [ds[0].mbuf] else []) + Dropped(ds[1..])
  }

  function Emitted(ds: seq<Disposition>): nat {
    if ds == [] then 0 else (if ds[0].Emit? then 1 else 0) + Emitted(ds[1..])
  }

  function Aborted(ds: seq<Disposition>): nat {
    if ds == [] then 0 else (if ds[0].Abort? then 1 else 0) + Aborted(ds[1..])
  }

  function Flat(qs: seq<seq<Packet>>): seq<Packet> {
    if qs == [] then [] else Flat(qs[..|qs| - 1]) + qs[|qs| - 1]
  }

  /** An empty queue is not handed over, and nothing is missing for it. */
  lemma FlatPush(qs: seq<seq<Packet>>, q: seq<Packet>)
    ensures Flat(qs + (if q == [] then [] else [q])) == Flat(qs) + q
  {
    if q == [] {
      assert qs + [] == qs;
    } else {
      assert (qs + [q])[..|qs|] == qs;
    }
  }

  lemma SortOne(ds: seq<Disposition>, d: Disposition)
    ensures Acted(ds + [d]) == Acted(ds) + Acted([d])
    ensures Dropped(ds + [d]) == Dropped(ds) + Dropped([d])
    ensures Emitted(ds + [d]) == Emitted(ds) + Emitted([d])
    ensures Aborted(ds + [d]) == Aborted(ds) + Aborted([d])
  {
    SortAppend(ds, [d]);
  }

  lemma {:induction false} SortAppend(xs: seq<Disposition>, ys: seq<Disposition>)
    ensures Acted(xs + ys) == Acted(xs) + Acted(ys)
    ensures Dropped(xs + ys) == Dropped(xs) + Dropped(ys)
    ensures Emitted(xs + ys) == Emitted(xs) + Emitted(ys)
    ensures Aborted(xs + ys) == Aborted(xs) + Aborted(ys)
  {
    hide Acted, Dropped, Emitted, Aborted;
    if xs == [] {
      assert xs + ys == ys;
      SortNil();
    } else {
      SortAppend(xs[1..], ys);
      SortCons(xs[0], xs[1..]);
      SortCons(xs[0], xs[1..] + ys);
      assert xs == [xs[0]] + xs[1..];
      assert xs + ys == [xs[0]] + (xs[1..] + ys);
    }
  }

  lemma SortNil()
    ensures Acted([]) == [] && Dropped([]) == [] && Emitted([]) == 0 && Aborted([]) == 0
  {
  }

  lemma SortCons(d: Disposition, ds: seq<Disposition>)
    ensures Acted([d] + ds) == (if d.Act? then [d.packet] else []) + Acted(ds)
    ensures Dropped([d] + ds) == (if d.Drop? then [d.mbuf] else []) + Dropped(ds)
    ensures Emitted([d] + ds) == (if d.Emit? then 1 else 0) + Emitted(ds)
    ensures Aborted([d] + ds) == (if d.Abort? then 1 else 0) + Aborted(ds)
  {
    assert ([d] + ds)[1..] == ds;
  }

  lemma {:induction false} Split(xs: seq<Yield>, ys: seq<Yield>)
    ensures Dispositions(xs + ys) == Dispositions(xs) + Dispositions(ys)
    ensures Events(xs + ys) == Events(xs) + Events(ys)
  {
    hide Dispositions, Events;
    if xs == [] {
      assert xs + ys == ys;
      SplitNil();
    } else {
      Split(xs[1..], ys);
      SplitCons(xs[0], xs[1..]);
      SplitCons(xs[0], xs[1..] + ys);
      assert xs == [xs[0]] + xs[1..];
      assert xs + ys == [xs[0]] + (xs[1..] + ys);
    }
  }

  lemma SplitNil()
    ensures Dispositions([]) == [] && Events([]) == []
  {
  }

  lemma SplitCons(y: Yield, ys: seq<Yield>)
    ensures Dispositions([y] + ys) == [y.disp] + Dispositions(ys)
    ensures Events([y] + ys) == y.events + Events(ys)
  {
    assert ([y] + ys)[1..] == ys;
  }

  /** The semantics is a homomorphism: batch boundaries do not matter. */
  lemma {:induction false} FlatMapAppend(b: Batch, ps: seq<Packet>, qs: seq<Packet>)
    requires b.Valid()
    ensures b.FlatMap(ps + qs) == b.FlatMap(ps) + b.FlatMap(qs)
  {
    hide Batch.Valid, Batch.Denote, Batch.FlatMap;
    if ps == [] {
      assert ps + qs == qs;
      FlatMapNil(b);
    } else {
      FlatMapAppend(b, ps[1..], qs);
      FlatMapCons(b, ps[0], ps[1..]);
      FlatMapCons(b, ps[0], ps[1..] + qs);
      assert ps == [ps[0]] + ps[1..];
      assert ps + qs == [ps[0]] + (ps[1..] + qs);
    }
  }

  lemma FlatMapNil(b: Batch)
    requires b.Valid()
    ensures b.FlatMap([]) == []
  {
  }

  lemma FlatMapCons(b: Batch, p: Packet, ps: seq<Packet>)
    requires b.Valid()
    ensures b.FlatMap([p] + ps) == b.Denote(p) + b.FlatMap(ps)
  {
    assert ([p] + ps)[1..] == ps;
  }

  class Send {
    const batch: Batch
    const trace: Trace
    var transmitted: seq<seq<Packet>> // each call to the outbound queue
    var freed: seq<seq<Packet>>       // each call to the bulk free
    var runs: nat
    var processed: nat
    var dropped: nat
    var errors: nat
    ghost var received: seq<Packet>   // everything polled so far

    /** Between runs every buffer is empty, and the totals of all runs so far
        are what the list semantics says about all packets received so far.
        Neither queue has ever been handed on empty. */
    ghost predicate Ready()
      reads this, trace, batch.Cells()
    {
      && batch.Valid() && batch.Inv() && batch.Idle() && batch.Polls()
      && batch.Pending() == []
      && trace !in batch.Cells() && this as object !in batch.Cells()
      && Accounted(batch.FlatMap(received))
      && (forall q | q in transmitted :: q != []) && (forall q | q in freed :: q != [])
    }

    ghost predicate Accounted(ys: seq<Yield>)
      reads this, trace
    {
      var ds := Dispositions(ys);
      && Flat(transmitted) == Acted(ds)
      && Flat(freed) == Dropped(ds)
      && trace.log == Events(ys)
      && processed == |Acted(ds)| + Emitted(ds)
      && dropped == |Dropped(ds)|
      && errors == Aborted(ds)
    }

    constructor (batch: Batch, trace: Trace)
      requires batch.Valid() && batch.Inv() && batch.Idle() && batch.Polls() && batch.Pending() == []
      requires trace !in batch.Cells() && trace.log == []
      ensures Ready() && this.batch == batch && this.trace == trace && received == []
    {
      assert allocated(batch.Cells());
      this.batch, this.trace := batch, trace;
      transmitted, freed := [], [];
      runs, processed, dropped, errors := 0, 0, 0, 0;
      received := [];
    }

    /** Consumes the whole batch to completion. */
    method Consume() returns (transmitQ: seq<Packet>, dropQ: seq<Packet>, emitted: nat, aborted: nat)
      requires batch.Valid() && batch.Inv() && trace !in batch.Cells()
      modifies trace, batch.Inner(), batch.Leaf()
      ensures batch.Inv() && batch.Remaining() == []
      ensures trace.log == old(trace.log) + Events(old(batch.Remaining()))
      ensures var ds := Dispositions(old(batch.Remaining()));
        transmitQ == Acted(ds) && dropQ == Dropped(ds) && emitted == Emitted(ds) && aborted == Aborted(ds)
    {
      hide Batch.Valid, Batch.Inner, Batch.Leaf, Batch.Inv, Batch.Remaining, Dispositions, Events, Pulling;
      ghost var ds: seq<Disposition>, log, ys := [], trace.log, batch.Remaining();
      transmitQ, dropQ, emitted, aborted := [], [], 0, 0;
      var disp := batch.Next(trace);
      PullingStart(ds, log, ys, disp, batch.Remaining(), trace.log);
      while disp.Some?
        invariant batch.Inv()
        invariant Pulling([], log, ys, ds, trace.log, disp, batch.Remaining())
        invariant transmitQ == Acted(ds) && dropQ == Dropped(ds) && emitted == Emitted(ds) && aborted == Aborted(ds)
        decreases |batch.Remaining()|, disp.Some?
      {
        SortOne(ds, disp.value);
        match disp.value {
          case Act(packet) => transmitQ := transmitQ + [packet];
          case Drop(mbuf) => dropQ := dropQ + [mbuf];
          case Emit => emitted := emitted + 1;
          case Abort(_) => aborted := aborted + 1;
        }
        ghost var ds', log', disp', rest := ds, trace.log, disp, batch.Remaining();
        ds := ds + [disp.value];
        disp := batch.Next(trace);
        PullingAdvance([], log, ys, ds', log', disp', rest, disp, batch.Remaining(), trace.log);
      }
      PullingDone([], log, ys, ds, trace.log, batch.Remaining());
      assert ds == Dispositions(ys);
    }

    /** Counts the results and hands both queues on, unless they are empty. */
    method HandOn(transmitQ: seq<Packet>, dropQ: seq<Packet>, emitted: nat, aborted: nat)
      modifies this`transmitted, this`freed, this`runs, this`processed, this`dropped, this`errors
      ensures runs == old(runs) + 1 && processed == old(processed) + |transmitQ| + emitted
      ensures dropped == old(dropped) + |dropQ| && errors == old(errors) + aborted
      ensures transmitted == old(transmitted) + (if transmitQ == [] then [] else [transmitQ])
      ensures freed == old(freed) + (if dropQ == [] then [] else [dropQ])
      ensures Flat(transmitted) == Flat(old(transmitted)) + transmitQ
      ensures Flat(freed) == Flat(old(freed)) + dropQ
    {
      runs := runs + 1;
      processed := processed + |transmitQ| + emitted;
      dropped := dropped + |dropQ|;
      errors := errors + aborted;
      if transmitQ != [] {
        transmitted := transmitted + [transmitQ];
      }
      if dropQ != [] {
        freed := freed + [dropQ];
      }
      FlatPush(old(transmitted), transmitQ);
      FlatPush(old(freed), dropQ);
    }

    method Run(packets: seq<Packet>)
      requires Ready()
      modifies this, trace, batch.Inner(), batch.Leaf()
      ensures Ready()
      ensures received == old(received) + packets && runs == old(runs) + 1
      ensures var ds := Dispositions(batch.FlatMap(packets));
        && transmitted == old(transmitted) + (if Acted(ds) == [] then [] else [Acted(ds)])
        && freed == old(freed) + (if Dropped(ds) == [] then [] else [Dropped(ds)])
        && trace.log == old(trace.log) + Events(batch.FlatMap(packets))
    {
      hide Batch.Valid, Batch.Inner, Batch.Leaf, Batch.Inv, Batch.Idle, Batch.Remaining, Batch.FlatMap, Batch.Pending,
        Batch.Polls, Dispositions, Events, Acted, Dropped, Emitted, Aborted, Flat;
      ghost var ys, before := batch.FlatMap(packets), batch.FlatMap(received);
      assert allocated(batch.Cells());
      batch.LeafApart();
      batch.Replenish(packets);
      batch.IdleRemaining();
      var transmitQ, dropQ, emitted, aborted := Consume();
      batch.ExhaustedIsIdle();

      HandOn(transmitQ, dropQ, emitted, aborted);
      FlatMapAppend(batch, received, packets);
      Split(before, ys);
      SortAppend(Dispositions(before), Dispositions(ys));
      received := received + packets;
    }
  }
}
