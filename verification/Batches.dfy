/** Pull-based batch pipelines (capsule/src/batch). */
module Batches {

  import opened Wrappers

  type Fallible<+T> = Result<T, nat>

  /** A packet: the message buffer it lives in, the memory pool of that buffer,
      and its bytes. `reset` only forgets the parsed type, so it is the
      identity here. */
  datatype Packet = Packet(id: nat, pool: nat, data: seq<nat>)

  datatype Either = Keep(kept: Packet) | Discard(mbuf: Packet)

  datatype Disposition =
    | Act(packet: Packet)
    | Emit
    | Drop(mbuf: Packet)
    | Abort(error: nat)

  /** What a pull does to the outside world, in the order it happens. */
  datatype Event =
    | Sent(sink: nat, packet: Packet) // an `Emit` combinator transmitted it
    | Created(packet: Packet)         // a `Replace` closure made it
    | Lost(packet: Packet)            // an aborted packet went out of scope

  /** One result of `next`, with the events its computation causes. */
  datatype Yield = Yield(disp: Disposition, events: seq<Event>)

  class PollQueue {
    var packets: Option<seq<Packet>>
    constructor ()
      ensures packets == None
    {
      packets := None;
    }
  }

  class Slot {
    var packet: Option<Packet>
    constructor ()
      ensures packet == None
    {
      packet := None;
    }
  }

  class Bridge {
    var cell: Option<Packet>
    constructor ()
      ensures cell == None
    {
      cell := None;
    }
  }

  class Fanouts {
    var queue: seq<Disposition>
    constructor ()
      ensures queue == []
    {
      queue := [];
    }
  }

  class Trace {
    var log: seq<Event>
  }

  /** A pipeline. Its shape and closures never change; the fields that `next`
      updates are the objects it holds. `branches` has the key `None` for the
      catch-all arm and `Some(k)` for the arm of discriminator `k`. */
  datatype Batch =
    | Poll(queue: PollQueue)
    | FromBridge(source: Bridge)
    | Filter(batch: Batch, keep: Packet -> bool)
    | FilterMap(batch: Batch, choose: Packet -> Fallible<Either>)
    | Map(batch: Batch, f: Packet -> Fallible<Packet>)
    | ForEach(batch: Batch, check: Packet -> Fallible<()>)
    | Inspect(batch: Batch)
    | EmitTo(batch: Batch, tx: nat)
    | Replace(batch: Batch, f: Packet -> Fallible<Packet>, slot: Slot)
    | GroupBy(batch: Batch, selector: Packet -> int, bridge: Bridge,
              branches: map<Option<int>, Batch>, fanouts: Fanouts)
  {
    predicate IsSource() {
      Poll? || FromBridge?
    }

    /** The object the packets come from. */
    function Leaf(): object
    {
      match this
      case Poll(queue) => queue
      case FromBridge(source) => source
      case _ => batch.Leaf()
    }

    /** Every object that `next` may update, apart from the leaf. */
    ghost function Inner(): set<object>
      decreases this, 1
    {
      match this
      case Poll(_) => {}
      case FromBridge(_) => {}
      case Replace(batch, _, slot) => batch.Inner() + {slot}
      case GroupBy(batch, _, bridge, branches, fanouts) =>
        batch.Inner() + {bridge, fanouts} + Arms()
      case _ => batch.Inner()
    }

    ghost function Arms(): set<object>
      requires GroupBy?
      decreases this, 0
    {
      set k, o | k in branches && o in branches[k].Inner() :: o
    }

    /** The objects of all arms but one. */
    ghost function OtherArms(key: Option<int>): set<object>
      requires GroupBy?
    {
      set k, o | k in branches && k != key && o in branches[k].Inner() :: o
    }

    ghost function Cells(): set<object> {
      Inner() + {Leaf()}
    }

    /** Objects are shared only where the source shares them: all arms of a
        `GroupBy` read the one bridge that feeds them. */
    ghost predicate Valid()
    {
      match this
      case Poll(_) => true
      case FromBridge(_) => true
      case Replace(batch, _, slot) => batch.Valid() && slot !in batch.Cells()
      case GroupBy(batch, _, bridge, branches, fanouts) =>
        && batch.Valid()
        && bridge !in batch.Cells() && fanouts !in batch.Cells()
        && bridge !in Arms() && fanouts !in Arms() && Arms() !! batch.Cells()
        && None in branches
        && (forall k | k in branches :: branches[k].Valid() && branches[k].Leaf() == bridge)
        && (forall k, l | k in branches && l in branches && k != l ::
              branches[k].Inner() !! branches[l].Inner())
      case _ => batch.Valid()
    }

    /** No packet is buffered between the source and the output. */
    ghost predicate Idle()
      reads Inner()
    {
      match this
      case Poll(_) => true
      case FromBridge(_) => true
      case Replace(batch, _, slot) => batch.Idle() && slot.packet == None
      case GroupBy(batch, _, _, _, fanouts) => batch.Idle() && fanouts.queue == []
      case _ => batch.Idle()
    }

    /** Holds between calls: a `GroupBy` leaves its bridge and arms empty. */
    ghost predicate Inv()
      reads Inner()
      decreases this, 1
    {
      match this
      case Poll(_) => true
      case FromBridge(_) => true
      case GroupBy(batch, _, bridge, branches, _) =>
        batch.Inv() && bridge.cell == None && ArmsIdle()
      case _ => batch.Inv()
    }

    ghost predicate ArmsIdle()
      requires GroupBy?
      reads Arms()
      decreases this, 0
    {
      forall k | k in branches :: branches[k].Inv() && branches[k].Idle()
    }

    ghost predicate OtherArmsIdle(key: Option<int>)
      requires GroupBy?
      reads OtherArms(key)
    {
      forall k | k in branches && k != key :: branches[k].Inv() && branches[k].Idle()
    }

    lemma ArmsApart(key: Option<int>)
      requires GroupBy? && Valid() && key in branches
      ensures Arms() == OtherArms(key) + branches[key].Inner()
      ensures OtherArms(key) !! branches[key].Cells()
      ensures branches[key].Cells() !! batch.Cells()
      ensures branches[key].Valid() && branches[key].Leaf() == bridge
      ensures ArmsIdle() == (branches[key].Inv() && branches[key].Idle() && OtherArmsIdle(key))
      ensures fanouts !in branches[key].Cells() && bridge !in branches[key].Inner()
    {
    }

    function Branch(p: Packet): Batch
      requires GroupBy? && None in branches
    {
      if Some(selector(p)) in branches then branches[Some(selector(p))] else branches[None]
    }

    // ---- what a pipeline means, packet by packet ----

    /** What this combinator makes of one result of the combinator below it. */
    ghost function Stage(y: Yield): (r: seq<Yield>)
      requires Valid() && !IsSource()
      ensures r != []
      decreases this, 0
    {
      match y.disp
      case Act(p) =>
        (match this
         case Filter(_, keep) => [Yield(if keep(p) then Act(p) else Drop(p), y.events)]
         case FilterMap(_, choose) =>
           (match choose(p)
            case Ok(Keep(q)) => [Yield(Act(q), y.events)]
            case Ok(Discard(q)) => [Yield(Drop(q), y.events)]
            case Err(e) => [Yield(Abort(e), y.events + [Lost(p)])])
         case Map(_, f) =>
           (match f(p)
            case Ok(q) => [Yield(Act(q), y.events)]
            case Err(e) => [Yield(Abort(e), y.events + [Lost(p)])])
         case ForEach(_, check) =>
           (match check(p)
            case Ok(_) => [y]
            case Err(e) => [Yield(Abort(e), y.events + [Lost(p)])])
         case Inspect(_) => [y]
         case EmitTo(_, tx) => [Yield(Emit, y.events + [Sent(tx, p)])]
         case Replace(_, f, _) =>
           (match f(p)
            case Ok(q) => [Yield(Act(q), y.events + [Created(q)]), Yield(Drop(p), [])]
            case Err(e) => [Yield(Abort(e), y.events + [Lost(p)])])
         case GroupBy(_, _, _, _, _) => Fanned(y.events, Branch(p).Denote(p)))
      case _ => [y]
    }

    ghost function Through(ys: seq<Yield>): (r: seq<Yield>)
      requires Valid() && !IsSource()
      ensures |r| >= |ys|
      decreases this, 1, |ys|
    {
      if ys == [] then [] else Stage(ys[0]) + Through(ys[1..])
    }

    /** The list semantics: everything one packet from the source turns into. */
    ghost function Denote(p: Packet): (r: seq<Yield>)
      requires Valid()
      ensures r != []
      decreases this, 2
    {
      if IsSource() then [Yield(Act(p), [])] else Through(batch.Denote(p))
    }

    /** The results still to come, from the current state of all buffers. */
    ghost function Remaining(): seq<Yield>
      requires Valid()
      reads Inner(), Leaf()
    {
      match this
      case Poll(queue) =>
        if queue.packets.Some? then Arrivals(queue.packets.value) else []
      case FromBridge(source) =>
        if source.cell.Some? then [Yield(Act(source.cell.value), [])] else []
      case Replace(batch, _, slot) =>
        (if slot.packet.Some? then [Yield(Drop(slot.packet.value), [])] else []) + Through(batch.Remaining())
      case GroupBy(batch, _, _, _, fanouts) => Queued(fanouts.queue) + Through(batch.Remaining())
      case _ => Through(batch.Remaining())
    }

    /** The packet that the leaf still holds, or the packets it has polled. */
    ghost function Pending(): seq<Packet>
      reads Leaf()
    {
      match this
      case Poll(queue) => if queue.packets.Some? then queue.packets.value else []
      case FromBridge(source) => if source.cell.Some? then [source.cell.value] else []
      case _ => batch.Pending()
    }

    ghost function FlatMap(ps: seq<Packet>): seq<Yield>
      requires Valid()
    {
      if ps == [] then [] else Denote(ps[0]) + FlatMap(ps[1..])
    }

    lemma FlatMapOne(p: Packet)
      requires Valid()
      ensures FlatMap([p]) == Denote(p)
    {
      assert FlatMap([p][1..]) == [];
    }

    lemma {:induction false} ThroughAppend(xs: seq<Yield>, ys: seq<Yield>)
      requires Valid() && !IsSource()
      ensures Through(xs + ys) == Through(xs) + Through(ys)
    {
      hide Valid, Stage, Denote;
      if xs == [] {
        assert xs + ys == ys;
      } else {
        ThroughAppend(xs[1..], ys);
        assert (xs + ys)[0] == xs[0] && (xs + ys)[1..] == xs[1..] + ys;
        Associative(Stage(xs[0]), Through(xs[1..]), Through(ys));
      }
    }

    lemma {:induction false} FlatMapThrough(ps: seq<Packet>)
      requires Valid() && !IsSource()
      ensures FlatMap(ps) == Through(batch.FlatMap(ps))
    {
      if ps != [] {
        FlatMapThrough(ps[1..]);
        ThroughAppend(batch.Denote(ps[0]), batch.FlatMap(ps[1..]));
      }
    }

    /** With all buffers empty the machine is exactly the list semantics. */
    lemma {:induction false} IdleRemaining()
      requires Valid() && Idle()
      ensures Remaining() == FlatMap(Pending())
    {
      if IsSource() {
        ArrivalsFlatMap(Pending());
      } else {
        batch.IdleRemaining();
        FlatMapThrough(Pending());
      }
    }

    /** An idle arm yields something exactly if its own source holds a packet. One
        that reads the bridge always does when its turn comes; for any other,
        the head that the source unwraps may be missing. */
    lemma YieldsIffFed()
      requires Valid() && Idle()
      ensures Remaining() != [] <==> Pending() != []
    {
      IdleRemaining();
    }

    lemma {:induction false} ArrivalsFlatMap(ps: seq<Packet>)
      requires IsSource()
      ensures Arrivals(ps) == FlatMap(ps)
    {
      if ps != [] {
        ArrivalsFlatMap(ps[1..]);
      }
    }

    lemma {:induction false} FedBy(b: Bridge)
      requires Leaf() == b
      ensures Pending() == if b.cell.Some? then [b.cell.value] else []
    {
      if !IsSource() {
        batch.FedBy(b);
      }
    }

    /** An exhausted batch has no packet left in any buffer. */
    lemma {:induction false} ExhaustedIsIdle()
      requires Valid() && Remaining() == []
      ensures Idle() && Pending() == []
    {
      if !IsSource() {
        batch.ExhaustedIsIdle();
      }
    }

    lemma ThroughStep(ys: seq<Yield>)
      requires Valid() && !IsSource()
      ensures Through([]) == []
      ensures ys != [] ==>
        && Through(ys)[0] == Stage(ys[0])[0]
        && Through(ys)[1..] == Stage(ys[0])[1..] + Through(ys[1..])
    {
    }

    lemma Fed(b: Bridge, p: Packet)
      requires Valid() && Idle() && Leaf() == b && b.cell == Some(p)
      ensures Remaining() == Denote(p)
    {
      IdleRemaining();
      FedBy(b);
      FlatMapOne(p);
    }

    lemma StageFans(log: seq<Event>, y: Yield)
      requires Valid() && GroupBy? && y.disp.Act?
      ensures Branch(y.disp.packet).Valid()
      ensures var ys := Branch(y.disp.packet).Denote(y.disp.packet);
        && Dispositions(ys) != []
        && Stage(y)[0].disp == Dispositions(ys)[0]
        && log + Stage(y)[0].events == (log + y.events) + Events(ys)
        && Stage(y)[1..] == Queued(Dispositions(ys)[1..])
    {
    }

    lemma UnfoldTransform()
      requires Valid() && IsTransform()
      ensures batch.Valid() && Inner() == batch.Inner() && Leaf() == batch.Leaf()
      ensures Inv() == batch.Inv()
      ensures Remaining() == Through(batch.Remaining())
    {
    }

    lemma UnfoldReplace()
      requires Valid() && Replace?
      ensures batch.Valid() && Inner() == batch.Inner() + {slot} && Leaf() == batch.Leaf()
      ensures slot !in batch.Cells()
      ensures Inv() == batch.Inv()
      ensures Remaining() ==
              (if slot.packet.Some? then [Yield(Drop(slot.packet.value), [])] else []) + Through(batch.Remaining())
    {
    }

    lemma UnfoldGroups()
      requires Valid() && GroupBy?
      ensures batch.Valid() && Leaf() == batch.Leaf() && None in branches
      ensures Inner() == batch.Inner() + {bridge, fanouts} + Arms()
      ensures bridge !in batch.Cells() && fanouts !in batch.Cells()
      ensures bridge !in Arms() && fanouts !in Arms() && Arms() !! batch.Cells()
      ensures Inv() == (batch.Inv() && bridge.cell == None && ArmsIdle())
      ensures Remaining() == Queued(fanouts.queue) + Through(batch.Remaining())
    {
    }

    lemma StagePasses(y: Yield)
      requires Valid() && !IsSource() && !y.disp.Act?
      ensures Stage(y) == [y]
    {
    }

    // ---- the combinators' own code ----

    method Next(trace: Trace) returns (r: Option<Disposition>)
      requires Valid() && Inv() && trace !in Cells()
      modifies Inner(), Leaf(), trace
      ensures Inv()
      ensures Pulled(old(Remaining()), old(trace.log), r, Remaining(), trace.log)
      decreases this, 3
    {
      match this
      case Poll(queue) =>
        if queue.packets == None || queue.packets.value == [] {
          r := None;
        } else {
          r := Some(Act(queue.packets.value[0]));
          queue.packets := Some(queue.packets.value[1..]);
        }
      case FromBridge(source) =>
        r := if source.cell == None then None else Some(Act(source.cell.value));
        source.cell := None;
        assert old(Remaining()) != [] ==> old(Remaining())[1..] == [];
        assert trace.log + [] == trace.log;
      case Replace(_, _, _) =>
        r := NextOfReplace(trace);
      case GroupBy(_, _, _, _, _) =>
        r := NextOfGroups(trace);
      case _ =>
        r := NextOfTransform(trace);
    }

    predicate IsTransform() {
      !IsSource() && !Replace? && !GroupBy?
    }

    method NextOfTransform(trace: Trace) returns (r: Option<Disposition>)
      requires IsTransform()
      requires Valid() && Inv() && trace !in Cells()
      modifies Inner(), Leaf(), trace
      ensures Inv()
      ensures Pulled(old(Remaining()), old(trace.log), r, Remaining(), trace.log)
      decreases this, 1
    {
      hide Valid, Inner, Leaf, Inv, Remaining, Through, Denote, Stage;
      UnfoldTransform();
      ghost var log, ys := trace.log, batch.Remaining();
      ThroughStep(ys);
      r := batch.Next(trace);
      if r.Some? {
        if r.value.Act? {
          assert allocated(Cells());
          var disp, events := Transform(r.value.packet, ys[0].events);
          r := Some(disp);
          trace.log := trace.log + events;
          assert log + ys[0].events + events == log + (ys[0].events + events);
        } else {
          StagePasses(ys[0]);
        }
      }
      UnfoldTransform();
    }

    /** What each one-to-one combinator does with a packet still in play. */
    method Transform(p: Packet, ghost before: seq<Event>) returns (r: Disposition, events: seq<Event>)
      requires Valid() && IsTransform()
      ensures Stage(Yield(Act(p), before)) == [Yield(r, before + events)]
    {
      events := [];
      assert before + [] == before;
      match this
      case Filter(_, keep) =>
        r := if keep(p) then Act(p) else Drop(p);
      case FilterMap(_, choose) =>
        match choose(p) {
          case Ok(Keep(q)) => r := Act(q);
          case Ok(Discard(q)) => r := Drop(q);
          case Err(e) => r, events := Abort(e), [Lost(p)];
        }
      case Map(_, f) =>
        match f(p) {
          case Ok(q) => r := Act(q);
          case Err(e) => r, events := Abort(e), [Lost(p)];
        }
      case ForEach(_, check) =>
        match check(p) {
          case Ok(_) => r := Act(p);
          case Err(e) => r, events := Abort(e), [Lost(p)];
        }
      case EmitTo(_, tx) =>
        r, events := Emit, [Sent(tx, p)];
      case Inspect(_) =>
        r := Act(p);
    }

    method NextOfReplace(trace: Trace) returns (r: Option<Disposition>)
      requires Replace?
      requires Valid() && Inv() && trace !in Cells()
      modifies Inner(), Leaf(), trace
      ensures Inv()
      ensures Pulled(old(Remaining()), old(trace.log), r, Remaining(), trace.log)
      decreases this, 1
    {
      hide Valid, Inner, Leaf, Inv, Remaining, Through, Denote;
      UnfoldReplace();
      ThroughStep(batch.Remaining());
      if slot.packet.Some? {
        r := Some(Drop(slot.packet.value));
        slot.packet := None;
        assert trace.log + [] == trace.log;
      } else {
        r := batch.Next(trace);
        if r.Some? && r.value.Act? {
          var p := r.value.packet;
          match f(p) {
            case Ok(q) =>
              slot.packet := Some(p);
              r := Some(Act(q));
              trace.log := trace.log + [Created(q)];
            case Err(e) =>
              r := Some(Abort(e));
              trace.log := trace.log + [Lost(p)];
          }
        }
      }
      UnfoldReplace();
    }

    method NextOfGroups(trace: Trace) returns (r: Option<Disposition>)
      requires GroupBy?
      requires Valid() && Inv() && trace !in Cells()
      modifies Inner(), Leaf(), trace
      ensures Inv()
      ensures Pulled(old(Remaining()), old(trace.log), r, Remaining(), trace.log)
      decreases this, 2
    {
      hide Valid, Inner, Leaf, Inv, Remaining, Through, Denote, Stage, Arms, ArmsIdle, Queued, Dispositions, Events,
        Branch;
      QueuedStep(fanouts.queue);
      UnfoldGroups();
      ghost var log, ys := trace.log, batch.Remaining();
      ThroughStep(ys);
      if fanouts.queue != [] {
        r := Some(fanouts.queue[0]);
        fanouts.queue := fanouts.queue[1..];
        assert trace.log + [] == trace.log;
      } else {
        assert allocated(Arms()) && allocated(fanouts);
        r := batch.Next(trace);
        if r.Some? {
          if r.value.Act? {
            var p := r.value.packet;
            StageFans(log, ys[0]);
            UnfoldGroups();
            FanOut(p, trace);
            UnfoldGroups();
            r := Some(fanouts.queue[0]);
            fanouts.queue := fanouts.queue[1..];
          } else {
            StagePasses(ys[0]);
          }
        }
      }
      UnfoldGroups();
    }

    /** Feeds one packet through the bridge into the arm it selects: the one of
        its own key, or the catch-all if there is none. */
    method FanOut(p: Packet, trace: Trace)
      requires GroupBy? && fanouts.queue == []
      requires Valid() && Inv() && trace !in Cells()
      modifies Arms(), bridge, fanouts, trace
      ensures Inv() && batch.Remaining() == old(batch.Remaining())
      ensures fanouts.queue == Dispositions(Branch(p).Denote(p))
      ensures trace.log == old(trace.log) + Events(Branch(p).Denote(p))
      ensures Some(selector(p)) in branches ==>
                fanouts.queue == Dispositions(branches[Some(selector(p))].Denote(p))
      ensures Some(selector(p)) !in branches ==> fanouts.queue == Dispositions(branches[None].Denote(p))
      decreases this, 1
    {
      var key := if Some(selector(p)) in branches then Some(selector(p)) else None;
      assert None in branches && branches[key] == Branch(p) && branches[key].Valid();
      hide Valid, Inner, Leaf, Inv, Remaining, Through, Denote, Stage, Arms, Dispositions, Events;
      RunArm(key, p, trace);
    }

    method RunArm(key: Option<int>, p: Packet, trace: Trace)
      requires GroupBy? && fanouts.queue == [] && key in branches && branches[key].Valid()
      requires Valid() && Inv() && trace !in Cells()
      modifies Arms(), bridge, fanouts, trace
      ensures Inv() && batch.Remaining() == old(batch.Remaining())
      ensures fanouts.queue == Dispositions(branches[key].Denote(p))
      ensures trace.log == old(trace.log) + Events(branches[key].Denote(p))
      decreases this, 0
    {
      hide Valid, Inner, Leaf, Inv, Remaining, Through, Denote, Stage, FlatMap, Idle;
      UnfoldGroups();
      var group := branches[key];
      ArmsApart(key);
      bridge.cell := Some(p);
      ArmsApart(key);
      group.Fed(bridge, p);
      assert allocated(batch.Cells()) && allocated(OtherArms(key));
      group.DrainInto(fanouts, trace);
      group.ExhaustedIsIdle();
      group.FedBy(bridge);
      ArmsApart(key);
      UnfoldGroups();
    }

    predicate Polls() {
      if IsSource() then Poll? else batch.Polls()
    }

    lemma {:induction false} LeafApart()
      requires Valid()
      ensures Leaf() !in Inner()
    {
      if !IsSource() {
        batch.LeafApart();
      }
    }

    /** Packets still queued at the source are lost; buffered ones are not. */
    method Replenish(received: seq<Packet>)
      modifies Leaf()
      ensures Pending() == if Polls() then received else old(Pending())
    {
      match this
      case Poll(queue) => queue.packets := Some(received);
      case FromBridge(_) =>
      case _ => batch.Replenish(received);
    }

    /** Pulls until the batch is exhausted, queueing the results. */
    method DrainInto(fanouts: Fanouts, trace: Trace)
      requires Valid() && Inv() && trace !in Cells() && fanouts !in Cells()
      modifies Inner(), Leaf(), trace, fanouts
      ensures Inv() && Remaining() == []
      ensures fanouts.queue == old(fanouts.queue) + Dispositions(old(Remaining()))
      ensures trace.log == old(trace.log) + Events(old(Remaining()))
      decreases this, 4
    {
      hide Valid, Inner, Leaf, Inv, Remaining, Dispositions, Events, Pulling;
      assert allocated(Cells());
      ghost var queue, log, ys := fanouts.queue, trace.log, Remaining();
      var next := Next(trace);
      PullingStart(queue, log, ys, next, Remaining(), trace.log);
      while next.Some?
        invariant Inv()
        invariant trace !in Cells() && fanouts !in Cells()
        invariant Pulling(queue, log, ys, fanouts.queue, trace.log, next, Remaining())
        decreases |Remaining()|, next.Some?
      {
        ghost var queue', log', next', rest := fanouts.queue, trace.log, next, Remaining();
        fanouts.queue := fanouts.queue + [next.value];
        next := Next(trace);
        PullingAdvance(queue, log, ys, queue', log', next', rest, next, Remaining(), trace.log);
      }
      PullingDone(queue, log, ys, fanouts.queue, trace.log, Remaining());
    }
  }

  method NewReplace(batch: Batch, f: Packet -> Fallible<Packet>) returns (r: Batch)
    requires batch.Valid() && batch.Inv() && batch.Idle()
    ensures r.Replace? && r.batch == batch && r.f == f && fresh(r.slot)
    ensures r.Valid() && r.Inv() && r.Idle()
  {
    assert allocated(batch.Cells());
    var slot := new Slot();
    r := Replace(batch, f, slot);
  }

  datatype BuildError = NoCatchAll

  /** The arms have been built, each from objects of its own; without a catch-all
      arm the source panics. The tree is well formed exactly if every builder
      used the bridge that it was given. */
  method NewGroupBy(batch: Batch, selector: Packet -> int, bridge: Bridge, branches: map<Option<int>, Batch>)
    returns (r: Result<Batch, BuildError>)
    requires batch.Valid() && batch.Inv() && batch.Idle() && bridge !in batch.Cells() && bridge.cell == None
    requires forall k | k in branches ::
               && branches[k].Valid() && branches[k].Inv() && branches[k].Idle()
               && bridge !in branches[k].Inner() && branches[k].Inner() !! batch.Cells()
    requires forall k, l | k in branches && l in branches && k != l ::
               branches[k].Inner() !! branches[l].Inner()
    ensures r.Ok? <==> None in branches
    ensures r.Ok? ==> r.value.GroupBy? && r.value.batch == batch && r.value.selector == selector
    ensures r.Ok? ==> r.value.bridge == bridge && r.value.branches == branches && fresh(r.value.fanouts)
    ensures r.Ok? ==> (r.value.Valid() <==> forall k | k in branches :: branches[k].Leaf() == bridge)
    ensures r.Ok? && r.value.Valid() ==> r.value.Inv() && r.value.Idle()
  {
    assert allocated(batch.Cells());
    assert forall k | k in branches :: allocated(branches[k].Inner());
    if None in branches {
      var fanouts := new Fanouts();
      r := Ok(GroupBy(batch, selector, bridge, branches, fanouts));
    } else {
      r := Err(NoCatchAll);
    }
  }

  lemma Associative(a: seq<Yield>, b: seq<Yield>, c: seq<Yield>)
    ensures a + (b + c) == (a + b) + c
  {
  }

  /** Packets that arrive from a source, not yet processed. */
  ghost function Arrivals(ps: seq<Packet>): seq<Yield> {
    if ps == [] then [] else [Yield(Act(ps[0]), [])] + Arrivals(ps[1..])
  }

  /** Buffered results: their events have already happened. */
  ghost function Queued(ds: seq<Disposition>): seq<Yield> {
    if ds == [] then [] else [Yield(ds[0], [])] + Queued(ds[1..])
  }

  lemma QueuedStep(ds: seq<Disposition>)
    ensures Queued([]) == []
    ensures ds != [] ==> Queued(ds) == [Yield(ds[0], [])] + Queued(ds[1..])
  {
  }

  ghost function Dispositions(ys: seq<Yield>): seq<Disposition> {
    if ys == [] then [] else [ys[0].disp] + Dispositions(ys[1..])
  }

  ghost function Events(ys: seq<Yield>): seq<Event> {
    if ys == [] then [] else ys[0].events + Events(ys[1..])
  }

  /** An arm of a `GroupBy` runs to completion before its first result is
      returned, so all its events come with that one. */
  ghost function Fanned(before: seq<Event>, ys: seq<Yield>): (r: seq<Yield>)
    requires ys != []
    ensures r != []
  {
    [Yield(ys[0].disp, before + Events(ys))] + Queued(Dispositions(ys[1..]))
  }

  /** Between two pulls: `next` is pulled but not yet queued. */
  ghost predicate Pulling(queue: seq<Disposition>, log: seq<Event>, ys: seq<Yield>, queue': seq<Disposition>,
                          log': seq<Event>, next: Option<Disposition>, rest: seq<Yield>)
  {
    && queue' + (if next.Some? then [next.value] else []) + Dispositions(rest) == queue + Dispositions(ys)
    && log' + Events(rest) == log + Events(ys)
    && (next == None ==> rest == [])
  }

  lemma PullingStart(queue: seq<Disposition>, log: seq<Event>, ys: seq<Yield>,
                     next: Option<Disposition>, rest: seq<Yield>, log': seq<Event>)
    requires Pulled(ys, log, next, rest, log')
    ensures Pulling(queue, log, ys, queue, log', next, rest)
  {
    if ys != [] {
      assert queue + [next.value] + Dispositions(rest) == queue + ([next.value] + Dispositions(rest));
      assert log' + Events(rest) == log + (ys[0].events + Events(rest));
    }
  }

  lemma PullingDone(queue: seq<Disposition>, log: seq<Event>, ys: seq<Yield>, queue': seq<Disposition>,
                    log': seq<Event>, rest: seq<Yield>)
    requires Pulling(queue, log, ys, queue', log', None, rest)
    ensures rest == [] && queue' == queue + Dispositions(ys) && log' == log + Events(ys)
  {
    assert queue' + [] + Dispositions([]) == queue' && log' + Events([]) == log';
  }

  lemma PullingAdvance(queue: seq<Disposition>, log: seq<Event>, ys: seq<Yield>, queue': seq<Disposition>,
                       log': seq<Event>, next: Option<Disposition>, rest: seq<Yield>,
                       next': Option<Disposition>, rest': seq<Yield>, log'': seq<Event>)
    requires Pulling(queue, log, ys, queue', log', next, rest) && next.Some?
    requires Pulled(rest, log', next', rest', log'')
    ensures Pulling(queue, log, ys, queue' + [next.value], log'', next', rest')
  {
    PullingStart(queue' + [next.value], log', rest, next', rest', log'');
  }

  /** One pull takes the head off the remaining results and nothing else. */
  ghost predicate Pulled(ys: seq<Yield>, log: seq<Event>, r: Option<Disposition>,
                         ys': seq<Yield>, log': seq<Event>)
  {
    if ys == [] then r == None && ys' == [] && log' == log
    else r == Some(ys[0].disp) && ys' == ys[1..] && log' == log + ys[0].events
  }
}
