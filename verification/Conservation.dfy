/** No packet is lost or duplicated by a pipeline: laws about the list
    semantics that hold for every tree of combinators and every closure. */
module Conservation {
  import opened Batches
  import opened Sends

  /** A way to weigh what leaves a pipeline. A packet that is let through or
      dropped weighs `hold` of its buffer. */
  datatype Ledger = Ledger(hold: nat -> int, emit: int, abort: int)
  {
    function OfDisposition(d: Disposition): int {
      match d
      case Act(p) => hold(p.id)
      case Drop(p) => hold(p.id)
      case Emit => emit
      case Abort(_) => abort
    }

    function OfEvent(e: Event): int {
      match e
      case Sent(_, p) => hold(p.id) - emit
      case Lost(p) => hold(p.id) - abort
      case Created(p) => -hold(p.id)
    }

    function OfDispositions(ds: seq<Disposition>): int {
      if ds == [] then 0 else OfDisposition(ds[0]) + OfDispositions(ds[1..])
    }

    function OfEvents(es: seq<Event>): int {
      if es == [] then 0 else OfEvent(es[0]) + OfEvents(es[1..])
    }

    function OfPackets(ps: seq<Packet>): int {
      if ps == [] then 0 else hold(ps[0].id) + OfPackets(ps[1..])
    }

    ghost function Balance(ys: seq<Yield>): int {
      OfDispositions(Dispositions(ys)) + OfEvents(Events(ys))
    }

    /** A closure that maps a packet hands on a buffer of the same weight. */
    ghost predicate Respects(b: Batch)
    {
      match b
      case Poll(_) => true
      case FromBridge(_) => true
      case Map(batch, f) =>
        Respects(batch) && forall p: Packet :: f(p).Ok? ==> hold(f(p).value.id) == hold(p.id)
      case FilterMap(batch, choose) =>
        && Respects(batch)
        && (forall p: Packet ::
              choose(p).Ok? && choose(p).value.Keep? ==> hold(choose(p).value.kept.id) == hold(p.id))
        && (forall p: Packet ::
              choose(p).Ok? && choose(p).value.Discard? ==> hold(choose(p).value.mbuf.id) == hold(p.id))
      case GroupBy(batch, _, _, branches, _) =>
        Respects(batch) && forall k | k in branches :: Respects(branches[k])
      case _ => Respects(b.batch)
    }

    lemma {:induction false} EventsAppend(xs: seq<Event>, ys: seq<Event>)
      ensures OfEvents(xs + ys) == OfEvents(xs) + OfEvents(ys)
    {
      if xs == [] {
        assert xs + ys == ys;
      } else {
        EventsAppend(xs[1..], ys);
        assert (xs + ys)[1..] == xs[1..] + ys;
      }
    }

    lemma {:induction false} DispositionsAppend(xs: seq<Disposition>, ys: seq<Disposition>)
      ensures OfDispositions(xs + ys) == OfDispositions(xs) + OfDispositions(ys)
    {
      if xs == [] {
        assert xs + ys == ys;
      } else {
        DispositionsAppend(xs[1..], ys);
        assert (xs + ys)[1..] == xs[1..] + ys;
      }
    }

    lemma BalanceAppend(xs: seq<Yield>, ys: seq<Yield>)
      ensures Balance(xs + ys) == Balance(xs) + Balance(ys)
    {
      Split(xs, ys);
      EventsAppend(Events(xs), Events(ys));
      DispositionsAppend(Dispositions(xs), Dispositions(ys));
    }

    lemma BalanceOne(d: Disposition, es: seq<Event>)
      ensures Balance([Yield(d, es)]) == OfDisposition(d) + OfEvents(es)
    {
      var ys := [Yield(d, es)];
      assert ys[1..] == [] && [d][1..] == [];
      assert Dispositions(ys) == [d] && Events(ys) == es;
      assert OfDispositions([d]) == OfDisposition(d) + OfDispositions([d][1..]);
    }

    lemma BalanceQueued(ds: seq<Disposition>)
      ensures Balance(Queued(ds)) == OfDispositions(ds)
    {
      if ds != [] {
        BalanceQueued(ds[1..]);
        BalanceOne(ds[0], []);
        BalanceAppend([Yield(ds[0], [])], Queued(ds[1..]));
      }
    }

    lemma BalanceFanned(before: seq<Event>, ys: seq<Yield>)
      requires ys != []
      ensures Balance(Fanned(before, ys)) == OfEvents(before) + Balance(ys)
    {
      var rest := Dispositions(ys[1..]);
      BalanceOne(ys[0].disp, before + Events(ys));
      EventsAppend(before, Events(ys));
      BalanceQueued(rest);
      BalanceAppend([Yield(ys[0].disp, before + Events(ys))], Queued(rest));
    }

    lemma TransformBalance(b: Batch, y: Yield)
      requires b.Valid() && b.IsTransform() && Respects(b) && y.disp.Act?
      ensures Balance(b.Stage(y)) == OfDisposition(y.disp) + OfEvents(y.events)
    {
      var p, ys := y.disp.packet, b.Stage(y);
      EventsAppend(y.events, [if b.EmitTo? then Sent(b.tx, p) else Lost(p)]);
      BalanceOne(ys[0].disp, ys[0].events);
      hide Batch.Valid, Balance;
    }

    lemma ReplaceBalance(b: Batch, y: Yield)
      requires b.Valid() && b.Replace? && y.disp.Act?
      ensures Balance(b.Stage(y)) == OfDisposition(y.disp) + OfEvents(y.events)
    {
      var p, ys := y.disp.packet, b.Stage(y);
      BalanceOne(ys[0].disp, ys[0].events);
      if b.f(p).Ok? {
        EventsAppend(y.events, [Created(b.f(p).value)]);
        BalanceOne(Drop(p), []);
        BalanceAppend([ys[0]], [Yield(Drop(p), [])]);
        assert ys == [ys[0]] + [Yield(Drop(p), [])];
      } else {
        EventsAppend(y.events, [Lost(p)]);
      }
    }

    /** No combinator changes the balance of a single result. */
    lemma StageBalance(b: Batch, y: Yield)
      requires b.Valid() && !b.IsSource() && Respects(b)
      ensures Balance(b.Stage(y)) == OfDisposition(y.disp) + OfEvents(y.events)
      decreases b, 0
    {
      hide Balance, OfDispositions, OfEvents;
      if !y.disp.Act? {
        b.StagePasses(y);
        BalanceOne(y.disp, y.events);
      } else if b.GroupBy? {
        var p := y.disp.packet;
        DenoteBalance(b.Branch(p), p);
        BalanceFanned(y.events, b.Branch(p).Denote(p));
      } else if b.Replace? {
        ReplaceBalance(b, y);
      } else {
        TransformBalance(b, y);
      }
    }

    lemma ThroughBalance(b: Batch, ys: seq<Yield>)
      requires b.Valid() && !b.IsSource() && Respects(b)
      ensures Balance(b.Through(ys)) == Balance(ys)
      decreases b, 1, |ys|
    {
      if ys != [] {
        StageBalance(b, ys[0]);
        ThroughBalance(b, ys[1..]);
        BalanceAppend(b.Stage(ys[0]), b.Through(ys[1..]));
        BalanceOne(ys[0].disp, ys[0].events);
        assert ys == [ys[0]] + ys[1..];
        BalanceAppend([ys[0]], ys[1..]);
      }
    }

    lemma DenoteBalance(b: Batch, p: Packet)
      requires b.Valid() && Respects(b)
      ensures Balance(b.Denote(p)) == hold(p.id)
      decreases b, 2
    {
      if b.IsSource() {
        BalanceOne(Act(p), []);
      } else {
        DenoteBalance(b.batch, p);
        ThroughBalance(b, b.batch.Denote(p));
      }
    }

    /** Whatever goes in comes out, through nested groups and replacements. */
    lemma {:induction false} Conserved(b: Batch, ps: seq<Packet>)
      requires b.Valid() && Respects(b)
      ensures Balance(b.FlatMap(ps)) == OfPackets(ps)
    {
      if ps != [] {
        Conserved(b, ps[1..]);
        DenoteBalance(b, ps[0]);
        BalanceAppend(b.Denote(ps[0]), b.FlatMap(ps[1..]));
      }
    }
  }

  // ---- counting: the packets that satisfy `q` of their buffer ----

  function One(b: bool): nat {
    if b then 1 else 0
  }

  function Count(q: nat -> bool, ps: seq<Packet>): nat {
    if ps == [] then 0 else One(q(ps[0].id)) + Count(q, ps[1..])
  }

  function CountSent(q: nat -> bool, es: seq<Event>): nat {
    if es == [] then 0 else One(es[0].Sent? && q(es[0].packet.id)) + CountSent(q, es[1..])
  }

  function CountLost(q: nat -> bool, es: seq<Event>): nat {
    if es == [] then 0 else One(es[0].Lost? && q(es[0].packet.id)) + CountLost(q, es[1..])
  }

  function CountCreated(q: nat -> bool, es: seq<Event>): nat {
    if es == [] then 0 else One(es[0].Created? && q(es[0].packet.id)) + CountCreated(q, es[1..])
  }

  /** Counts buffers; emitted and aborted results hold none. */
  function Buffers(q: nat -> bool): Ledger {
    Ledger((id: nat) => One(q(id)), 0, 0)
  }

  lemma {:induction false} BuffersOfEvents(q: nat -> bool, es: seq<Event>)
    ensures Buffers(q).OfEvents(es) == CountSent(q, es) + CountLost(q, es) - CountCreated(q, es)
  {
    if es != [] {
      BuffersOfEvents(q, es[1..]);
    }
  }

  lemma {:induction false} BuffersOfDispositions(q: nat -> bool, ds: seq<Disposition>)
    ensures Buffers(q).OfDispositions(ds) == Count(q, Acted(ds)) + Count(q, Dropped(ds))
  {
    if ds != [] {
      BuffersOfDispositions(q, ds[1..]);
      assert [] + Acted(ds[1..]) == Acted(ds[1..]) && [] + Dropped(ds[1..]) == Dropped(ds[1..]);
      if ds[0].Act? {
        assert ([ds[0].packet] + Acted(ds[1..]))[1..] == Acted(ds[1..]);
      } else if ds[0].Drop? {
        assert ([ds[0].mbuf] + Dropped(ds[1..]))[1..] == Dropped(ds[1..]);
      }
    }
  }

  lemma {:induction false} BuffersOfPackets(q: nat -> bool, ps: seq<Packet>)
    ensures Buffers(q).OfPackets(ps) == Count(q, ps)
  {
    if ps != [] {
      BuffersOfPackets(q, ps[1..]);
    }
  }

  /** Over any number of runs, every buffer that was received or created has
      been transmitted, emitted, bulk freed or lost to an abort, once. */
  lemma NothingLost(s: Send, q: nat -> bool)
    requires s.Ready() && Buffers(q).Respects(s.batch)
    ensures Count(q, s.received) + CountCreated(q, s.trace.log) ==
            Count(q, Flat(s.transmitted)) + CountSent(q, s.trace.log) +
            Count(q, Flat(s.freed)) + CountLost(q, s.trace.log)
  {
    var ys := s.batch.FlatMap(s.received);
    Buffers(q).Conserved(s.batch, s.received);
    BuffersOfPackets(q, s.received);
    BuffersOfEvents(q, Events(ys));
    BuffersOfDispositions(q, Dispositions(ys));
  }

  // ---- the counters, for arbitrary closures ----

  lemma {:induction false} UniformRespects(l: Ledger, w: int, b: Batch)
    requires forall id: nat :: l.hold(id) == w
    ensures l.Respects(b)
  {
    if !b.IsSource() {
      UniformRespects(l, w, b.batch);
      if b.GroupBy? {
        forall k | k in b.branches ensures l.Respects(b.branches[k]) {
          UniformRespects(l, w, b.branches[k]);
        }
      }
    }
  }

  lemma {:induction false} EmitsOf(l: Ledger, ds: seq<Disposition>, es: seq<Event>)
    requires l.emit == 1 && l.abort == 0 && forall id: nat :: l.hold(id) == 0
    ensures l.OfDispositions(ds) == Emitted(ds)
    ensures l.OfEvents(es) + CountSent((id: nat) => true, es) == 0
    decreases |ds| + |es|
  {
    if ds != [] {
      EmitsOf(l, ds[1..], es);
    } else if es != [] {
      EmitsOf(l, ds, es[1..]);
    }
  }

  lemma {:induction false} AbortsOf(l: Ledger, ds: seq<Disposition>, es: seq<Event>)
    requires l.emit == 0 && l.abort == 1 && forall id: nat :: l.hold(id) == 0
    ensures l.OfDispositions(ds) == Aborted(ds)
    ensures l.OfEvents(es) + CountLost((id: nat) => true, es) == 0
    decreases |ds| + |es|
  {
    if ds != [] {
      AbortsOf(l, ds[1..], es);
    } else if es != [] {
      AbortsOf(l, ds, es[1..]);
    }
  }

  lemma {:induction false} NoneOf(l: Ledger, ps: seq<Packet>)
    requires forall id: nat :: l.hold(id) == 0
    ensures l.OfPackets(ps) == 0
  {
    if ps != [] {
      NoneOf(l, ps[1..]);
    }
  }

  lemma {:induction false} CountAll(q: nat -> bool, ps: seq<Packet>)
    requires forall id: nat :: q(id)
    ensures Count(q, ps) == |ps|
  {
    if ps != [] {
      CountAll(q, ps[1..]);
    }
  }

  /** What the counters of a pipeline mean, whatever its closures do. */
  lemma CountersAccount(s: Send)
    requires s.Ready()
    ensures s.processed == |Flat(s.transmitted)| + CountSent((id: nat) => true, s.trace.log)
    ensures s.dropped == |Flat(s.freed)|
    ensures s.errors == CountLost((id: nat) => true, s.trace.log)
    ensures s.processed + s.dropped + s.errors ==
            |s.received| + CountCreated((id: nat) => true, s.trace.log)
  {
    var ys := s.batch.FlatMap(s.received);
    var all := (id: nat) => true;
    var emits := Ledger((id: nat) => 0, 1, 0);
    UniformRespects(emits, 0, s.batch);
    emits.Conserved(s.batch, s.received);
    EmitsOf(emits, Dispositions(ys), Events(ys));
    NoneOf(emits, s.received);

    var aborts := Ledger((id: nat) => 0, 0, 1);
    UniformRespects(aborts, 0, s.batch);
    aborts.Conserved(s.batch, s.received);
    AbortsOf(aborts, Dispositions(ys), Events(ys));
    NoneOf(aborts, s.received);

    forall id: nat ensures Buffers(all).hold(id) == 1 {
      assert all(id);
    }
    UniformRespects(Buffers(all), 1, s.batch);
    NothingLost(s, all);
    CountAll(all, s.received);
    CountAll(all, Flat(s.transmitted));
    CountAll(all, Flat(s.freed));
  }
}
