/** What each combinator does to the packets that come to it, told by what comes
    out: which act, which are dropped, what is sent, created and lost. */
module Combinators {
  import opened Wrappers
  import opened Batches
  import opened Sends

  // ---- what came out ----

  function SentIn(es: seq<Event>): seq<(nat, Packet)> {
    if es == [] then []
    else (if es[0].Sent? then [(es[0].sink, es[0].packet)] else []) + SentIn(es[1..])
  }

  function CreatedIn(es: seq<Event>): seq<Packet> {
    if es == [] then [] else (if es[0].Created? then [es[0].packet] else []) + CreatedIn(es[1..])
  }

  function LostIn(es: seq<Event>): seq<Packet> {
    if es == [] then [] else (if es[0].Lost? then [es[0].packet] else []) + LostIn(es[1..])
  }

  lemma {:induction false} EventsApart(xs: seq<Event>, ys: seq<Event>)
    ensures SentIn(xs + ys) == SentIn(xs) + SentIn(ys)
    ensures CreatedIn(xs + ys) == CreatedIn(xs) + CreatedIn(ys)
    ensures LostIn(xs + ys) == LostIn(xs) + LostIn(ys)
  {
    hide SentIn, CreatedIn, LostIn;
    if xs == [] {
      assert xs + ys == ys;
      EventsNil();
    } else {
      EventsApart(xs[1..], ys);
      EventsCons(xs[0], xs[1..]);
      EventsCons(xs[0], xs[1..] + ys);
      assert xs == [xs[0]] + xs[1..];
      assert xs + ys == [xs[0]] + (xs[1..] + ys);
    }
  }

  lemma EventsNil()
    ensures SentIn([]) == [] && CreatedIn([]) == [] && LostIn([]) == []
  {
  }

  lemma EventsCons(e: Event, es: seq<Event>)
    ensures SentIn([e] + es) == (if e.Sent? then [(e.sink, e.packet)] else []) + SentIn(es)
    ensures CreatedIn([e] + es) == (if e.Created? then [e.packet] else []) + CreatedIn(es)
    ensures LostIn([e] + es) == (if e.Lost? then [e.packet] else []) + LostIn(es)
  {
    assert ([e] + es)[1..] == es;
  }

  /** The packets that go on, in order, and the rest by kind. */
  datatype Tally = Tally(
    acted: seq<Packet>,
    dropped: multiset<Packet>,
    emitted: nat,
    aborted: nat,
    sent: multiset<(nat, Packet)>,
    created: multiset<Packet>,
    lost: multiset<Packet>)
  {
    function Plus(t: Tally): Tally {
      Tally(acted + t.acted, dropped + t.dropped, emitted + t.emitted, aborted + t.aborted,
            sent + t.sent, created + t.created, lost + t.lost)
    }
  }

  const Nothing := Tally([], multiset{}, 0, 0, multiset{}, multiset{}, multiset{})

  function Counted(ds: seq<Disposition>, es: seq<Event>): Tally {
    Tally(Acted(ds), multiset(Dropped(ds)), Emitted(ds), Aborted(ds),
          multiset(SentIn(es)), multiset(CreatedIn(es)), multiset(LostIn(es)))
  }

  ghost function Result(ys: seq<Yield>): Tally {
    Counted(Dispositions(ys), Events(ys))
  }

  lemma CountedAppend(ds: seq<Disposition>, ds': seq<Disposition>, es: seq<Event>, es': seq<Event>)
    ensures Counted(ds + ds', es + es') == Counted(ds, es).Plus(Counted(ds', es'))
  {
    SortAppend(ds, ds');
    EventsApart(es, es');
    hide Acted, Dropped, Emitted, Aborted, SentIn, CreatedIn, LostIn;
  }

  lemma ResultAppend(xs: seq<Yield>, ys: seq<Yield>)
    ensures Result(xs + ys) == Result(xs).Plus(Result(ys))
  {
    Split(xs, ys);
    CountedAppend(Dispositions(xs), Dispositions(ys), Events(xs), Events(ys));
    hide Dispositions, Events;
  }

  /** Each packet acts as often as `Act` of it came out, and likewise for drops. */
  lemma {:induction false} SortedByKind(ds: seq<Disposition>, p: Packet)
    ensures multiset(Acted(ds))[p] == multiset(ds)[Act(p)]
    ensures multiset(Dropped(ds))[p] == multiset(ds)[Drop(p)]
  {
    hide Acted, Dropped;
    if ds == [] {
      SortNil();
    } else {
      SortedByKind(ds[1..], p);
      SortCons(ds[0], ds[1..]);
      assert [ds[0]] + ds[1..] == ds;
    }
  }

  // ---- from one packet to all of them ----

  function All(fate: Packet -> Tally, ps: seq<Packet>): Tally {
    if ps == [] then Nothing else fate(ps[0]).Plus(All(fate, ps[1..]))
  }

  /** What happened below already, and no packet going on by itself. */
  ghost function Below(ys: seq<Yield>): Tally {
    Result(ys).(acted := [])
  }

  /** `fate` is what the combinator makes of a packet. */
  ghost predicate Fated(b: Batch, fate: Packet -> Tally)
    requires b.Valid() && !b.IsSource()
  {
    forall p: Packet, es: seq<Event> :: Result(b.Stage(Yield(Act(p), es))) == Counted([], es).Plus(fate(p))
  }

  /** A combinator deals with the packets that act, one by one and in order, and
      passes on all else. */
  lemma {:induction false} ThroughAll(b: Batch, ys: seq<Yield>, fate: Packet -> Tally)
    requires b.Valid() && !b.IsSource() && Fated(b, fate)
    ensures Result(b.Through(ys)) == Below(ys).Plus(All(fate, Acted(Dispositions(ys))))
  {
    hide Batch.Valid, Batch.Stage, Batch.Through, Acted, Dispositions, All, Result, Counted, Tally.Plus;
    NothingResults(b, fate);
    if ys != [] {
      var y, rest := ys[0], ys[1..];
      assert ys == [y] + rest;
      ThroughAll(b, rest, fate);
      ThroughCons(b, y, rest);
      ResultAppend(b.Stage(y), b.Through(rest));
      ResultAppend([y], rest);
      Split([y], rest);
      SortAppend([y.disp], Dispositions(rest));
      OneResult(y);
      var later := All(fate, Acted(Dispositions(rest)));
      if y.disp.Act? {
        var p := y.disp.packet;
        assert y == Yield(Act(p), y.events);
        AllCons(fate, p, Acted(Dispositions(rest)));
        Rearranged(p, y.events, fate(p), Result(rest), later);
      } else {
        b.StagePasses(y);
        Passed(y.disp, y.events, Result(rest), later);
        assert [] + Acted(Dispositions(rest)) == Acted(Dispositions(rest));
      }
    }
  }

  lemma ThroughCons(b: Batch, y: Yield, rest: seq<Yield>)
    requires b.Valid() && !b.IsSource()
    ensures b.Through([]) == [] && b.Through([y] + rest) == b.Stage(y) + b.Through(rest)
  {
    hide Batch.Valid, Batch.Stage, Batch.Denote;
    assert ([y] + rest)[1..] == rest;
  }

  lemma NothingResults(b: Batch, fate: Packet -> Tally)
    requires b.Valid() && !b.IsSource()
    ensures Result(b.Through([])) == Below([]).Plus(All(fate, Acted(Dispositions([]))))
  {
    hide Batch.Valid, Batch.Stage;
    ThroughCons(b, Yield(Emit, []), []);
    assert Result([]) == Nothing;
    hide Batch.Through;
  }

  /** A packet that acts is replaced by its fate. */
  lemma Rearranged(p: Packet, es: seq<Event>, f: Tally, r: Tally, a: Tally)
    ensures Counted([], es).Plus(f).Plus(r.(acted := []).Plus(a)) ==
            Counted([Act(p)], es).Plus(r).(acted := []).Plus(f.Plus(a))
  {
    SortNil();
    SortCons(Act(p), []);
    assert [Act(p)] + [] == [Act(p)] && [p] + [] == [p];
    assert Counted([Act(p)], es) == Counted([], es).(acted := [p]) && Counted([], es).acted == [];
    hide Counted;
    Reordered(Counted([], es), [p], f, r, a);
  }

  lemma Reordered(c: Tally, ps: seq<Packet>, f: Tally, r: Tally, a: Tally)
    requires c.acted == []
    ensures c.Plus(f).Plus(r.(acted := []).Plus(a)) == c.(acted := ps).Plus(r).(acted := []).Plus(f.Plus(a))
  {
    assert ([] + f.acted) + ([] + a.acted) == [] + (f.acted + a.acted);
  }

  /** Anything else is passed on. */
  lemma Passed(d: Disposition, es: seq<Event>, r: Tally, a: Tally)
    requires !d.Act?
    ensures Acted([d]) == []
    ensures Counted([d], es).Plus(r.(acted := []).Plus(a)) == Counted([d], es).Plus(r).(acted := []).Plus(a)
  {
    assert Acted([d]) == [] && [] + ([] + a.acted) == [] + a.acted;
    hide SentIn, CreatedIn, LostIn;
  }

  lemma OneResult(y: Yield)
    ensures Result([y]) == Counted([y.disp], y.events) && Dispositions([y]) == [y.disp]
  {
    SplitCons(y, []);
    assert [y] + [] == [y] && y.events + [] == y.events && [y.disp] + [] == [y.disp];
    SplitNil();
  }

  lemma AllCons(fate: Packet -> Tally, p: Packet, ps: seq<Packet>)
    ensures All(fate, [p] + ps) == fate(p).Plus(All(fate, ps))
    ensures Acted([Act(p)]) == [p]
  {
    assert ([p] + ps)[1..] == ps;
  }

  // ---- the combinators, one by one ----

  function Select(keep: Packet -> bool, ps: seq<Packet>): seq<Packet> {
    if ps == [] then [] else (if keep(ps[0]) then [ps[0]] else []) + Select(keep, ps[1..])
  }

  /** The results of the successful calls, in order. */
  function Images(f: Packet -> Fallible<Packet>, ps: seq<Packet>): seq<Packet> {
    if ps == [] then [] else (if f(ps[0]).Ok? then [f(ps[0]).value] else []) + Images(f, ps[1..])
  }

  function Fails<T>(f: Packet -> Fallible<T>): Packet -> bool {
    p => f(p).Err?
  }

  function Succeeds<T>(f: Packet -> Fallible<T>): Packet -> bool {
    p => f(p).Ok?
  }

  function Not(keep: Packet -> bool): Packet -> bool {
    p => !keep(p)
  }

  /** The results that a fallible choice keeps, or those it discards. */
  function Chosen(choose: Packet -> Fallible<Either>, keep: bool): Packet -> Fallible<Packet> {
    p => if choose(p).Err? || choose(p).value.Keep? != keep then Err(0)
         else if keep then Ok(choose(p).value.kept) else Ok(choose(p).value.mbuf)
  }

  function Only(keep: Packet -> bool): Packet -> Fallible<Packet> {
    p => if keep(p) then Ok(p) else Err(0)
  }

  function Never(): Packet -> Fallible<Packet> {
    p => Err(0)
  }

  lemma {:induction false} ImagesOnly(keep: Packet -> bool, ps: seq<Packet>)
    ensures Images(Only(keep), ps) == Select(keep, ps) && Images(Never(), ps) == []
  {
    if ps != [] {
      ImagesOnly(keep, ps[1..]);
    }
  }

  lemma {:induction false} NoneSelected(keep: Packet -> bool, ps: seq<Packet>)
    requires forall p: Packet :: !keep(p)
    ensures Select(keep, ps) == []
  {
    if ps != [] {
      NoneSelected(keep, ps[1..]);
    }
  }

  function ToSink(tx: nat, ps: seq<Packet>): multiset<(nat, Packet)> {
    if ps == [] then multiset{} else multiset{(tx, ps[0])} + ToSink(tx, ps[1..])
  }

  /** A tally of what acts, what is dropped, what is new, and what fails. */
  function Dealt(acted: seq<Packet>, dropped: seq<Packet>, created: seq<Packet>, failed: seq<Packet>): Tally {
    Tally(acted, multiset(dropped), 0, |failed|, multiset{}, multiset(created), multiset(failed))
  }

  function List(r: Fallible<Packet>): seq<Packet> {
    if r.Ok? then [r.value] else []
  }

  /** One packet, dealt with by what goes on, falls, is made, and fails. */
  function Deal(goes: Packet -> Fallible<Packet>, falls: Packet -> Fallible<Packet>,
                makes: Packet -> Fallible<Packet>, fails: Packet -> bool): Packet -> Tally {
    p => Dealt(List(goes(p)), List(falls(p)), List(makes(p)), if fails(p) then [p] else [])
  }

  lemma {:induction false} AllDealt(goes: Packet -> Fallible<Packet>, falls: Packet -> Fallible<Packet>,
                                    makes: Packet -> Fallible<Packet>, fails: Packet -> bool, ps: seq<Packet>)
    ensures All(Deal(goes, falls, makes, fails), ps) ==
            Dealt(Images(goes, ps), Images(falls, ps), Images(makes, ps), Select(fails, ps))
  {
    if ps != [] {
      AllDealt(goes, falls, makes, fails, ps[1..]);
    }
  }

  /** A combinator that makes one result of one packet. */
  lemma OneStage(d: Disposition, es: seq<Event>, xs: seq<Event>)
    ensures Result([Yield(d, es + xs)]) == Counted([], es).Plus(Counted([d], xs))
    ensures es + [] == es
  {
    OneResult(Yield(d, es + xs));
    CountedAppend([], [d], es, xs);
    assert [] + [d] == [d];
    hide Result, Counted;
  }

  lemma OneCounted(p: Packet, e: nat)
    ensures Counted([Act(p)], []) == Dealt([p], [], [], [])
    ensures Counted([Drop(p)], []) == Dealt([], [p], [], [])
    ensures Counted([Abort(e)], [Lost(p)]) == Dealt([], [], [], [p])
  {
    SortCons(Act(p), []);
    SortCons(Drop(p), []);
    SortCons(Abort(e), []);
    SortNil();
    EventsCons(Lost(p), []);
    EventsNil();
    assert [Act(p)] + [] == [Act(p)] && [Drop(p)] + [] == [Drop(p)] && [Abort(e)] + [] == [Abort(e)];
    assert [Lost(p)] + [] == [Lost(p)] && [p] + [] == [p];
    hide Acted, Dropped, Emitted, Aborted, SentIn, CreatedIn, LostIn;
  }

  /** `Filter` lets through what satisfies the predicate and drops the rest. */
  lemma FilterMeans(b: Batch, ys: seq<Yield>)
    requires b.Valid() && b.Filter?
    ensures var ps := Acted(Dispositions(ys));
      Result(b.Through(ys)) == Below(ys).Plus(Dealt(Select(b.keep, ps), Select(Not(b.keep), ps), [], []))
  {
    var ps, no := Acted(Dispositions(ys)), p => false;
    var fate := Deal(Only(b.keep), Only(Not(b.keep)), Never(), no);
    forall p: Packet, es: seq<Event> ensures Result(b.Stage(Yield(Act(p), es))) == Counted([], es).Plus(fate(p)) {
      hide Batch.Valid, Result, Counted, Dealt, Tally.Plus;
      OneCounted(p, 0);
      OneStage(if b.keep(p) then Act(p) else Drop(p), es, []);
    }
    hide *;
    ThroughAll(b, ys, fate);
    AllDealt(Only(b.keep), Only(Not(b.keep)), Never(), no, ps);
    ImagesOnly(b.keep, ps);
    ImagesOnly(Not(b.keep), ps);
    NoneSelected(no, ps);
  }

  /** `Map` replaces every packet by its image; where there is none, the packet is
      lost and the result aborted. */
  lemma MapMeans(b: Batch, ys: seq<Yield>)
    requires b.Valid() && b.Map?
    ensures var ps := Acted(Dispositions(ys));
      Result(b.Through(ys)) == Below(ys).Plus(Dealt(Images(b.f, ps), [], [], Select(Fails(b.f), ps)))
  {
    var ps := Acted(Dispositions(ys));
    var fate := Deal(b.f, Never(), Never(), Fails(b.f));
    forall p: Packet, es: seq<Event> ensures Result(b.Stage(Yield(Act(p), es))) == Counted([], es).Plus(fate(p)) {
      hide Batch.Valid, Result, Counted, Dealt, Tally.Plus;
      if b.f(p).Ok? {
        OneCounted(b.f(p).value, 0);
        OneStage(Act(b.f(p).value), es, []);
      } else {
        OneCounted(p, b.f(p).error);
        OneStage(Abort(b.f(p).error), es, [Lost(p)]);
      }
    }
    hide *;
    ThroughAll(b, ys, fate);
    AllDealt(b.f, Never(), Never(), Fails(b.f), ps);
    ImagesOnly(Fails(b.f), ps);
  }

  /** `FilterMap` does so with what its choice keeps, and drops what it discards. */
  lemma FilterMapMeans(b: Batch, ys: seq<Yield>)
    requires b.Valid() && b.FilterMap?
    ensures var ps := Acted(Dispositions(ys));
      Result(b.Through(ys)) ==
      Below(ys).Plus(Dealt(Images(Chosen(b.choose, true), ps), Images(Chosen(b.choose, false), ps), [],
                           Select(Fails(b.choose), ps)))
  {
    var ps, choose := Acted(Dispositions(ys)), b.choose;
    var fate := Deal(Chosen(choose, true), Chosen(choose, false), Never(), Fails(choose));
    forall p: Packet, es: seq<Event> ensures Result(b.Stage(Yield(Act(p), es))) == Counted([], es).Plus(fate(p)) {
      FilterMapStage(b, p, es);
    }
    hide *;
    ThroughAll(b, ys, fate);
    AllDealt(Chosen(choose, true), Chosen(choose, false), Never(), Fails(choose), ps);
    ImagesOnly(Fails(choose), ps);
  }

  lemma FilterMapStage(b: Batch, p: Packet, es: seq<Event>)
    requires b.Valid() && b.FilterMap?
    ensures Result(b.Stage(Yield(Act(p), es))) ==
            Counted([], es).Plus(Deal(Chosen(b.choose, true), Chosen(b.choose, false), Never(), Fails(b.choose))(p))
  {
    hide Batch.Valid, Result, Counted, Dealt, Tally.Plus;
    match b.choose(p)
    case Ok(Keep(q)) =>
      OneCounted(q, 0);
      OneStage(Act(q), es, []);
    case Ok(Discard(q)) =>
      OneCounted(q, 0);
      OneStage(Drop(q), es, []);
    case Err(e) =>
      OneCounted(p, e);
      OneStage(Abort(e), es, [Lost(p)]);
  }

  /** `ForEach` lets every packet through on which the check succeeds. */
  lemma ForEachMeans(b: Batch, ys: seq<Yield>)
    requires b.Valid() && b.ForEach?
    ensures var ps := Acted(Dispositions(ys));
      Result(b.Through(ys)) ==
      Below(ys).Plus(Dealt(Select(Succeeds(b.check), ps), [], [], Select(Fails(b.check), ps)))
  {
    var ps, check := Acted(Dispositions(ys)), b.check;
    var fate := Deal(Only(Succeeds(check)), Never(), Never(), Fails(check));
    forall p: Packet, es: seq<Event> ensures Result(b.Stage(Yield(Act(p), es))) == Counted([], es).Plus(fate(p)) {
      hide Batch.Valid, Result, Counted, Dealt, Tally.Plus;
      if check(p).Ok? {
        OneCounted(p, 0);
        OneStage(Act(p), es, []);
      } else {
        OneCounted(p, check(p).error);
        OneStage(Abort(check(p).error), es, [Lost(p)]);
      }
    }
    hide *;
    ThroughAll(b, ys, fate);
    AllDealt(Only(Succeeds(check)), Never(), Never(), Fails(check), ps);
    ImagesOnly(Succeeds(check), ps);
  }

  /** `Replace` sends every image on instead of the packet it was made of, which is
      dropped; the images are exactly what has been created. */
  lemma ReplaceMeans(b: Batch, ys: seq<Yield>)
    requires b.Valid() && b.Replace?
    ensures var ps := Acted(Dispositions(ys));
      Result(b.Through(ys)) ==
      Below(ys).Plus(Dealt(Images(b.f, ps), Select(Succeeds(b.f), ps), Images(b.f, ps), Select(Fails(b.f), ps)))
  {
    var ps, f := Acted(Dispositions(ys)), b.f;
    var fate := Deal(f, Only(Succeeds(f)), f, Fails(f));
    forall p: Packet, es: seq<Event> ensures Result(b.Stage(Yield(Act(p), es))) == Counted([], es).Plus(fate(p)) {
      ReplaceStage(b, p, es);
    }
    hide *;
    ThroughAll(b, ys, fate);
    AllDealt(f, Only(Succeeds(f)), f, Fails(f), ps);
    ImagesOnly(Succeeds(f), ps);
  }

  /** The replacement comes first and the original is dropped next. */
  lemma ReplaceStage(b: Batch, p: Packet, es: seq<Event>)
    requires b.Valid() && b.Replace?
    ensures b.f(p).Ok? ==> Dispositions(b.Stage(Yield(Act(p), es))) == [Act(b.f(p).value), Drop(p)]
    ensures Result(b.Stage(Yield(Act(p), es))) ==
            Counted([], es).Plus(Deal(b.f, Only(Succeeds(b.f)), b.f, Fails(b.f))(p))
  {
    hide Batch.Valid, Counted, Tally.Plus;
    if b.f(p).Ok? {
      var q := b.f(p).value;
      var ds, xs := [Act(q), Drop(p)], [Created(q)];
      assert b.Stage(Yield(Act(p), es)) == [Yield(Act(q), es + xs), Yield(Drop(p), [])];
      TwoResults(Act(q), es + xs, Drop(p));
      CountedAppend([], ds, es, xs);
      assert [] + ds == ds;
      ReplacedCounted(p, q);
    } else {
      OneCounted(p, b.f(p).error);
      OneStage(Abort(b.f(p).error), es, [Lost(p)]);
    }
  }

  lemma TwoResults(d: Disposition, es: seq<Event>, d': Disposition)
    ensures Dispositions([Yield(d, es), Yield(d', [])]) == [d, d'] && Events([Yield(d, es), Yield(d', [])]) == es
  {
    var ys := [Yield(d, es), Yield(d', [])];
    assert ys == [Yield(d, es)] + [Yield(d', [])];
    OneResult(Yield(d', []));
    SplitCons(Yield(d, es), [Yield(d', [])]);
    SplitCons(Yield(d', []), []);
    SplitNil();
    assert [Yield(d', [])] + [] == [Yield(d', [])] && es + ([] + []) == es;
    hide Dispositions, Events;
  }

  lemma ReplacedCounted(p: Packet, q: Packet)
    ensures Counted([Act(q), Drop(p)], [Created(q)]) == Dealt([q], [p], [q], [])
  {
    SortCons(Act(q), [Drop(p)]);
    SortCons(Drop(p), []);
    SortNil();
    EventsCons(Created(q), []);
    EventsNil();
    assert [Act(q)] + [Drop(p)] == [Act(q), Drop(p)] && [Drop(p)] + [] == [Drop(p)];
    assert [Created(q)] + [] == [Created(q)] && [q] + [] == [q] && [p] + [] == [p] && [] + [p] == [p];
    hide Acted, Dropped, Emitted, Aborted, SentIn, CreatedIn, LostIn;
  }

  /** `Inspect` changes nothing. */
  lemma {:induction false} InspectMeans(b: Batch, ys: seq<Yield>)
    requires b.Valid() && b.Inspect?
    ensures b.Through(ys) == ys
  {
    if ys != [] {
      InspectMeans(b, ys[1..]);
      assert ys == [ys[0]] + ys[1..];
    }
  }

  /** `Emit` lets nothing go on: every packet is sent to its sink, and counted. */
  lemma EmitMeans(b: Batch, ys: seq<Yield>)
    requires b.Valid() && b.EmitTo?
    ensures var ps := Acted(Dispositions(ys));
      Result(b.Through(ys)) == Below(ys).Plus(Nothing.(emitted := |ps|, sent := ToSink(b.tx, ps)))
  {
    var ps, tx := Acted(Dispositions(ys)), b.tx;
    var fate := (p: Packet) => Nothing.(emitted := 1, sent := multiset{(tx, p)});
    forall p: Packet, es: seq<Event> ensures Result(b.Stage(Yield(Act(p), es))) == Counted([], es).Plus(fate(p)) {
      hide Batch.Valid, Result, Counted, Tally.Plus;
      EmitCounted(tx, p);
      OneStage(Emit, es, [Sent(tx, p)]);
    }
    hide Batch.Valid, Batch.Through, Batch.Stage, Result, All, Tally.Plus;
    ThroughAll(b, ys, fate);
    AllSent(tx, fate, ps);
  }

  lemma EmitCounted(tx: nat, p: Packet)
    ensures Counted([Emit], [Sent(tx, p)]) == Nothing.(emitted := 1, sent := multiset{(tx, p)})
  {
    SortCons(Emit, []);
    SortNil();
    EventsCons(Sent(tx, p), []);
    EventsNil();
    assert [Emit] + [] == [Emit] && [Sent(tx, p)] + [] == [Sent(tx, p)];
    hide Acted, Dropped, Emitted, Aborted, SentIn, CreatedIn, LostIn;
  }

  lemma {:induction false} AllSent(tx: nat, fate: Packet -> Tally, ps: seq<Packet>)
    requires forall p: Packet :: fate(p) == Nothing.(emitted := 1, sent := multiset{(tx, p)})
    ensures All(fate, ps) == Nothing.(emitted := |ps|, sent := ToSink(tx, ps))
  {
    if ps != [] {
      AllSent(tx, fate, ps[1..]);
    }
  }

  /** A packet goes through the arm of its own key, or through the catch-all if
      there is none, and its results come out in the order of that arm. */
  lemma GroupRoutes(b: Batch, p: Packet, es: seq<Event>, k: int)
    requires b.Valid() && b.GroupBy? && b.selector(p) == k
    ensures Some(k) in b.branches ==>
              var ys := b.branches[Some(k)].Denote(p);
              && Dispositions(b.Stage(Yield(Act(p), es))) == Dispositions(ys)
              && Events(b.Stage(Yield(Act(p), es))) == es + Events(ys)
    ensures Some(k) !in b.branches ==>
              var ys := b.branches[None].Denote(p);
              && Dispositions(b.Stage(Yield(Act(p), es))) == Dispositions(ys)
              && Events(b.Stage(Yield(Act(p), es))) == es + Events(ys)
  {
    var arm := if Some(k) in b.branches then b.branches[Some(k)] else b.branches[None];
    assert arm.Valid() && b.Stage(Yield(Act(p), es)) == Fanned(es, arm.Denote(p));
    hide *;
    FannedResults(es, arm.Denote(p));
  }

  lemma FannedResults(es: seq<Event>, ys: seq<Yield>)
    requires ys != []
    ensures Dispositions(Fanned(es, ys)) == Dispositions(ys) && Events(Fanned(es, ys)) == es + Events(ys)
  {
    var ds := Dispositions(ys[1..]);
    QueuedResults(ds);
    SplitCons(Yield(ys[0].disp, es + Events(ys)), Queued(ds));
    SplitCons(ys[0], ys[1..]);
    assert [ys[0]] + ys[1..] == ys && es + Events(ys) + [] == es + Events(ys);
    hide Dispositions, Events;
  }

  lemma {:induction false} QueuedResults(ds: seq<Disposition>)
    ensures Dispositions(Queued(ds)) == ds && Events(Queued(ds)) == []
  {
    if ds != [] {
      QueuedResults(ds[1..]);
      SplitCons(Yield(ds[0], []), Queued(ds[1..]));
      assert [ds[0]] + ds[1..] == ds;
      hide Dispositions, Events;
    } else {
      SplitNil();
    }
  }
}
