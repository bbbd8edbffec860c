/** Neighbor discovery options: type, length in units of 8 octets, body
    (capsule/src/packets/icmp/v6/ndp). */
module Ndp {
  import opened Bytes
  import opened Wrappers
  import opened Mbufs

  datatype OptionError = Short | ZeroLength

  /** The size that the length byte of an option gives. */
  function Extent(r: seq<U8>): nat
    requires 2 <= |r|
  {
    var units: int := r[1];
    8 * units
  }

  /** The region begins with an option that does not run past its end. */
  predicate Fits(r: seq<U8>) {
    2 <= |r| && Extent(r) <= |r|
  }

  /** The bytes of one whole option. */
  predicate IsOption(o: seq<U8>) {
    2 <= |o| == Extent(o)
  }

  function Flatten(options: seq<seq<U8>>): seq<U8> {
    if options == [] then [] else options[0] + Flatten(options[1..])
  }

  /** The options a region holds; an option of length zero is never passed. */
  function Options(r: seq<U8>): Result<seq<seq<U8>>, OptionError> {
    if r == [] then Ok([])
    else if !Fits(r) then Err(Short)
    else if Extent(r) == 0 then Err(ZeroLength)
    else
      match Options(r[Extent(r)..])
      case Err(e) => Err(e)
      case Ok(rest) => Ok([r[..Extent(r)]] + rest)
  }

  lemma OptionsCons(o: seq<U8>, r: seq<U8>)
    requires IsOption(o)
    ensures Options(o + r) == if Options(r).Ok? then Ok([o] + Options(r).value) else Options(r)
  {
    assert (o + r)[1] == o[1];
    assert (o + r)[Extent(o)..] == r && (o + r)[..Extent(o)] == o;
  }

  lemma {:induction false} OptionsOfFlat(options: seq<seq<U8>>)
    requires forall i | 0 <= i < |options| :: IsOption(options[i])
    ensures Options(Flatten(options)) == Ok(options)
  {
    if options != [] {
      OptionsOfFlat(options[1..]);
      OptionsCons(options[0], Flatten(options[1..]));
      assert [options[0]] + options[1..] == options;
    }
  }

  lemma {:induction false} FlatOfOptions(r: seq<U8>)
    requires Options(r).Ok?
    ensures Flatten(Options(r).value) == r
    ensures forall i | 0 <= i < |Options(r).value| :: IsOption(Options(r).value[i])
  {
    if r != [] {
      FlatOfOptions(r[Extent(r)..]);
      var rest := Options(r[Extent(r)..]).value;
      assert Options(r).value == [r[..Extent(r)]] + rest;
      assert Options(r).value[1..] == rest;
    }
  }

  /** A region parses into options exactly if they tile it, in order. */
  lemma OptionsTile(r: seq<U8>, options: seq<seq<U8>>)
    ensures Options(r) == Ok(options) <==>
            r == Flatten(options) && forall i | 0 <= i < |options| :: IsOption(options[i])
  {
    if Options(r) == Ok(options) {
      FlatOfOptions(r);
    }
    if r == Flatten(options) && forall i | 0 <= i < |options| :: IsOption(options[i]) {
      OptionsOfFlat(options);
    }
  }

  lemma {:induction false} OptionsAppend(r: seq<U8>, s: seq<U8>)
    requires Options(r).Ok?
    ensures Options(r + s) == if Options(s).Ok? then Ok(Options(r).value + Options(s).value) else Options(s)
  {
    if r == [] {
      assert r + s == s;
      assert Options(s).Ok? ==> [] + Options(s).value == Options(s).value;
    } else {
      var o, rest := r[..Extent(r)], r[Extent(r)..];
      assert Options(rest).Ok? && Options(r).value == [o] + Options(rest).value && IsOption(o);
      hide Options, Extent;
      OptionsAppend(rest, s);
      OptionsCons(o, rest + s);
      assert r == o + rest;
      Associative(o, rest, s);
      if Options(s).Ok? {
        Associative([o], Options(rest).value, Options(s).value);
      }
    }
  }

  lemma Associative<T>(a: seq<T>, b: seq<T>, c: seq<T>)
    ensures a + (b + c) == (a + b) + c
  {
  }

  // ---- iterating ----

  /** What is left from an offset on. */
  function From(d: seq<U8>, at: nat): seq<U8> {
    if at <= |d| then d[at..] else []
  }

  /** What is known of an option to its user. */
  function Seen(r: seq<U8>): (o: seq<U8>)
    requires Fits(r)
    ensures 2 <= |o| && Extent(o) == Extent(r)
  {
    if Extent(r) == 0 then r[..2] else r[..Extent(r)]
  }

  class OptionsIterator {
    const mbuf: Mbuf
    var offset: nat

    constructor (mbuf: Mbuf, offset: nat)
      ensures this.mbuf == mbuf && this.offset == offset
    {
      this.mbuf, this.offset := mbuf, offset;
    }

    ghost function Rest(): seq<U8>
      requires mbuf.Valid()
      reads this, mbuf, mbuf.buf
    {
      From(mbuf.Data(), offset)
    }

    method Next() returns (r: Result<Option<seq<U8>>, BufferError>)
      requires mbuf.Valid()
      modifies this`offset
      ensures var rest := old(Rest());
        if rest == [] then r == Ok(None) && offset == old(offset)
        else if !Fits(rest) then r == Err(OutOfBuffer) && offset == old(offset)
        else r == Ok(Some(Seen(rest))) && offset == old(offset) + Extent(rest)
    {
      if mbuf.dataLen > offset {
        var option := ReadOption(mbuf, offset);
        if option.Err? {
          r := Err(option.error);
        } else {
          offset := offset + Extent(option.value);
          r := Ok(Some(option.value));
        }
      } else {
        r := Ok(None);
      }
    }
  }

  /** Reads type and length, and checks that all of the option is there. */
  method ReadOption(m: Mbuf, offset: nat) returns (r: Result<seq<U8>, BufferError>)
    requires m.Valid() && offset < m.dataLen
    ensures var rest := m.Data()[offset..];
      if !Fits(rest) then r == Err(OutOfBuffer)
      else r == Ok(Seen(rest))
  {
    ghost var rest := m.Data()[offset..];
    var tuple := m.ReadSlice(offset, 2);
    if tuple.Err? {
      r := Err(tuple.error);
    } else {
      var len := Extent(tuple.value);
      assert len == Extent(rest);
      if m.dataLen < offset + len {
        r := Err(OutOfBuffer);
      } else {
        r := m.ReadSlice(offset, if len == 0 then 2 else len);
        assert r.value == Seen(rest);
      }
    }
  }

  /** Reading options until there is none left. */
  method Collect(m: Mbuf, offset: nat) returns (r: Result<seq<seq<U8>>, BufferError>)
    requires m.Valid() && offset <= m.dataLen
    requires Options(m.Data()[offset..]) != Err(ZeroLength)
    ensures match Options(m.Data()[offset..])
            case Ok(options) => r == Ok(options)
            case Err(_) => r == Err(OutOfBuffer)
  {
    hide Options, Extent, Seen, ReadTo, Mbuf.Data;
    var iter := new OptionsIterator(m, offset);
    ghost var region, at := m.Data()[offset..], offset;
    var options := [];
    ReadNone(region);
    var next := iter.Next();
    while next.Ok? && next.value.Some?
      invariant iter.mbuf == m && at <= m.dataLen
      invariant ReadTo(region, options, m.Data()[at..])
      invariant Yields(next, m.Data()[at..])
      invariant next.Ok? && next.value.Some? ==> iter.offset == at + Extent(m.Data()[at..])
      decreases m.dataLen - at
    {
      ghost var rest := m.Data()[at..];
      ReadOne(region, options, rest);
      options := options + [next.value.value];
      at := iter.offset;
      assert m.Data()[at..] == rest[Extent(rest)..];
      next := iter.Next();
    }
    ReadAll(region, options, m.Data()[at..]);
    r := if next.Ok? then Ok(options) else Err(next.error);
  }

  /** The options of the region are those in hand and those of the rest. */
  ghost predicate ReadTo(region: seq<U8>, options: seq<seq<U8>>, rest: seq<U8>) {
    Options(region) == if Options(rest).Ok? then Ok(options + Options(rest).value) else Options(rest)
  }

  ghost predicate Yields(next: Result<Option<seq<U8>>, BufferError>, rest: seq<U8>) {
    next == if rest == [] then Ok(None) else if !Fits(rest) then Err(OutOfBuffer) else Ok(Some(Seen(rest)))
  }

  lemma ReadNone(region: seq<U8>)
    ensures ReadTo(region, [], region)
  {
    assert Options(region).Ok? ==> [] + Options(region).value == Options(region).value;
  }

  lemma ReadAll(region: seq<U8>, options: seq<seq<U8>>, rest: seq<U8>)
    requires ReadTo(region, options, rest)
    ensures rest == [] ==> Options(region) == Ok(options)
    ensures rest != [] && !Fits(rest) ==> Options(region).Err?
  {
    assert options + [] == options;
  }

  lemma ReadOne(region: seq<U8>, options: seq<seq<U8>>, rest: seq<U8>)
    requires Options(region) != Err(ZeroLength)
    requires Fits(rest) && ReadTo(region, options, rest)
    ensures Extent(rest) > 0 && ReadTo(region, options + [Seen(rest)], rest[Extent(rest)..])
  {
    var tail := Options(rest[Extent(rest)..]);
    if tail.Ok? {
      assert (options + [Seen(rest)]) + tail.value == options + ([Seen(rest)] + tail.value);
    }
  }

  // ---- pushing ----

  /** Pushing an option of fixed size. */
  method PushOption(m: Mbuf, offset: nat, option: seq<U8>) returns (r: Result<(), BufferError>)
    requires m.Valid() && offset <= m.dataLen && IsOption(option)
    modifies m, m.buf
    ensures m.Valid()
    ensures r.Ok? <==> |option| < old(m.Tailroom())
    ensures r.Ok? ==> m.Data() == Inserted(old(m.Data()), offset, option)
    ensures r.Err? ==> r.error == NotResized && m.Data() == old(m.Data())
  {
    r := Rewrite(m, offset, 0, option);
  }

  method Prepend(m: Mbuf, offset: nat, option: seq<U8>) returns (r: Result<(), BufferError>)
    requires m.Valid() && offset <= m.dataLen && IsOption(option)
    modifies m, m.buf
    ensures m.Valid()
    ensures r.Ok? <==> |option| < old(m.Tailroom())
    ensures offset <= m.dataLen
    ensures r.Ok? ==> m.Data()[..offset] == old(m.Data())[..offset]
    ensures r.Ok? && Options(old(m.Data())[offset..]).Ok? ==>
              Options(m.Data()[offset..]) == Ok([option] + Options(old(m.Data())[offset..]).value)
    ensures r.Err? ==> r.error == NotResized && m.Data() == old(m.Data())
  {
    PrependAdds(m.Data(), offset, option);
    r := PushOption(m, offset, option);
  }

  method Append(m: Mbuf, offset: nat, option: seq<U8>) returns (r: Result<(), BufferError>)
    requires m.Valid() && offset <= m.dataLen && IsOption(option)
    modifies m, m.buf
    ensures m.Valid()
    ensures r.Ok? <==> |option| < old(m.Tailroom())
    ensures offset <= m.dataLen
    ensures r.Ok? ==> m.Data()[..offset] == old(m.Data())[..offset]
    ensures r.Ok? && Options(old(m.Data())[offset..]).Ok? ==>
              Options(m.Data()[offset..]) == Ok(Options(old(m.Data())[offset..]).value + [option])
    ensures r.Err? ==> r.error == NotResized && m.Data() == old(m.Data())
  {
    AppendAdds(m.Data(), offset, option);
    r := PushOption(m, m.dataLen, option);
  }

  lemma OneOption(option: seq<U8>)
    requires IsOption(option)
    ensures Options(option) == Ok([option])
  {
    OptionsCons(option, []);
    assert option + [] == option;
    assert [option] + [] == [option];
  }

  lemma PrependAdds(d: seq<U8>, offset: nat, option: seq<U8>)
    requires offset <= |d| && IsOption(option)
    ensures var d', was := Inserted(d, offset, option), Options(d[offset..]);
      && d'[..offset] == d[..offset]
      && Options(d'[offset..]) == if was.Ok? then Ok([option] + was.value) else was
  {
    OneOption(option);
    OptionsAppend(option, d[offset..]);
    hide Options, Extent;
    assert Inserted(d, offset, option)[offset..] == option + d[offset..];
  }

  lemma AppendAdds(d: seq<U8>, offset: nat, option: seq<U8>)
    requires offset <= |d| && IsOption(option)
    ensures var d', was := Inserted(d, |d|, option), Options(d[offset..]);
      && d'[..offset] == d[..offset]
      && (was.Ok? ==> Options(d'[offset..]) == Ok(was.value + [option]))
  {
    OneOption(option);
    if Options(d[offset..]).Ok? {
      OptionsAppend(d[offset..], option);
    }
    assert Inserted(d, |d|, option)[offset..] == d[offset..] + option;
  }

  // ---- retain ----

  datatype Retaining =
    | Kept(bytes: seq<U8>)
    | Stopped(bytes: seq<U8>, error: BufferError)
    | Endless
  {
    function After(prefix: seq<U8>): Retaining {
      match this
      case Kept(bytes) => Kept(prefix + bytes)
      case Stopped(bytes, error) => Stopped(prefix + bytes, error)
      case Endless => Endless
    }
  }

  /** What `retain` makes of a region, with the size of a rejected option in
      eight bits. */
  function Retained(r: seq<U8>, f: seq<U8> -> bool): Retaining {
    if r == [] then Kept([])
    else if !Fits(r) then Stopped(r, OutOfBuffer)
    else if f(Seen(r)) then
      if Extent(r) == 0 then Endless else Retained(r[Extent(r)..], f).After(r[..Extent(r)])
    else
      var n := Low8(Extent(r));
      if n == 0 then Stopped(r, NotResized) else Retained(r[n..], f)
  }

  function Filter(options: seq<seq<U8>>, f: seq<U8> -> bool): seq<seq<U8>> {
    if options == [] then []
    else (if f(options[0]) then [options[0]] else []) + Filter(options[1..], f)
  }

  lemma RetainedCons(o: seq<U8>, r: seq<U8>, f: seq<U8> -> bool)
    requires IsOption(o) && (f(o) || Extent(o) < 0x100)
    ensures Retained(o + r, f) == if f(o) then Retained(r, f).After(o) else Retained(r, f)
  {
    hide Low8;
    assert (o + r)[1] == o[1];
    assert (o + r)[Extent(o)..] == r && (o + r)[..Extent(o)] == o;
  }

  lemma {:induction false} OptionsRetained(options: seq<seq<U8>>, f: seq<U8> -> bool)
    requires forall i | 0 <= i < |options| :: IsOption(options[i]) && (f(options[i]) || Extent(options[i]) < 0x100)
    ensures Retained(Flatten(options), f) == Kept(Flatten(Filter(options, f)))
  {
    if options != [] {
      var o, rest := options[0], options[1..];
      OptionsRetained(rest, f);
      RetainedCons(o, Flatten(rest), f);
      assert ([o] + Filter(rest, f))[1..] == Filter(rest, f);
      assert [] + Filter(rest, f) == Filter(rest, f);
    }
  }

  /** `retain` leaves the options that satisfy the predicate, in order, as
      long as it has to remove none of 32 or more units. */
  lemma RetainFilters(r: seq<U8>, options: seq<seq<U8>>, f: seq<U8> -> bool)
    requires Options(r) == Ok(options)
    requires forall i | 0 <= i < |options| && 2 <= |options[i]| :: f(options[i]) || options[i][1] <= 31
    ensures Retained(r, f) == Kept(Flatten(Filter(options, f)))
    ensures Options(Flatten(Filter(options, f))) == Ok(Filter(options, f))
  {
    FlatOfOptions(r);
    OptionsRetained(options, f);
    FilterKeepsOptions(options, f);
    OptionsOfFlat(Filter(options, f));
  }

  lemma {:induction false} FilterKeepsOptions(options: seq<seq<U8>>, f: seq<U8> -> bool)
    requires forall i | 0 <= i < |options| :: IsOption(options[i])
    ensures forall i | 0 <= i < |Filter(options, f)| :: IsOption(Filter(options, f)[i])
  {
    if options != [] {
      FilterKeepsOptions(options[1..], f);
    }
  }

  /** That limit is real: of the options with an all-zero body, removing
      works up to 31 units and for no length beyond. */
  lemma RetainLimit(optionType: U8, length: U8)
    requires length >= 1
    ensures var r := [optionType, length] + seq(8 * length - 2, i => 0);
      && Options(r) == Ok([r])
      && (Retained(r, o => false) == Kept([]) <==> length <= 31)
  {
    var r := [optionType, length] + seq(8 * length - 2, i => 0);
    OneOption(r);
    var n := 8 * length % 0x100;
    if length <= 31 {
      assert r[n..] == [];
    } else if n != 0 {
      assert |r[n..]| >= 0x100 && r[n..][1] == 0;
    }
  }

  /** Whatever the bytes: the first option of 32 or more units that is rejected
      ends the loop in an error if they are a multiple of 32, a size that wraps
      to zero. */
  lemma {:induction false} RetainStops(options: seq<seq<U8>>, f: seq<U8> -> bool, k: nat)
    requires k < |options|
    requires forall i | 0 <= i < k :: IsOption(options[i]) && (f(options[i]) || options[i][1] <= 31)
    requires IsOption(options[k]) && !f(options[k]) && options[k][1] % 32 == 0
    ensures Retained(Flatten(options), f).Stopped?
  {
    var o, rest := options[0], Flatten(options[1..]);
    if k > 0 {
      RetainStops(options[1..], f, k - 1);
      RetainedCons(o, rest, f);
    } else {
      assert Low8(Extent(o)) == 0;
      hide Low8;
      assert (o + rest)[1] == o[1] && (o + rest)[..Extent(o)] == o;
    }
  }

  // One turn of the loop, on what is left from `offset` on.

  lemma UnreadRest(d: seq<U8>, start: nat, offset: nat, f: seq<U8> -> bool)
    requires start <= offset < |d| && !Fits(d[offset..])
    ensures Retained(d[offset..], f).After(d[start..offset]) == Stopped(d[start..], OutOfBuffer)
  {
    assert d[start..offset] + d[offset..] == d[start..];
  }

  lemma RejectedRest(d: seq<U8>, start: nat, offset: nat, f: seq<U8> -> bool)
    requires start <= offset < |d| && Fits(d[offset..]) && !f(Seen(d[offset..]))
    ensures var goal, n := Retained(d[offset..], f).After(d[start..offset]), Low8(Extent(d[offset..]));
      if n == 0 then goal == Stopped(d[start..], NotResized)
      else
        offset + n <= |d| &&
        var d' := Removed(d, offset, n);
        d'[..start] == d[..start] && goal == Retained(d'[offset..], f).After(d'[start..offset])
  {
    hide Low8, Seen, Extent;
    assert d[start..offset] + d[offset..] == d[start..];
    var n := Low8(Extent(d[offset..]));
    if n != 0 {
      assert Removed(d, offset, n)[offset..] == d[offset..][n..];
    }
  }

  lemma AcceptedRest(d: seq<U8>, start: nat, offset: nat, f: seq<U8> -> bool)
    requires start <= offset < |d|
    requires Retained(d[offset..], f) != Endless
    requires Fits(d[offset..]) && f(Seen(d[offset..]))
    ensures var next := offset + Extent(d[offset..]);
      && offset < next <= |d|
      && Retained(d[offset..], f).After(d[start..offset]) == Retained(d[next..], f).After(d[start..next])
  {
    hide *;
    var rest, kept := d[offset..], d[start..offset];
    RetainedAccept(rest, f);
    var len := Extent(rest);
    AfterAfter(Retained(rest[len..], f), kept, rest[..len]);
    SlicesMeet(d, start, offset, len);
  }

  lemma SlicesMeet(d: seq<U8>, start: nat, offset: nat, len: nat)
    requires start <= offset && offset + len <= |d|
    ensures d[offset..][len..] == d[offset + len..]
    ensures d[start..offset] + d[offset..][..len] == d[start..offset + len]
  {
  }

  lemma RetainedAccept(r: seq<U8>, f: seq<U8> -> bool)
    requires Fits(r) && f(Seen(r)) && Retained(r, f) != Endless
    ensures 2 <= |r| && 0 < Extent(r) <= |r|
    ensures Retained(r, f) == Retained(r[Extent(r)..], f).After(r[..Extent(r)])
  {
    hide Low8, Seen;
  }

  lemma AfterAfter(out: Retaining, a: seq<U8>, b: seq<U8>)
    ensures out.After(b).After(a) == out.After(a + b)
  {
    if !out.Endless? {
      assert a + (b + out.bytes) == (a + b) + out.bytes;
    }
  }

  method Retain(m: Mbuf, start: nat, f: seq<U8> -> bool) returns (r: Result<(), BufferError>)
    requires m.Valid() && start <= m.dataLen
    requires Retained(m.Data()[start..], f) != Endless
    modifies m, m.buf
    ensures m.Valid() && start <= m.dataLen && m.Data()[..start] == old(m.Data())[..start]
    ensures match Retained(old(m.Data())[start..], f)
            case Kept(bytes) => r.Ok? && m.Data()[start..] == bytes
            case Stopped(bytes, e) => r == Err(e) && m.Data()[start..] == bytes
  {
    hide Retained, Seen, Removed, Inserted, Mbuf.Data;
    ghost var goal := Retained(m.Data()[start..], f);
    ghost var before := m.Data()[..start];
    var offset := start;
    r := Ok(());
    RetainBegin(m.Data(), start, f);
    while r.Ok? && m.dataLen > offset
      invariant m.Valid() && start <= offset <= m.dataLen
      invariant m.Data()[..start] == before
      invariant r.Ok? ==> goal == Retained(m.Data()[offset..], f).After(m.Data()[start..offset])
      invariant r.Err? ==> goal == Stopped(m.Data()[start..], r.error)
      decreases r.Ok?, m.dataLen - offset
    {
      ghost var d := m.Data();
      var option := ReadOption(m, offset);
      if option.Err? {
        UnreadRest(d, start, offset, f);
        r := Err(option.error);
      } else if !f(option.value) {
        RejectedRest(d, start, offset, f);
        var len := Low8(Extent(option.value));
        r := m.Shrink(offset, len);
      } else {
        AcceptedRest(d, start, offset, f);
        offset := offset + Extent(option.value);
      }
    }
    RetainEnd(m.Data(), start, f);
  }

  lemma RetainBegin(d: seq<U8>, start: nat, f: seq<U8> -> bool)
    requires start <= |d|
    ensures Retained(d[start..], f).After(d[start..start]) == Retained(d[start..], f)
  {
    var out := Retained(d[start..], f);
    assert !out.Endless? ==> d[start..start] + out.bytes == out.bytes;
  }

  lemma RetainEnd(d: seq<U8>, start: nat, f: seq<U8> -> bool)
    requires start <= |d|
    ensures Retained(d[|d|..], f).After(d[start..|d|]) == Kept(d[start..])
  {
  }
}
