/**
 The load generator's virtual user: each iteration opens the screen its slot names, gives every
 request a key (slot, name, occurrence, request) and logs one observation per request (in a
 shape pass) and one selection per iteration (gates/bench/screens.js).
 */
module ScreenRun {

  datatype Screen = Home | Movies | Detail | Series | Search | Playback

  /** The weighted mix, home 3 : movies 2 : detail 2 : series 1 : search 1 : playback 1. */
  const MIX: seq<Screen> := [Home, Movies, Detail, Home, Movies, Detail, Home, Series, Search, Playback]

  /** A request name; an image request is scoped to its screen. */
  datatype Name = Endpoint(id: string) | Image(screen: Screen)

  /** What is left of a request once cache tags and session ids are dropped. */
  datatype Request = Request(verb: string, route: string, body: string)

  datatype Key = Key(slot: nat, name: Name, occurrence: nat, request: Request)

  /** One request a screen issues, under its endpoint's name or "image", and whether its answer was good. */
  datatype Call = Call(id: string, request: Request, good: bool)

  /** The two isolated users. */
  datatype Ids = Ids(user: string, viewer: string)

  datatype Selection = Selection(selection: int, iteration: int, screen: Screen, actor: string, user: string,
                                 keys: seq<Key>, ok: bool)

  /** A line of the log: an observation, a selection, or something unreadable. */
  datatype Line = Observed(shape: Name, key: Key) | Selected(record: Selection) | Other(text: string)

  // ----- what an iteration writes ------------------------------------------------------------

  /** The name of an image request before its screen is put in front. */
  predicate Bare(name: Name) { name == Endpoint("image") }

  function Scoped(screen: Screen, call: Call): Name {
    if Bare(Endpoint(call.id)) then Image(screen) else Endpoint(call.id)
  }

  /** How often a name was requested. */
  function Occurrences(screen: Screen, calls: seq<Call>, name: Name): nat {
    if calls == [] then 0
    else Occurrences(screen, calls[..|calls| - 1], name) + (if Scoped(screen, calls[|calls| - 1]) == name then 1 else 0)
  }

  /** The counters after the calls: one per name requested. */
  function Counters(screen: Screen, calls: seq<Call>): map<Name, nat> {
    if calls == [] then map[]
    else
      var front, name := calls[..|calls| - 1], Scoped(screen, calls[|calls| - 1]);
      Counters(screen, front)[name := Occurrences(screen, front, name) + 1]
  }

  lemma {:induction false} CounterAt(screen: Screen, calls: seq<Call>, name: Name)
    ensures (if name in Counters(screen, calls) then Counters(screen, calls)[name] else 0) == Occurrences(screen, calls, name)
  {
    if calls != [] { CounterAt(screen, calls[..|calls| - 1], name); }
  }

  function Keys(slot: nat, screen: Screen, calls: seq<Call>): (keys: seq<Key>)
    ensures |keys| == |calls|
  {
    if calls == [] then []
    else
      var front, last := calls[..|calls| - 1], calls[|calls| - 1];
      var name := Scoped(screen, last);
      Keys(slot, screen, front) + [Key(slot, name, Occurrences(screen, front, name), last.request)]
  }

  function Observations(keys: seq<Key>): seq<Line> {
    if keys == [] then [] else Observations(keys[..|keys| - 1]) + [Observed(keys[|keys| - 1].name, keys[|keys| - 1])]
  }

  function Actor(screen: Screen): string { if screen == Playback then "playback" else "browse" }

  predicate AllGood(calls: seq<Call>) { forall i :: 0 <= i < |calls| ==> calls[i].good }

  /** The selection line of iteration `i`. */
  function SelectionOf(ids: Ids, slots: nat, i: nat, calls: seq<Call>, screenOk: bool): Selection
    requires slots > 0
  {
    var slot := i % slots;
    var screen := MIX[slot % 10];
    Selection(slot, i, screen, Actor(screen), if screen == Playback then ids.viewer else ids.user,
              Keys(slot, screen, calls), AllGood(calls) && screenOk)
  }

  function IterationLines(ids: Ids, slots: nat, i: nat, calls: seq<Call>, screenOk: bool, shape: bool): seq<Line>
    requires slots > 0
  {
    var s := SelectionOf(ids, slots, i, calls, screenOk);
    Logged(shape, s.keys) + [Selected(s)]
  }

  /** Key `i` numbers its request among those of the same name before it. */
  lemma {:induction false} KeyAt(slot: nat, screen: Screen, calls: seq<Call>, i: nat)
    requires i < |calls|
    ensures Keys(slot, screen, calls)[i] ==
            Key(slot, Scoped(screen, calls[i]), Occurrences(screen, calls[..i], Scoped(screen, calls[i])), calls[i].request)
  {
    var front := calls[..|calls| - 1];
    if i < |front| {
      KeyAt(slot, screen, front, i);
      assert front[..i] == calls[..i];
    }
  }

  lemma {:induction false} OccurrencesGrow(screen: Screen, calls: seq<Call>, i: nat, name: Name)
    requires i < |calls|
    ensures Occurrences(screen, calls[..i], name) + (if Scoped(screen, calls[i]) == name then 1 else 0) <= Occurrences(screen, calls, name)
  {
    var front := calls[..|calls| - 1];
    if i < |front| {
      OccurrencesGrow(screen, front, i, name);
      assert front[..i] == calls[..i];
    }
  }

  /** Within one iteration no two requests share a key. */
  lemma KeysDistinct(slot: nat, screen: Screen, calls: seq<Call>)
    ensures forall i, j :: 0 <= i < j < |calls| ==> Keys(slot, screen, calls)[i] != Keys(slot, screen, calls)[j]
    ensures forall i :: 0 <= i < |calls| ==> Keys(slot, screen, calls)[i].slot == slot
  {
    forall i | 0 <= i < |calls|
      ensures Keys(slot, screen, calls)[i].slot == slot
    {
      KeyAt(slot, screen, calls, i);
    }
    forall i, j | 0 <= i < j < |calls|
      ensures Keys(slot, screen, calls)[i] != Keys(slot, screen, calls)[j]
    {
      KeyAt(slot, screen, calls, i);
      KeyAt(slot, screen, calls, j);
      OccurrencesGrow(screen, calls[..j], i, Scoped(screen, calls[i]));
      assert calls[..j][..i] == calls[..i];
    }
  }

  lemma CountersStep(screen: Screen, calls: seq<Call>, call: Call)
    ensures Counters(screen, calls + [call]) == Counters(screen, calls)[Scoped(screen, call) := Occurrences(screen, calls, Scoped(screen, call)) + 1]
  {
    assert (calls + [call])[..|calls|] == calls;
  }

  lemma AllGoodStep(calls: seq<Call>, call: Call)
    ensures AllGood(calls + [call]) == (AllGood(calls) && call.good)
  {
    assert (calls + [call])[|calls|] == call;
    assert forall i :: 0 <= i < |calls| ==> (calls + [call])[i] == calls[i];
  }

  /** One call more: one key, one occurrence, one result. */
  lemma CallStep(slot: nat, screen: Screen, calls: seq<Call>, call: Call)
    ensures var name := Scoped(screen, call);
            Keys(slot, screen, calls + [call]) == Keys(slot, screen, calls) + [Key(slot, name, Occurrences(screen, calls, name), call.request)]
    ensures Counters(screen, calls + [call]) == Counters(screen, calls)[Scoped(screen, call) := Occurrences(screen, calls, Scoped(screen, call)) + 1]
    ensures AllGood(calls + [call]) == (AllGood(calls) && call.good)
  {
    assert (calls + [call])[..|calls|] == calls;
    CountersStep(screen, calls, call);
    AllGoodStep(calls, call);
  }

  lemma OneLonger(calls: seq<Call>, k: nat)
    requires k < |calls|
    ensures calls[..k + 1] == calls[..k] + [calls[k]]
  {
  }

  /** The observations a pass logs: all of them in a shape pass, none otherwise. */
  function Logged(shape: bool, keys: seq<Key>): seq<Line> { if shape then Observations(keys) else [] }

  function LoggedOne(shape: bool, key: Key): seq<Line> { if shape then [Observed(key.name, key)] else [] }

  /** And one observation, of the key it got. */
  lemma KeysLogged(shape: bool, log: seq<Line>, slot: nat, screen: Screen, calls: seq<Call>, call: Call)
    ensures var keys := Keys(slot, screen, calls + [call]);
            log + Logged(shape, Keys(slot, screen, calls)) + LoggedOne(shape, keys[|calls|]) == log + Logged(shape, keys)
  {
    CallStep(slot, screen, calls, call);
    LoggedStep(shape, log, Keys(slot, screen, calls), Keys(slot, screen, calls + [call])[|calls|]);
  }

  lemma LoggedStep(shape: bool, log: seq<Line>, keys: seq<Key>, key: Key)
    ensures log + Logged(shape, keys) + LoggedOne(shape, key) == log + Logged(shape, keys + [key])
  {
    ObservationsStep(keys, key);
    assert log + Logged(shape, keys) + LoggedOne(shape, key) == log + (Logged(shape, keys) + LoggedOne(shape, key));
  }

  lemma ObservationsStep(keys: seq<Key>, key: Key)
    ensures Observations(keys + [key]) == Observations(keys) + [Observed(key.name, key)]
  {
    assert (keys + [key])[..|keys|] == keys;
  }

  /** No request is named "image" without its screen. */
  lemma KeysScoped(slot: nat, screen: Screen, calls: seq<Call>, i: nat)
    requires i < |calls|
    ensures !Bare(Keys(slot, screen, calls)[i].name)
  {
    KeyAt(slot, screen, calls, i);
  }

  // ----- the machine -----------------------------------------------------------------------------

  class Vu {
    const ids: Ids
    const slots: nat
    const shape: bool
    var slot: nat
    var screen: Screen
    var occurrences: map<Name, nat>
    var selections: seq<Key>
    var iterOk: bool
    var requests: nat
    var log: seq<Line>

    constructor (ids: Ids, slots: nat, shape: bool)
      ensures this.ids == ids && this.slots == slots && this.shape == shape && requests == 0 && log == []
    {
      this.ids, this.slots, this.shape := ids, slots, shape;
      slot, screen, occurrences, selections, iterOk, requests, log := 0, Home, map[], [], true, 0, [];
    }

    /** The counters hold what the calls so far made of them. */
    ghost predicate Counts(calls: seq<Call>)
      reads this
    {
      && selections == Keys(slot, screen, calls)
      && iterOk == AllGood(calls)
      && occurrences == Counters(screen, calls)
    }

    method RequestKey(name: Name, request: Request, ghost calls: seq<Call>) returns (key: Key)
      requires Counts(calls)
      modifies this`occurrences
      ensures key == Key(slot, name, Occurrences(screen, calls, name), request)
      ensures occurrences == old(occurrences)[name := Occurrences(screen, calls, name) + 1]
    {
      CounterAt(screen, calls, name);
      var occurrence := if name in occurrences then occurrences[name] else 0;
      occurrences := occurrences[name := occurrence + 1];
      key := Key(slot, name, occurrence, request);
    }

    method Record(call: Call, ghost calls: seq<Call>)
      requires Counts(calls)
      modifies this`occurrences, this`selections, this`iterOk, this`requests, this`log
      ensures Counts(calls + [call])
      ensures requests == old(requests) + 1
      ensures log == old(log) + LoggedOne(shape, selections[|calls|])
    {
      var name := Scoped(screen, call);
      var key := RequestKey(name, call.request, calls);
      CallStep(slot, screen, calls, call);
      selections := selections + [key];
      if !call.good { iterOk := false; }
      requests := requests + 1;
      if shape {
        log := log + [Observed(name, key)];
      }
    }

    /** The screen's requests, one record each. */
    method Open(calls: seq<Call>)
      requires occurrences == map[] && selections == [] && iterOk
      modifies this`occurrences, this`selections, this`iterOk, this`requests, this`log
      ensures selections == Keys(slot, screen, calls) && iterOk == AllGood(calls)
      ensures requests == old(requests) + |calls|
      ensures log == old(log) + Logged(shape, selections)
    {
      for k := 0 to |calls|
        invariant Counts(calls[..k])
        invariant requests == old(requests) + k
        invariant log == old(log) + Logged(shape, Keys(slot, screen, calls[..k]))
      {
        OneLonger(calls, k);
        KeysLogged(shape, old(log), slot, screen, calls[..k], calls[k]);
        Record(calls[k], calls[..k]);
      }
      assert calls[..|calls|] == calls;
    }

    /** Iteration `i`: the whole state is reset, the screen opened, and the selection logged. */
    method Iterate(i: nat, calls: seq<Call>, screenOk: bool)
      requires slots > 0
      modifies this
      ensures log == old(log) + IterationLines(ids, slots, i, calls, screenOk, shape)
      ensures requests == old(requests) + |calls|
    {
      slot := i % slots;
      screen := MIX[slot % 10];
      occurrences, selections := map[], [];
      iterOk := true;
      Open(calls);
      if !screenOk { iterOk := false; }
      var user := if screen == Playback then ids.viewer else ids.user;
      var record := Selection(slot, i, screen, Actor(screen), user, selections, iterOk);
      assert record == SelectionOf(ids, slots, i, calls, screenOk);
      log := log + [Selected(record)];
    }
  }
}
