/**
 * The duplicate gate at the head of `handleDetectedTrade` and its release in the
 * `finally` block (src/copyTrader.ts:443-493, 1504-1510), under any interleaving of
 * handlers at their awaits. Each event below is one stretch of code between awaits.
 */
module DedupGate {
  import opened Options

  const HOUR_MS := 3600000
  const FIVE_MINUTES_MS := 300000

  /** The two keys of one detected trade. */
  datatype Keys = Keys(tradeKey: string, compoundKey: string)

  function Both(k: Keys): set<string> {
    {k.tradeKey, k.compoundKey}
  }

  /** `passed` lists the passes of the gate, `active` the handlers between gate and `finally`. */
  datatype Pass = Pass(keys: Keys, at: int)

  datatype State = State(
    processedTrades: map<string, int>,
    processedCompoundKeys: map<string, int>,
    inFlight: set<string>,
    active: map<nat, Keys>,
    passed: seq<Pass>
  )

  const START := State(map[], map[], {}, map[], [])

  function Younger(m: map<string, int>, now: int, age: int): map<string, int> {
    map k | k in m && now - m[k] <= age :: m[k]
  }

  function Cleaned(s: State, now: int): State {
    s.(processedTrades := Younger(s.processedTrades, now, HOUR_MS),
       processedCompoundKeys := Younger(s.processedCompoundKeys, now, FIVE_MINUTES_MS))
  }

  predicate IsDuplicate(s: State, k: Keys) {
    || k.tradeKey in s.processedTrades
    || k.compoundKey in s.processedCompoundKeys
    || k.tradeKey in s.inFlight || k.compoundKey in s.inFlight
  }

  datatype Event =
    | Arrive(keys: Keys, now: int, marked: int)          // the gate reads the clock twice
    | MarkTrade(handler: nat, at: int)                   // after an execution
    | MarkCompound(handler: nat, at: int)
    | Leave(handler: nat)

  /** Handlers are numbered by their pass of the gate. */
  function Step(s: State, e: Event): State {
    match e
    case Arrive(k, now, marked) =>
      var c := Cleaned(s, now);
      if IsDuplicate(c, k) then c
      else c.(inFlight := c.inFlight + Both(k),
              processedTrades := c.processedTrades[k.tradeKey := marked],
              active := c.active[|c.passed| := k],
              passed := c.passed + [Pass(k, now)])
    case MarkTrade(h, at) =>
      if h in s.active then s.(processedTrades := s.processedTrades[s.active[h].tradeKey := at]) else s
    case MarkCompound(h, at) =>
      if h in s.active then s.(processedCompoundKeys := s.processedCompoundKeys[s.active[h].compoundKey := at]) else s
    case Leave(h) =>
      if h in s.active then s.(inFlight := s.inFlight - Both(s.active[h]), active := s.active - {h}) else s
  }

  function After(events: seq<Event>): State {
    if events == [] then START else Step(After(events[..|events| - 1]), events[|events| - 1])
  }

  /** First and last clock reading of an event. */
  function Readings(e: Event): Option<(int, int)> {
    match e
    case Arrive(_, now, marked) => Some((now, marked))
    case MarkTrade(_, at) => Some((at, at))
    case MarkCompound(_, at) => Some((at, at))
    case Leave(_) => None
  }

  /** The clock does not run backwards. */
  ghost predicate Timely(events: seq<Event>) {
    && (forall i :: 0 <= i < |events| && Readings(events[i]).Some? ==>
          Readings(events[i]).value.0 <= Readings(events[i]).value.1)
    && (forall i, j :: 0 <= i < j < |events| && Readings(events[i]).Some? && Readings(events[j]).Some? ==>
          Readings(events[i]).value.1 <= Readings(events[j]).value.0)
  }

  // ---------------------------------------------------------------- the class

  class Gate {
    var processedTrades: map<string, int>
    var processedCompoundKeys: map<string, int>
    var inFlightTrades: set<string>
    ghost var active: map<nat, Keys>
    ghost var passed: seq<Pass>

    ghost function View(): State
      reads this
    {
      State(processedTrades, processedCompoundKeys, inFlightTrades, active, passed)
    }

    constructor ()
      ensures View() == START
    {
      processedTrades, processedCompoundKeys, inFlightTrades := map[], map[], {};
      active, passed := map[], [];
    }

    /** Lines 449-493. */
    method Enter(k: Keys, now: int, marked: int) returns (admitted: bool)
      modifies this
      ensures View() == Step(old(View()), Arrive(k, now, marked))
      ensures admitted <==> |passed| == |old(passed)| + 1
    {
      processedTrades := Younger(processedTrades, now, HOUR_MS);
      processedCompoundKeys := Younger(processedCompoundKeys, now, FIVE_MINUTES_MS);
      if k.tradeKey in processedTrades {
        return false;
      }
      if k.compoundKey in processedCompoundKeys {
        return false;
      }
      if k.tradeKey in inFlightTrades || k.compoundKey in inFlightTrades {
        return false;
      }
      inFlightTrades := inFlightTrades + {k.tradeKey};
      inFlightTrades := inFlightTrades + {k.compoundKey};
      processedTrades := processedTrades[k.tradeKey := marked];
      active := active[|passed| := k];
      passed := passed + [Pass(k, now)];
      assert inFlightTrades == old(inFlightTrades) + Both(k);
      admitted := true;
    }

    /** Lines 1395-1396 and their like. */
    method MarkProcessed(handler: nat, k: Keys, at: int, at': int)
      requires handler in active && active[handler] == k
      modifies this
      ensures View() == Step(Step(old(View()), MarkTrade(handler, at)), MarkCompound(handler, at'))
    {
      processedTrades := processedTrades[k.tradeKey := at];
      processedCompoundKeys := processedCompoundKeys[k.compoundKey := at'];
    }

    /** The `finally` block. */
    method Exit(handler: nat, k: Keys)
      requires handler in active && active[handler] == k
      modifies this
      ensures View() == Step(old(View()), Event.Leave(handler))
    {
      inFlightTrades := inFlightTrades - {k.tradeKey};
      inFlightTrades := inFlightTrades - {k.compoundKey};
      active := active - {handler};
      assert inFlightTrades == old(inFlightTrades) - Both(k);
    }
  }

  // ---------------------------------------------------------------- invariant

  /** Some active handler holds the key. */
  ghost predicate Held(active: map<nat, Keys>, key: string) {
    exists h :: h in active && key in Both(active[h])
  }

  /** The in-flight set is exactly the union of the active handlers' keys. */
  ghost predicate UnionOk(inFlight: set<string>, active: map<nat, Keys>) {
    forall key :: key in inFlight <==> Held(active, key)
  }

  ghost predicate DisjointOk(active: map<nat, Keys>) {
    forall h, h' :: h in active && h' in active && h != h' ==> Both(active[h]) !! Both(active[h'])
  }

  ghost predicate FlightOk(s: State) {
    && UnionOk(s.inFlight, s.active)
    && DisjointOk(s.active)
    && (forall h :: h in s.active ==> h < |s.passed| && s.passed[h].keys == s.active[h])
  }

  /** A hash that passed is still marked, no earlier than it passed, or more than an hour ago. */
  ghost predicate PassedOk(s: State, last: int) {
    && (forall i :: 0 <= i < |s.passed| ==>
          var p := s.passed[i];
          && p.at <= last
          && ((p.keys.tradeKey in s.processedTrades && s.processedTrades[p.keys.tradeKey] >= p.at)
              || last - p.at > HOUR_MS))
    && (forall i, j :: 0 <= i < j < |s.passed| && s.passed[i].keys.tradeKey == s.passed[j].keys.tradeKey ==>
          s.passed[j].at - s.passed[i].at > HOUR_MS)
  }

  lemma HeldNext(active: map<nat, Keys>, n: nat, k: Keys, key: string)
    requires n !in active
    ensures Held(active[n := k], key) <==> Held(active, key) || key in Both(k)
  {
    var after := active[n := k];
    if Held(active, key) {
      var h :| h in active && key in Both(active[h]);
      assert h in after && key in Both(after[h]);
    }
    if key in Both(k) {
      assert n in after && key in Both(after[n]);
    }
  }

  lemma JoinFlight(inFlight: set<string>, active: map<nat, Keys>, n: nat, k: Keys)
    requires UnionOk(inFlight, active) && DisjointOk(active) && n !in active && Both(k) !! inFlight
    ensures UnionOk(inFlight + Both(k), active[n := k]) && DisjointOk(active[n := k])
  {
    forall key
      ensures key in inFlight + Both(k) <==> Held(active[n := k], key)
    {
      HeldNext(active, n, k, key);
    }
    forall h | h in active
      ensures Both(active[h]) !! Both(k)
    {
      assert Held(active, k.tradeKey) <==> k.tradeKey in inFlight;
      assert Held(active, k.compoundKey) <==> k.compoundKey in inFlight;
    }
  }

  lemma ArriveFlight(s: State, k: Keys, now: int, marked: int)
    requires FlightOk(s)
    ensures FlightOk(Step(s, Arrive(k, now, marked)))
  {
    if !IsDuplicate(Cleaned(s, now), k) {
      JoinFlight(s.inFlight, s.active, |s.passed|, k);
    }
    hide UnionOk, DisjointOk, Younger;
  }

  lemma LeaveFlight(s: State, h: nat)
    requires FlightOk(s) && h in s.active
    ensures FlightOk(Step(s, Event.Leave(h)))
  {
    var s' := Step(s, Event.Leave(h));
    forall key
      ensures key in s'.inFlight <==> Held(s'.active, key)
    {
      assert key in s.inFlight <==> Held(s.active, key);
      if key in s'.inFlight {
        var i :| i in s.active && key in Both(s.active[i]);
        assert i in s'.active && key in Both(s'.active[i]);
      }
    }
  }

  lemma FlightStep(s: State, e: Event)
    requires FlightOk(s)
    ensures FlightOk(Step(s, e))
  {
    match e
    case Arrive(k, now, marked) => ArriveFlight(s, k, now, marked);
    case Leave(h) =>
      if h in s.active {
        LeaveFlight(s, h);
      }
    case MarkTrade(_, _) =>
    case MarkCompound(_, _) =>
  }

  lemma PassedStep(s: State, e: Event, last: int)
    requires PassedOk(s, last) && FlightOk(s)
    requires Readings(e).Some? ==> last <= Readings(e).value.0 <= Readings(e).value.1
    ensures PassedOk(Step(s, e), if Readings(e).Some? then Readings(e).value.1 else last)
  {
  }

  ghost predicate ReadBefore(events: seq<Event>, last: int) {
    forall i :: 0 <= i < |events| && Readings(events[i]).Some? ==> Readings(events[i]).value.1 <= last
  }

  lemma {:induction false} RunOk(events: seq<Event>) returns (last: int)
    requires Timely(events)
    ensures FlightOk(After(events)) && PassedOk(After(events), last)
    ensures forall later :: ReadBefore(events, later) && After(events).passed != [] ==> last <= later
  {
    last := 0;
    if events != [] {
      var init, e := events[..|events| - 1], events[|events| - 1];
      var before := RunOk(init);
      FlightStep(After(init), e);
      if After(init).passed == [] {
        before := if Readings(e).Some? then Readings(e).value.0 else 0;
      } else if Readings(e).Some? {
        assert ReadBefore(init, Readings(e).value.0);
      }
      PassedStep(After(init), e, before);
      last := if Readings(e).Some? then Readings(e).value.1 else before;
      forall later | ReadBefore(events, later) && After(events).passed != []
        ensures last <= later
      {
        assert ReadBefore(init, later);
        assert Readings(e).Some? ==> Readings(events[|events| - 1]).value.1 <= later;
      }
    }
  }

  /** Under any interleaving the in-flight set is the union of the keys of the active handlers, whose keys
      are pairwise disjoint. */
  lemma InFlightExact(events: seq<Event>, key: string, h: nat, h': nat)
    ensures var s := After(events);
            && (key in s.inFlight <==> exists i :: i in s.active && key in Both(s.active[i]))
            && (h in s.active && h' in s.active && h != h' ==> Both(s.active[h]) !! Both(s.active[h']))
  {
    FlightAlways(events);
  }

  /** The gate refuses nothing else: it admits a trade exactly if its hash was not marked within the hour, its
      compound key not within five minutes, and no active handler holds either key. */
  lemma AdmittedExactly(events: seq<Event>, k: Keys, now: int, marked: int)
    ensures var s := After(events);
            After(events + [Arrive(k, now, marked)]).passed != s.passed <==>
            && !(k.tradeKey in s.processedTrades && now - s.processedTrades[k.tradeKey] <= HOUR_MS)
            && !(k.compoundKey in s.processedCompoundKeys
                 && now - s.processedCompoundKeys[k.compoundKey] <= FIVE_MINUTES_MS)
            && forall h :: h in s.active ==> Both(s.active[h]) !! Both(k)
  {
    var s, all := After(events), events + [Arrive(k, now, marked)];
    assert all[..|all| - 1] == events;
    FlightAlways(events);
    assert k.tradeKey in s.inFlight <==> Held(s.active, k.tradeKey);
    assert k.compoundKey in s.inFlight <==> Held(s.active, k.compoundKey);
    if h :| h in s.active && !(Both(s.active[h]) !! Both(k)) {
      assert k.tradeKey in Both(s.active[h]) || k.compoundKey in Both(s.active[h]);
    }
  }

  lemma {:induction false} FlightAlways(events: seq<Event>)
    ensures FlightOk(After(events))
  {
    if events != [] {
      FlightAlways(events[..|events| - 1]);
      FlightStep(After(events[..|events| - 1]), events[|events| - 1]);
    }
  }

  /** Two passes of the gate with the same tenant and transaction hash are more than an hour apart. */
  lemma SameHashAnHourApart(events: seq<Event>, i: nat, j: nat)
    requires Timely(events) && i < j < |After(events).passed|
    requires After(events).passed[i].keys.tradeKey == After(events).passed[j].keys.tradeKey
    ensures After(events).passed[j].at - After(events).passed[i].at > 3600000
  {
    var last := RunOk(events);
  }

  // ---------------------------------------------------------------- marks over whole runs

  /** Event i marks the hash at time t: it passes the gate, or its handler executed. */
  ghost predicate MarksHash(events: seq<Event>, i: nat, key: string, t: int)
    requires i < |events|
  {
    match events[i]
    case Arrive(k, _, marked) =>
      k.tradeKey == key && t == marked && |After(events[..i + 1]).passed| > |After(events[..i]).passed|
    case MarkTrade(h, at) =>
      h in After(events[..i]).active && After(events[..i]).active[h].tradeKey == key && t == at
    case _ => false
  }

  /** Event i marks the compound key at time t. */
  ghost predicate MarksCompound(events: seq<Event>, i: nat, key: string, t: int)
    requires i < |events|
  {
    events[i].MarkCompound? && t == events[i].at && events[i].handler in After(events[..i]).active
    && After(events[..i]).active[events[i].handler].compoundKey == key
  }

  lemma AfterNext(events: seq<Event>, n: nat)
    requires n < |events|
    ensures After(events[..n + 1]) == Step(After(events[..n]), events[n])
  {
    assert events[..n + 1][..n] == events[..n];
  }

  /** The clock has read at most `now`. */
  ghost predicate ReadUpTo(events: seq<Event>, n: nat, now: int)
    requires n <= |events|
  {
    forall i :: 0 <= i < n && Readings(events[i]).Some? ==>
      Readings(events[i]).value.0 <= Readings(events[i]).value.1 <= now
  }

  /** A mark stays until the clock has passed its age. */
  lemma StepKeepsHash(s: State, e: Event, key: string, t: int, now: int)
    requires key in s.processedTrades && s.processedTrades[key] >= t && now - t <= 3600000
    requires Readings(e).Some? ==> t <= Readings(e).value.0 <= Readings(e).value.1 <= now
    ensures key in Step(s, e).processedTrades && Step(s, e).processedTrades[key] >= t
  {
  }

  lemma StepKeepsCompound(s: State, e: Event, key: string, t: int, now: int)
    requires key in s.processedCompoundKeys && s.processedCompoundKeys[key] >= t && now - t <= 300000
    requires Readings(e).Some? ==> t <= Readings(e).value.0 <= Readings(e).value.1 <= now
    ensures key in Step(s, e).processedCompoundKeys && Step(s, e).processedCompoundKeys[key] >= t
  {
  }

  lemma MarkSet(events: seq<Event>, i: nat, key: string, t: int)
    requires i < |events|
    ensures MarksHash(events, i, key, t) ==>
              var m := After(events[..i + 1]).processedTrades; key in m && m[key] == t
    ensures MarksCompound(events, i, key, t) ==>
              var m := After(events[..i + 1]).processedCompoundKeys; key in m && m[key] == t
    ensures MarksHash(events, i, key, t) || MarksCompound(events, i, key, t) ==>
              Readings(events[i]).Some? && Readings(events[i]).value.1 == t
  {
    AfterNext(events, i);
    hide After, Younger;
  }

  /** Later readings are no earlier than a mark. */
  lemma ReadAfterMark(events: seq<Event>, i: nat, m: nat, n: nat, t: int, now: int)
    requires i < m < n <= |events| && Timely(events) && ReadUpTo(events, n, now)
    requires Readings(events[i]).Some? && Readings(events[i]).value.1 == t
    ensures Readings(events[m]).Some? ==> t <= Readings(events[m]).value.0 <= Readings(events[m]).value.1 <= now
    ensures ReadUpTo(events, m, now)
  {
  }

  lemma {:induction false} HashMarkKept(events: seq<Event>, i: nat, n: nat, key: string, t: int, now: int)
    requires i < n <= |events| && MarksHash(events, i, key, t) && Timely(events)
    requires ReadUpTo(events, n, now) && now - t <= 3600000
    ensures var m := After(events[..n]).processedTrades; key in m && m[key] >= t
    decreases n
  {
    hide *;
    MarkSet(events, i, key, t);
    if i < n - 1 {
      ReadAfterMark(events, i, n - 1, n, t, now);
      HashMarkKept(events, i, n - 1, key, t, now);
      AfterNext(events, n - 1);
      StepKeepsHash(After(events[..n - 1]), events[n - 1], key, t, now);
    }
  }

  lemma {:induction false} CompoundMarkKept(events: seq<Event>, i: nat, n: nat, key: string, t: int, now: int)
    requires i < n <= |events| && MarksCompound(events, i, key, t) && Timely(events)
    requires ReadUpTo(events, n, now) && now - t <= 300000
    ensures var m := After(events[..n]).processedCompoundKeys; key in m && m[key] >= t
    decreases n
  {
    hide *;
    MarkSet(events, i, key, t);
    if i < n - 1 {
      ReadAfterMark(events, i, n - 1, n, t, now);
      CompoundMarkKept(events, i, n - 1, key, t, now);
      AfterNext(events, n - 1);
      StepKeepsCompound(After(events[..n - 1]), events[n - 1], key, t, now);
    }
  }

  ghost predicate SomeHashMark(events: seq<Event>, key: string, t: int) {
    exists i: nat :: i < |events| && MarksHash(events, i, key, t)
  }

  ghost predicate SomeCompoundMark(events: seq<Event>, key: string, t: int) {
    exists i: nat :: i < |events| && MarksCompound(events, i, key, t)
  }

  lemma MarksInPrefix(events: seq<Event>, n: nat, i: nat, key: string, t: int)
    requires i < n <= |events|
    ensures MarksHash(events[..n], i, key, t) <==> MarksHash(events, i, key, t)
    ensures MarksCompound(events[..n], i, key, t) <==> MarksCompound(events, i, key, t)
  {
    assert events[..n][..i] == events[..i] && events[..n][..i + 1] == events[..i + 1];
  }

  /** What is marked was marked by some event at that time. */
  lemma {:induction false} MarkHasEvent(events: seq<Event>, key: string)
    ensures var m := After(events).processedTrades; key in m ==> SomeHashMark(events, key, m[key])
    ensures var m := After(events).processedCompoundKeys; key in m ==> SomeCompoundMark(events, key, m[key])
  {
    if events != [] {
      var n := |events| - 1;
      var init, s, s' := events[..n], After(events[..n]), After(events);
      MarkHasEvent(init, key);
      assert events[..n + 1] == events;
      if key in s'.processedTrades {
        var t := s'.processedTrades[key];
        if key in s.processedTrades && s.processedTrades[key] == t {
          var i: nat :| i < n && MarksHash(init, i, key, t);
          MarksInPrefix(events, n, i, key, t);
        } else {
          assert MarksHash(events, n, key, t);
        }
      }
      if key in s'.processedCompoundKeys {
        var t := s'.processedCompoundKeys[key];
        if key in s.processedCompoundKeys && s.processedCompoundKeys[key] == t {
          var i: nat :| i < n && MarksCompound(init, i, key, t);
          MarksInPrefix(events, n, i, key, t);
        } else {
          assert MarksCompound(events, n, key, t);
        }
      }
    }
  }

  /** Under any interleaving the gate admits a trade exactly if nothing marked its hash within the last 3600000 ms
      (a pass or an execution) or its compound key within the last 300000 ms (an execution), and no active handler
      holds one of its keys. */
  lemma AdmittedByHistory(events: seq<Event>, k: Keys, now: int, marked: int)
    requires Timely(events + [Arrive(k, now, marked)])
    ensures var s := After(events);
            After(events + [Arrive(k, now, marked)]).passed != s.passed <==>
            && (forall i: nat, t :: i < |events| && MarksHash(events, i, k.tradeKey, t) ==> now - t > 3600000)
            && (forall i: nat, t :: i < |events| && MarksCompound(events, i, k.compoundKey, t) ==> now - t > 300000)
            && forall h :: h in s.active ==> Both(s.active[h]) !! Both(k)
  {
    AdmittedExactly(events, k, now, marked);
    MarkedExactly(events, k, now, marked);
    hide Step, After, MarksHash, MarksCompound, Timely;
  }

  /** The stored marks that still count are those that some event made recently. */
  lemma MarkedExactly(events: seq<Event>, k: Keys, now: int, marked: int)
    requires Timely(events + [Arrive(k, now, marked)])
    ensures var m := After(events).processedTrades;
            k.tradeKey in m && now - m[k.tradeKey] <= HOUR_MS
            <==> exists i: nat, t :: i < |events| && MarksHash(events, i, k.tradeKey, t) && now - t <= 3600000
    ensures var m := After(events).processedCompoundKeys;
            k.compoundKey in m && now - m[k.compoundKey] <= FIVE_MINUTES_MS
            <==> exists i: nat, t :: i < |events| && MarksCompound(events, i, k.compoundKey, t) && now - t <= 300000
  {
    MarkHasEvent(events, k.tradeKey);
    MarkHasEvent(events, k.compoundKey);
    ReadBeforeLast(events, k, now, marked);
    hide Step, After, MarksHash, MarksCompound, Timely, ReadUpTo;
    assert events[..|events|] == events;
    if i: nat, t :| i < |events| && MarksHash(events, i, k.tradeKey, t) && now - t <= 3600000 {
      HashMarkKept(events, i, |events|, k.tradeKey, t, now);
    }
    if i: nat, t :| i < |events| && MarksCompound(events, i, k.compoundKey, t) && now - t <= 300000 {
      CompoundMarkKept(events, i, |events|, k.compoundKey, t, now);
    }
  }

  lemma ReadBeforeLast(events: seq<Event>, k: Keys, now: int, marked: int)
    requires Timely(events + [Arrive(k, now, marked)])
    ensures Timely(events) && ReadUpTo(events, |events|, now)
  {
    var all := events + [Arrive(k, now, marked)];
    assert all[|events|] == Arrive(k, now, marked);
    assert forall i :: 0 <= i < |events| ==> all[i] == events[i];
  }

  /** In particular a trade seen again under another hash is refused for five minutes after an execution marked its
      compound key, whatever happens in between; and the hash for an hour. */
  lemma MarksHold(events: seq<Event>, i: nat, t: int, k: Keys, now: int, marked: int)
    requires Timely(events + [Arrive(k, now, marked)]) && i < |events|
    requires (MarksCompound(events, i, k.compoundKey, t) && now - t <= 300000)
             || (MarksHash(events, i, k.tradeKey, t) && now - t <= 3600000)
    ensures After(events + [Arrive(k, now, marked)]).passed == After(events).passed
  {
    AdmittedByHistory(events, k, now, marked);
  }
}
