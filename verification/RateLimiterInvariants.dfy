/** What every history of `acquire` / release / timer events of the limiter keeps. */
module RateLimiterInvariants {
  import opened Options
  import opened RateLimiter
  import opened RateLimiterRotation

  // ---------------------------------------------------------------- the invariant

  /** Requests of t among the first calls of `acquire`, oldest first. */
  function RequestsOf(acquired: seq<Tenant>, t: Tenant): seq<Request> {
    if acquired == [] then []
    else
      var n := |acquired| - 1;
      RequestsOf(acquired[..n], t) + (if acquired[n] == t then [n] else [])
  }

  /** Requests of t in the order in which they were granted. */
  function GrantedTo(granted: seq<Grant>, t: Tenant): seq<Request> {
    if granted == [] then []
    else
      var n := |granted| - 1;
      GrantedTo(granted[..n], t) + (if granted[n].tenant == t then [granted[n].request] else [])
  }

  ghost predicate OrderOk(s: State) {
    && NoDuplicates(s.order)
    && forall t :: t in s.pending ==> s.pending[t] != [] && t in s.order
  }

  /** What t asked for is what it was granted followed by what it waits for. */
  ghost predicate QueuesOk(s: State) {
    forall t :: RequestsOf(s.acquired, t) == GrantedTo(s.granted, t) + Queue(s, t)
  }

  function OutstandingOf(s: State, t: Tenant): set<nat> {
    set k | k in s.outstanding && k < |s.granted| && s.granted[k].tenant == t
  }

  ghost predicate InFlightOk(env: Env, s: State) {
    && (forall k :: k in s.outstanding ==> k < |s.granted|)
    && (forall t :: InFlight(s, t) == |OutstandingOf(s, t)| <= Max(0, env.settings.maxConcurrentPerTenant))
  }

  function Watermark(env: Env, s: State): int {
    env.clock(if s.readings == 0 then 0 else s.readings - 1)
  }

  /** `log` is what is left of the grant times once every time at least a window older
      than the last reading was dropped, and grants `limit` apart are a window apart. */
  ghost predicate LogOk(granted: seq<Grant>, log: seq<int>, limit: int, window: int, last: int) {
    && |log| <= |granted| && |log| <= Max(0, limit)
    && (forall i :: 0 <= i < |log| ==> log[i] == granted[|granted| - |log| + i].time)
    && (forall i :: 0 <= i < |granted| - |log| ==> last - granted[i].time >= window)
    && (granted != [] ==> limit >= 1)
    && (forall i, j :: 0 <= i < j < |granted| && j - i >= limit ==> granted[j].time - granted[i].time >= window)
  }

  ghost predicate TimesOk(granted: seq<Grant>, last: int) {
    && (forall i, j :: 0 <= i <= j < |granted| ==> granted[i].time <= granted[j].time)
    && (forall i :: 0 <= i < |granted| ==> granted[i].time <= last)
  }

  ghost predicate LogsOk(env: Env, s: State) {
    var o := env.settings;
    && TimesOk(s.granted, Watermark(env, s))
    && LogOk(s.granted, s.burst, o.burstLimit, o.burstWindowMs, Watermark(env, s))
    && LogOk(s.granted, s.sustained, o.sustainedLimit, o.sustainedWindowMs, Watermark(env, s))
  }

  /** `once` says that so far each release callback was called at most once. */
  ghost predicate Inv(env: Env, once: bool, s: State) {
    && OrderOk(s)
    && QueuesOk(s)
    && (once ==> InFlightOk(env, s))
    && (Nondecreasing(env.clock) ==> LogsOk(env, s))
  }

  // ---------------------------------------------------------------- one activation

  lemma {:induction false} PruneLogShape(log: seq<int>, now: int, window: int) returns (d: nat)
    ensures d <= |log| && PruneLog(log, now, window) == log[d..]
    ensures forall i :: 0 <= i < d ==> now - log[i] >= window
    ensures d < |log| ==> now - log[d] < window
  {
    d := 0;
    if |log| > 0 && now - log[0] >= window {
      var d' := PruneLogShape(log[1..], now, window);
      d := d' + 1;
      assert log[1..][d'..] == log[d..];
      assert forall i :: 0 < i < d ==> log[i] == log[1..][i - 1];
    }
  }

  lemma PruneKeepsLogOk(granted: seq<Grant>, log: seq<int>, limit: int, window: int, last: int, now: int)
    requires LogOk(granted, log, limit, window, last) && last <= now
    ensures LogOk(granted, PruneLog(log, now, window), limit, window, now)
  {
    var d := PruneLogShape(log, now, window);
    forall i | 0 <= i < |granted| - |log| + d
      ensures now - granted[i].time >= window
    {
      if i >= |granted| - |log| {
        assert granted[i].time == log[i - (|granted| - |log|)];
      }
    }
  }

  lemma AppendKeepsLogOk(granted: seq<Grant>, log: seq<int>, limit: int, window: int, g: Grant)
    requires LogOk(granted, log, limit, window, g.time) && |log| < limit
    ensures LogOk(granted + [g], log + [g.time], limit, window, g.time)
  {
  }

  lemma AfterPickOrder(env: Env, s: State)
    requires OrderOk(s)
    ensures OrderOk(AfterPick(env, s))
  {
    var s1 := Prune(env, s, env.clock(s.readings)).(readings := s.readings + 1);
    var e := PickShape(env, s1);
    ScanKeepsEntries(env, s1, s1.order, Pick(env, s1), e);
    assert forall t :: t in s.pending ==> !Stale(s1, t);
  }

  lemma AfterPickLogs(env: Env, s: State)
    requires Nondecreasing(env.clock) && LogsOk(env, s)
    ensures LogsOk(env, AfterPick(env, s))
  {
    var o, now := env.settings, env.clock(s.readings);
    var s' := AfterPick(env, s);
    assert Watermark(env, s) <= now == Watermark(env, s');
    PruneKeepsLogOk(s.granted, s.burst, o.burstLimit, o.burstWindowMs, Watermark(env, s), now);
    PruneKeepsLogOk(s.granted, s.sustained, o.sustainedLimit, o.sustainedWindowMs, Watermark(env, s), now);
    hide PruneLog, Pick, LogOk;
  }

  /** States that differ neither in queues, counters nor trace. */
  lemma SameTrace(env: Env, once: bool, s: State, s': State)
    requires QueuesOk(s) && (once ==> InFlightOk(env, s))
    requires s'.pending == s.pending && s'.inFlight == s.inFlight && s'.acquired == s.acquired
    requires s'.granted == s.granted && s'.outstanding == s.outstanding
    ensures QueuesOk(s') && (once ==> InFlightOk(env, s'))
  {
    assert forall t :: Queue(s', t) == Queue(s, t) && InFlight(s', t) == InFlight(s, t);
    assert forall t :: OutstandingOf(s', t) == OutstandingOf(s, t);
  }

  lemma AfterPickInv(env: Env, once: bool, s: State)
    requires Inv(env, once, s)
    ensures Inv(env, once, AfterPick(env, s))
  {
    AfterPickOrder(env, s);
    SameTrace(env, once, s, AfterPick(env, s));
    if Nondecreasing(env.clock) {
      AfterPickLogs(env, s);
    }
  }

  lemma GrantKeepsQueues(s: State, t: Tenant, now: int)
    requires QueuesOk(s) && !Stale(s, t)
    ensures QueuesOk(GrantTo(s, t, now))
  {
  }

  lemma OutstandingAfterGrant(s: State, t: Tenant, now: int, u: Tenant)
    requires !Stale(s, t) && forall k :: k in s.outstanding ==> k < |s.granted|
    ensures OutstandingOf(GrantTo(s, t, now), u) == OutstandingOf(s, u) + (if u == t then {|s.granted|} else {})
    ensures |OutstandingOf(GrantTo(s, t, now), u)| == |OutstandingOf(s, u)| + (if u == t then 1 else 0)
  {
    assert OutstandingOf(GrantTo(s, t, now), u) == OutstandingOf(s, u) + (if u == t then {|s.granted|} else {});
  }

  lemma GrantKeepsInFlight(env: Env, s: State, t: Tenant, now: int)
    requires InFlightOk(env, s) && Eligible(env, s, t)
    ensures InFlightOk(env, GrantTo(s, t, now))
  {
    hide OutstandingOf;
    var s' := GrantTo(s, t, now);
    forall u
      ensures InFlight(s', u) == |OutstandingOf(s', u)| <= Max(0, env.settings.maxConcurrentPerTenant)
    {
      assert InFlight(s, u) == |OutstandingOf(s, u)|;
      OutstandingAfterGrant(s, t, now, u);
      assert InFlight(s', u) == InFlight(s, u) + if u == t then 1 else 0;
    }
  }

  lemma GrantKeepsLogs(env: Env, s: State, t: Tenant)
    requires Nondecreasing(env.clock) && LogsOk(env, s) && HasRoom(env, s) && !Stale(s, t) && s.readings > 0
    ensures LogsOk(env, GrantTo(s, t, env.clock(s.readings - 1)))
  {
    var o := env.settings;
    var g := Grant(env.clock(s.readings - 1), t, Queue(s, t)[0]);
    AppendKeepsLogOk(s.granted, s.burst, o.burstLimit, o.burstWindowMs, g);
    AppendKeepsLogOk(s.granted, s.sustained, o.sustainedLimit, o.sustainedWindowMs, g);
  }

  lemma GrantInv(env: Env, once: bool, s: State, t: Tenant)
    requires Inv(env, once, s) && Eligible(env, s, t) && HasRoom(env, s) && s.readings > 0
    ensures Inv(env, once, GrantTo(s, t, env.clock(s.readings - 1)))
  {
    var now := env.clock(s.readings - 1);
    GrantKeepsQueues(s, t, now);
    if once {
      GrantKeepsInFlight(env, s, t, now);
    }
    if Nondecreasing(env.clock) {
      GrantKeepsLogs(env, s, t);
    }
    hide LogsOk, QueuesOk, InFlightOk;
  }

  function StateOf(o: Outcome): State {
    match o case Granted(next) => next case Halted(final) => final
  }

  lemma TimerInv(env: Env, once: bool, s: State, timer: Option<int>)
    requires Inv(env, once, s)
    ensures Inv(env, once, s.(timer := timer))
  {
    SameTrace(env, once, s, s.(timer := timer));
  }

  lemma TurnInv(env: Env, once: bool, s: State)
    requires Inv(env, once, s)
    ensures Inv(env, once, StateOf(Turn(env, s)))
  {
    if s.timer.None? {
      var s1 := AfterPick(env, s);
      AfterPickInv(env, once, s);
      match Turn(env, s)
      case Halted(final) => TimerInv(env, once, s1, final.timer);
      case Granted(next) =>
        ChosenHasRequest(env, s);
        GrantInv(env, once, s1, Chosen(env, s).value);
    }
  }

  lemma {:induction false} DispatchInv(env: Env, once: bool, s: State)
    requires Inv(env, once, s)
    ensures Inv(env, once, Dispatch(env, s))
    decreases PendingSlots(s)
  {
    TurnInv(env, once, s);
    if Turn(env, s).Granted? {
      GrantShrinksPending(env, s);
      DispatchInv(env, once, Turn(env, s).next);
    }
  }

  // ---------------------------------------------------------------- events

  lemma EnqueueInv(env: Env, once: bool, s: State, t: Tenant)
    requires Inv(env, once, s)
    ensures Inv(env, once, Enqueue(s, t))
  {
    var s' := Enqueue(s, t);
    assert s'.acquired[..|s.acquired|] == s.acquired;
    forall u
      ensures RequestsOf(s'.acquired, u) == GrantedTo(s'.granted, u) + Queue(s', u)
    {
      assert RequestsOf(s.acquired, u) == GrantedTo(s.granted, u) + Queue(s, u);
    }
    assert forall u :: InFlight(s', u) == InFlight(s, u);
    assert forall u :: OutstandingOf(s', u) == OutstandingOf(s, u);
  }

  lemma GiveBackInv(env: Env, once: bool, s: State, k: nat)
    requires Inv(env, once, s) && k < |s.granted|
    ensures Inv(env, once && k in s.outstanding, GiveBack(s, k))
  {
    var s' := GiveBack(s, k);
    var t := s.granted[k].tenant;
    assert forall u :: Queue(s', u) == Queue(s, u);
    if once && k in s.outstanding {
      assert k in OutstandingOf(s, t);
      forall u
        ensures InFlight(s', u) == |OutstandingOf(s', u)| <= Max(0, env.settings.maxConcurrentPerTenant)
      {
        assert InFlight(s, u) == |OutstandingOf(s, u)|;
        assert OutstandingOf(s', u) == OutstandingOf(s, u) - (if u == t then {k} else {});
      }
    }
  }

  /** No callback is called again after it was called. */
  ghost predicate ReleasedOnce(events: seq<Event>, states: seq<State>)
    requires |states| == |events| + 1
  {
    forall i :: 0 <= i < |events| && events[i].Release? ==> events[i].grant in states[i].outstanding
  }

  lemma RunPrefix(env: Env, events: seq<Event>, states: seq<State>)
    requires IsRun(env, events, states) && events != []
    ensures IsRun(env, events[..|events| - 1], states[..|events|])
    ensures ReleasedOnce(events, states) ==> ReleasedOnce(events[..|events| - 1], states[..|events|])
  {
  }

  lemma InitialInv(env: Env)
    ensures Inv(env, true, INITIAL) && InFlightOk(env, INITIAL)
  {
    assert forall t :: OutstandingOf(INITIAL, t) == {};
  }

  lemma EventInv(env: Env, once: bool, s: State, e: Event)
    requires Inv(env, once, s) && Enabled(s, e) && (once && e.Release? ==> e.grant in s.outstanding)
    ensures Inv(env, once, Step(env, s, e))
  {
    hide Inv, Dispatch, GiveBack, Enqueue;
    match e
    case Acquire(t) =>
      EnqueueInv(env, once, s, t);
      DispatchInv(env, once, Enqueue(s, t));
    case Release(k) =>
      GiveBackInv(env, once, s, k);
      DispatchInv(env, once, GiveBack(s, k));
    case TimerFires =>
      TimerInv(env, once, s, None);
      DispatchInv(env, once, s.(timer := None));
  }

  lemma {:induction false} RunInv(env: Env, events: seq<Event>, states: seq<State>)
    requires IsRun(env, events, states)
    ensures Inv(env, ReleasedOnce(events, states), states[|events|])
  {
    if events == [] {
      InitialInv(env);
    } else {
      var n := |events| - 1;
      var s, e := states[n], events[n];
      RunPrefix(env, events, states);
      RunInv(env, events[..n], states[..n + 1]);
      var once := ReleasedOnce(events, states);
      assert Inv(env, once, s);
      hide Inv, Step;
      EventInv(env, once, s, e);
      assert states[n + 1] == Step(env, s, e);
    }
  }

  // ---------------------------------------------------------------- theorems

  /** Positions of the grants that fall into [from, from + window). */
  function GrantsWithin(granted: seq<Grant>, from: int, window: int): set<nat> {
    set k: nat | k < |granted| && from <= granted[k].time < from + window
  }

  function Range(a: nat, n: nat): (r: set<nat>)
    ensures |r| == n
    ensures forall k :: k in r <==> a <= k < a + n
  {
    if n == 0 then {} else {a + n - 1} + Range(a, n - 1)
  }

  lemma SubsetSize(a: set<nat>, b: set<nat>)
    requires a <= b
    ensures |a| <= |b|
  {
    assert b == a + (b - a);
  }

  lemma SpacedWindow(granted: seq<Grant>, log: seq<int>, limit: int, window: int, last: int, from: int)
    requires LogOk(granted, log, limit, window, last) && TimesOk(granted, last)
    ensures |GrantsWithin(granted, from, window)| <= Max(0, limit)
  {
    var inside := GrantsWithin(granted, from, window);
    if granted == [] {
      assert inside == {};
    } else if inside != {} {
      var m := Least(inside);
      forall k | k in inside
        ensures k in Range(m, limit)
      {
      }
      SubsetSize(inside, Range(m, limit));
    }
  }

  lemma {:induction false} Least(xs: set<nat>) returns (m: nat)
    requires xs != {}
    ensures m in xs && forall k :: k in xs ==> m <= k
  {
    var x :| x in xs;
    m := x;
    if xs != {x} {
      var rest := xs - {x};
      assert xs == rest + {x};
      var m' := Least(rest);
      m := if m' < x then m' else x;
    }
  }

  /** Under a clock that never runs backwards no half-open interval as long as the burst
      window holds more than `burstLimit` grants and, at the same time, none as long as the
      sustained window holds more than `sustainedLimit`. */
  lemma WindowBound(env: Env, events: seq<Event>, states: seq<State>, from: int)
    requires Nondecreasing(env.clock) && IsRun(env, events, states)
    ensures var granted := states[|events|].granted;
            && |GrantsWithin(granted, from, env.settings.burstWindowMs)| <= Max(0, env.settings.burstLimit)
            && |GrantsWithin(granted, from, env.settings.sustainedWindowMs)| <= Max(0, env.settings.sustainedLimit)
  {
    var o, s := env.settings, states[|events|];
    RunInv(env, events, states);
    SpacedWindow(s.granted, s.burst, o.burstLimit, o.burstWindowMs, Watermark(env, s), from);
    SpacedWindow(s.granted, s.sustained, o.sustainedLimit, o.sustainedWindowMs, Watermark(env, s), from);
  }

  /** The scheduler's invariant over every run, whatever callers do with the callbacks:
      a tenant with requests is in the rotation exactly once, and each tenant's requests are
      its grants in the order of asking followed by its queue. */
  lemma RotationAndFifo(env: Env, events: seq<Event>, states: seq<State>, t: Tenant)
    requires IsRun(env, events, states)
    ensures var s := states[|events|];
            && (Queue(s, t) != [] ==> t in s.order)
            && NoDuplicates(s.order)
            && RequestsOf(s.acquired, t) == GrantedTo(s.granted, t) + Queue(s, t)
  {
    RunInv(env, events, states);
  }

  /** With every callback called at most once the concurrency counter of a tenant is the number of its
      outstanding grants and never exceeds the cap; what it asked for is pending, outstanding or released. */
  lemma ConcurrencyCap(env: Env, events: seq<Event>, states: seq<State>, t: Tenant)
    requires IsRun(env, events, states) && ReleasedOnce(events, states)
    ensures var s := states[|events|];
            var released := set k: nat | k < |s.granted| && s.granted[k].tenant == t && k !in s.outstanding;
            && InFlight(s, t) == |OutstandingOf(s, t)| <= Max(0, env.settings.maxConcurrentPerTenant)
            && |RequestsOf(s.acquired, t)| == |Queue(s, t)| + |OutstandingOf(s, t)| + |released|
  {
    RunInv(env, events, states);
    Accounted(env, states[|events|], t);
  }

  lemma Accounted(env: Env, s: State, t: Tenant)
    requires QueuesOk(s) && InFlightOk(env, s)
    ensures var released := set k: nat | k < |s.granted| && s.granted[k].tenant == t && k !in s.outstanding;
            |RequestsOf(s.acquired, t)| == |Queue(s, t)| + |OutstandingOf(s, t)| + |released|
  {
    var released := set k: nat | k < |s.granted| && s.granted[k].tenant == t && k !in s.outstanding;
    GrantCount(s.granted, t);
    assert GrantsOf(s.granted, t) == OutstandingOf(s, t) + released;
    assert OutstandingOf(s, t) !! released;
  }

  function GrantsOf(granted: seq<Grant>, t: Tenant): set<nat> {
    set k: nat | k < |granted| && granted[k].tenant == t
  }

  lemma {:induction false} GrantCount(granted: seq<Grant>, t: Tenant)
    ensures |GrantedTo(granted, t)| == |GrantsOf(granted, t)|
  {
    if granted == [] {
      assert GrantsOf(granted, t) == {};
    } else {
      var n := |granted| - 1;
      GrantCount(granted[..n], t);
      assert GrantsOf(granted, t) == GrantsOf(granted[..n], t) + (if granted[n].tenant == t then {n} else {});
    }
  }

  // ---------------------------------------------------------------- callbacks called again

  /** By how much the counter of t falls short of its outstanding grants. */
  function Drift(s: State, t: Tenant): int {
    |OutstandingOf(s, t)| - InFlight(s, t)
  }

  ghost predicate OutstandingGranted(s: State) {
    forall k :: k in s.outstanding ==> k < |s.granted|
  }

  /** Calling the callback of grant k again leaves the counters exact just if its tenant has nothing outstanding. */
  lemma RepeatedCallExact(env: Env, s: State, k: nat)
    requires InFlightOk(env, s) && k < |s.granted| && k !in s.outstanding
    ensures InFlightOk(env, GiveBack(s, k)) <==> OutstandingOf(s, s.granted[k].tenant) == {}
    ensures OutstandingOf(s, s.granted[k].tenant) != {} ==> Drift(GiveBack(s, k), s.granted[k].tenant) == 1
  {
    var t, s' := s.granted[k].tenant, GiveBack(s, k);
    assert s'.outstanding == s.outstanding;
    assert forall u :: OutstandingOf(s', u) == OutstandingOf(s, u);
    assert InFlight(s, t) == |OutstandingOf(s, t)|;
    assert forall u :: u != t ==> InFlight(s', u) == InFlight(s, u);
    assert OutstandingOf(s, t) == {} <==> |OutstandingOf(s, t)| == 0;
    assert InFlight(s', t) == Max(0, InFlight(s, t) - 1);
  }

  lemma TurnKeepsDrift(env: Env, s: State, t: Tenant)
    requires OutstandingGranted(s)
    ensures OutstandingGranted(StateOf(Turn(env, s))) && Drift(StateOf(Turn(env, s)), t) == Drift(s, t)
  {
    if s.timer.None? {
      var s1 := AfterPick(env, s);
      SameDrift(s, s1, t);
      match Turn(env, s)
      case Halted(final) => SameDrift(s, final, t);
      case Granted(next) =>
        ChosenHasRequest(env, s);
        GrantKeepsDrift(s1, Chosen(env, s).value, env.clock(s.readings), t);
    }
    hide Drift, OutstandingOf, AfterPick;
  }

  lemma SameDrift(s: State, s': State, t: Tenant)
    requires s'.inFlight == s.inFlight && s'.granted == s.granted && s'.outstanding == s.outstanding
    ensures Drift(s', t) == Drift(s, t)
  {
    assert OutstandingOf(s', t) == OutstandingOf(s, t);
  }

  lemma GrantKeepsDrift(s: State, t: Tenant, now: int, u: Tenant)
    requires OutstandingGranted(s) && !Stale(s, t)
    ensures OutstandingGranted(GrantTo(s, t, now)) && Drift(GrantTo(s, t, now), u) == Drift(s, u)
  {
    OutstandingAfterGrant(s, t, now, u);
  }

  /** No dispatch repairs a counter. */
  lemma {:induction false} DispatchKeepsDrift(env: Env, s: State, t: Tenant)
    requires OutstandingGranted(s)
    ensures Drift(Dispatch(env, s), t) == Drift(s, t)
    decreases PendingSlots(s)
  {
    TurnKeepsDrift(env, s, t);
    if Turn(env, s).Granted? {
      GrantShrinksPending(env, s);
      DispatchKeepsDrift(env, Turn(env, s).next, t);
    }
  }

  /** The event calls no callback again while its tenant has a grant outstanding. */
  predicate Harmless(s: State, e: Event) {
    e.Release? && e.grant < |s.granted| ==>
      e.grant in s.outstanding || OutstandingOf(s, s.granted[e.grant].tenant) == {}
  }

  lemma ReleaseExact(env: Env, s: State, k: nat)
    requires Inv(env, true, s) && k < |s.granted|
    ensures Harmless(s, Release(k)) ==> Inv(env, true, GiveBack(s, k))
    ensures !Harmless(s, Release(k)) ==> Drift(GiveBack(s, k), s.granted[k].tenant) == 1
  {
    GiveBackInv(env, true, s, k);
    if k !in s.outstanding {
      RepeatedCallExact(env, s, k);
    }
  }

  /** One event keeps the counters exact just if it is harmless. */
  lemma StepExact(env: Env, s: State, e: Event)
    requires Inv(env, true, s) && Enabled(s, e)
    ensures Inv(env, true, Step(env, s, e)) <==> Harmless(s, e)
    ensures InFlightOk(env, Step(env, s, e)) <==> Harmless(s, e)
  {
    match e
    case Acquire(t) =>
      EnqueueInv(env, true, s, t);
      DispatchInv(env, true, Enqueue(s, t));
    case Release(k) =>
      ReleaseExact(env, s, k);
      if Harmless(s, e) {
        DispatchInv(env, true, GiveBack(s, k));
      } else {
        var t := s.granted[k].tenant;
        DispatchKeepsDrift(env, GiveBack(s, k), t);
        assert Drift(Step(env, s, e), t) == 1;
      }
    case TimerFires =>
      TimerInv(env, true, s, None);
      DispatchInv(env, true, s.(timer := None));
  }

  ghost predicate ExactUpTo(env: Env, states: seq<State>, n: nat)
    requires n < |states|
  {
    forall i :: 0 <= i <= n ==> InFlightOk(env, states[i])
  }

  ghost predicate HarmlessUpTo(events: seq<Event>, states: seq<State>, n: nat)
    requires n <= |events| < |states|
  {
    forall i :: 0 <= i < n ==> Harmless(states[i], events[i])
  }

  lemma {:induction false} CountersUpTo(env: Env, events: seq<Event>, states: seq<State>, n: nat)
    requires IsRun(env, events, states) && n <= |events|
    ensures ExactUpTo(env, states, n) <==> HarmlessUpTo(events, states, n)
    ensures HarmlessUpTo(events, states, n) ==> Inv(env, true, states[n])
  {
    hide Inv, InFlightOk, Harmless, Step;
    if n == 0 {
      InitialInv(env);
    } else {
      CountersUpTo(env, events, states, n - 1);
      var s, e := states[n - 1], events[n - 1];
      assert Enabled(s, e) && states[n - 1 + 1] == Step(env, s, e);
      if HarmlessUpTo(events, states, n - 1) {
        StepExact(env, s, e);
      }
    }
  }

  /** In a run the counters are the outstanding grants, within the cap, after every event exactly if every repeated
      call of a callback comes while its tenant has nothing outstanding. */
  lemma CountersExactly(env: Env, events: seq<Event>, states: seq<State>)
    requires IsRun(env, events, states)
    ensures (forall i :: 0 <= i <= |events| ==> InFlightOk(env, states[i]))
            <==> (forall i :: 0 <= i < |events| ==> Harmless(states[i], events[i]))
  {
    CountersUpTo(env, events, states, |events|);
  }
}
