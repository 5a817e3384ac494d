/** Wake-ups, the dispatch timer and fairness of the limiter. */
module RateLimiterProgress {
  import opened Options
  import opened RateLimiter
  import opened RateLimiterRotation
  import opened RateLimiterInvariants

  // ---------------------------------------------------------------- lost wake-ups

  /** Some tenant could be granted, and nothing is scheduled that would do it. */
  ghost predicate LostWakeup(env: Env, s: State) {
    s.timer.None? && exists t :: Eligible(env, s, t)
  }

  /** The state in which the last activation of the cascade starts. */
  function LastActivation(env: Env, s: State): State
    decreases PendingSlots(s)
  {
    match Turn(env, s)
    case Halted(_) => s
    case Granted(next) => GrantShrinksPending(env, s); LastActivation(env, next)
  }

  /** The scan of the activation that starts in s would be given this rotation, with this
      entry the first eligible one. */
  function FirstChance(env: Env, s: State): nat {
    FirstEligible(env, s, s.order)
  }

  lemma {:induction xs} EligibilityIgnoresLogs(env: Env, s: State, s': State, xs: seq<Tenant>)
    requires s'.pending == s.pending && s'.inFlight == s.inFlight
    ensures FirstEligible(env, s', xs) == FirstEligible(env, s, xs)
    ensures StaleCount(s', xs) == StaleCount(s, xs)
    ensures forall t :: Eligible(env, s', t) == Eligible(env, s, t)
  {
    assert forall t :: Eligible(env, s', t) == Eligible(env, s, t);
  }

  /** The activation that starts in s overlooks an eligible tenant: the scan is cut off
      before the first one, or its name is empty. */
  predicate Overlooks(env: Env, s: State) {
    var k := FirstChance(env, s);
    && s.timer.None?
    && k < |s.order|
    && ((env.bound == LiveLength && !WithinLiveBound(s, s.order, k)) || s.order[k] == "")
  }

  /** The first eligible tenant is chosen unless the activation overlooks it. */
  lemma ChosenExact(env: Env, s: State)
    requires s.timer.None?
    ensures Chosen(env, s) ==
            if FirstChance(env, s) < |s.order| && !Overlooks(env, s) then Some(s.order[FirstChance(env, s)]) else None
  {
    var k := FirstChance(env, s);
    var s1 := Prune(env, s, env.clock(s.readings)).(readings := s.readings + 1);
    EligibilityIgnoresLogs(env, s, s1, s.order);
    EligibilityIgnoresLogs(env, s, s1, s.order[..k]);
    match env.bound {
      case LiveLength => LivePickExact(env, s1);
      case EntryLength => EntryPickExact(env, s1);
    }
  }

  lemma SomeoneEligible(env: Env, s: State)
    requires OrderOk(s)
    ensures (exists t :: Eligible(env, s, t)) <==> FirstChance(env, s) < |s.order|
  {
  }

  lemma HaltedTurn(env: Env, s: State)
    requires s.timer.None? && Turn(env, s).Halted?
    ensures var r := Turn(env, s).final;
            r.pending == s.pending && r.inFlight == s.inFlight && (r.timer.None? <==> Chosen(env, s).None?)
  {
  }

  lemma LastTurnExact(env: Env, s: State)
    requires OrderOk(s) && Turn(env, s).Halted?
    ensures LostWakeup(env, Turn(env, s).final) <==> Overlooks(env, s)
  {
    if s.timer.None? {
      HaltedTurn(env, s);
      ChosenExact(env, s);
      SomeoneEligible(env, s);
      EligibilityIgnoresLogs(env, s, Turn(env, s).final, []);
    }
  }

  /** Exactly when a dispatch cascade loses a wake-up: its last scan overlooked someone. */
  lemma {:induction false} DispatchLosesExactly(env: Env, s: State)
    requires OrderOk(s)
    ensures LostWakeup(env, Dispatch(env, s)) <==> Overlooks(env, LastActivation(env, s))
    decreases PendingSlots(s)
  {
    match Turn(env, s)
    case Halted(_) => LastTurnExact(env, s);
    case Granted(next) =>
      GrantShrinksPending(env, s);
      AfterPickOrder(env, s);
      DispatchLosesExactly(env, next);
  }

  /** The state in which the dispatch of an event begins. */
  function Prepared(s: State, e: Event): State
    requires Enabled(s, e)
  {
    match e
    case Acquire(t) => Enqueue(s, t)
    case Release(k) => GiveBack(s, k)
    case TimerFires => s.(timer := None)
  }

  /** After any event of any run a wake-up is lost exactly if the last scan of that event's cascade had a first
      eligible tenant and was cut off before it, or found its name empty; a last rotation of named tenants
      without stale entries never does. */
  lemma WakeupsExact(env: Env, events: seq<Event>, states: seq<State>, i: nat)
    requires IsRun(env, events, states) && i < |events|
    ensures var last := LastActivation(env, Prepared(states[i], events[i]));
            var k := FirstChance(env, last);
            && (LostWakeup(env, states[i + 1]) <==>
                  last.timer.None? && k < |last.order|
                  && ((env.bound == LiveLength && !WithinLiveBound(last, last.order, k)) || last.order[k] == ""))
            && ((forall t | t in last.order :: t != "" && !Stale(last, t)) ==> !LostWakeup(env, states[i + 1]))
  {
    var s, e := states[i], events[i];
    var p := Prepared(s, e);
    InvAt(env, events, states, i);
    PreparedOrder(env, s, e);
    DispatchLosesExactly(env, p);
    var last := LastActivation(env, p);
    if forall t | t in last.order :: t != "" && !Stale(last, t) {
      NoStale(last, last.order[..FirstChance(env, last)]);
    }
  }

  /** With the scan bound taken on entry no run of named tenants ever loses a wake-up. */
  lemma EntryBoundNeverLoses(env: Env, events: seq<Event>, states: seq<State>)
    requires env.bound == EntryLength && IsRun(env, events, states)
    requires forall j :: 0 <= j < |events| && events[j].Acquire? ==> events[j].tenant != ""
    ensures !LostWakeup(env, states[|events|])
  {
    if events != [] {
      var i := |events| - 1;
      WakeupsExact(env, events, states, i);
      NamesNonempty(env, events, states, i);
      InvAt(env, events, states, i);
      PreparedOrder(env, states[i], events[i]);
      CascadeOrder(env, Prepared(states[i], events[i]));
    }
  }

  /** A tenant with the empty name waits for ever, whatever the limits, the clock and the scan bound. */
  lemma EmptyNameIsOverlooked(env: Env)
    requires env.settings.maxConcurrentPerTenant >= 1
    ensures var states := [INITIAL, Step(env, INITIAL, Acquire(""))];
            IsRun(env, [Acquire("")], states) && LostWakeup(env, states[1])
  {
    var events, states := [Acquire("")], [INITIAL, Step(env, INITIAL, Acquire(""))];
    assert events[0] == Acquire("") && Enabled(INITIAL, Acquire(""));
    var s := Prepared(INITIAL, Acquire(""));
    assert s == Enqueue(INITIAL, "") && s.order == [""];
    assert Queue(s, "") == [0] && Eligible(env, s, s.order[0]);
    assert FirstChance(env, s) == 0;
    ChosenExact(env, s);
    DispatchLosesExactly(env, s);
  }

  lemma RunUpTo(env: Env, events: seq<Event>, states: seq<State>, i: nat)
    requires IsRun(env, events, states) && i <= |events|
    ensures IsRun(env, events[..i], states[..i + 1])
  {
  }

  /** The scan of an activation, in terms of the state it starts in. */
  lemma AfterPickScan(env: Env, s: State) returns (e: nat)
    ensures e <= |s.order| && AfterPick(env, s).order == s.order[e..] + Kept(s, s.order[..e])
    ensures Chosen(env, s).Some? ==>
              e > 0 && Chosen(env, s).value == s.order[e - 1] && Eligible(env, s, s.order[e - 1])
              && NoneEligible(env, s, s.order[..e - 1])
  {
    var s1 := Prune(env, s, env.clock(s.readings)).(readings := s.readings + 1);
    e := PickShape(env, s1);
    EligibilityIgnoresLogs(env, s, s1, []);
    KeptIgnoresLogs(s, s1, s.order[..e]);
  }

  lemma {:induction xs} KeptIgnoresLogs(s: State, s': State, xs: seq<Tenant>)
    requires s'.pending == s.pending
    ensures Kept(s', xs) == Kept(s, xs)
  {
    assert forall t :: Stale(s', t) == Stale(s, t);
  }

  lemma TurnOrder(env: Env, s: State)
    requires OrderOk(s)
    ensures forall t :: t in StateOf(Turn(env, s)).order ==> t in s.order
    ensures Turn(env, s).Granted? ==> OrderOk(Turn(env, s).next)
  {
    var e := AfterPickScan(env, s);
    KeptMembers(s, s.order[..e]);
    AfterPickOrder(env, s);
    TurnKeepsScan(env, s);
  }

  lemma TurnKeepsScan(env: Env, s: State)
    ensures StateOf(Turn(env, s)).order == if s.timer.Some? then s.order else AfterPick(env, s).order
    ensures forall t :: t in StateOf(Turn(env, s)).pending ==> t in s.pending
    ensures (forall t :: t in s.pending ==> s.pending[t] != []) ==>
              forall t :: t in StateOf(Turn(env, s)).pending ==> StateOf(Turn(env, s)).pending[t] != []
    ensures forall t :: Eligible(env, StateOf(Turn(env, s)), t) ==> Eligible(env, s, t)
  {
    ChosenHasRequest(env, s);
  }

  /** A cascade adds nobody to the rotation. */
  lemma {:induction false} CascadeOrder(env: Env, s: State)
    requires OrderOk(s)
    ensures forall t :: t in LastActivation(env, s).order ==> t in s.order
    ensures forall t :: t in Dispatch(env, s).order ==> t in s.order
    decreases PendingSlots(s)
  {
    TurnOrder(env, s);
    match Turn(env, s)
    case Halted(_) =>
    case Granted(next) =>
      GrantShrinksPending(env, s);
      CascadeOrder(env, next);
  }

  lemma PreparedOrder(env: Env, s: State, e: Event)
    requires Enabled(s, e) && Inv(env, false, s)
    ensures OrderOk(Prepared(s, e))
    ensures forall t :: t in Prepared(s, e).order ==> t in s.order || e == Acquire(t)
    ensures Step(env, s, e) == Dispatch(env, Prepared(s, e))
  {
  }

  lemma InvAt(env: Env, events: seq<Event>, states: seq<State>, i: nat)
    requires IsRun(env, events, states) && i <= |events|
    ensures Inv(env, false, states[i])
    ensures Inv(env, ReleasedOnce(events[..i], states[..i + 1]), states[i])
    ensures PositiveLimits(env) ==> TimerOk(env, states[i])
  {
    RunUpTo(env, events, states, i);
    RunInv(env, events[..i], states[..i + 1]);
    if PositiveLimits(env) {
      RunTimerOk(env, events[..i], states[..i + 1]);
    }
  }

  lemma {:induction false} NamesNonempty(env: Env, events: seq<Event>, states: seq<State>, i: nat)
    requires IsRun(env, events, states) && i <= |events|
    requires forall j :: 0 <= j < |events| && events[j].Acquire? ==> events[j].tenant != ""
    ensures "" !in states[i].order
  {
    if i > 0 {
      var s, e := states[i - 1], events[i - 1];
      NamesNonempty(env, events, states, i - 1);
      InvAt(env, events, states, i - 1);
      PreparedOrder(env, s, e);
      CascadeOrder(env, Prepared(s, e));
      assert states[i - 1 + 1] == Step(env, s, e);
    }
  }

  // ---------------------------------------------------------------- the timer

  function Full(log: seq<int>, limit: int): nat {
    if |log| >= limit then 1 else 0
  }

  function FullLogs(env: Env, s: State): nat {
    Full(s.burst, env.settings.burstLimit) + Full(s.sustained, env.settings.sustainedLimit)
  }

  /** The oldest entry of a full log leaves its window no later than the deadline. */
  predicate DueBy(log: seq<int>, limit: int, window: int, deadline: int) {
    |log| >= limit && |log| > 0 && log[0] + window <= deadline
  }

  /** If the log is full, its oldest entry leaves its window no earlier than the deadline. */
  predicate NotDueBefore(log: seq<int>, limit: int, window: int, deadline: int) {
    |log| >= limit && |log| > 0 ==> deadline <= log[0] + window
  }

  /** What an armed timer waits for: room is missing, and the deadline is when the first full log loses an entry. */
  predicate TimerOk(env: Env, s: State) {
    s.timer.Some? ==>
      && FullLogs(env, s) > 0
      && NotDueBefore(s.burst, env.settings.burstLimit, env.settings.burstWindowMs, s.timer.value)
      && NotDueBefore(s.sustained, env.settings.sustainedLimit, env.settings.sustainedWindowMs, s.timer.value)
      && (DueBy(s.burst, env.settings.burstLimit, env.settings.burstWindowMs, s.timer.value)
          || DueBy(s.sustained, env.settings.sustainedLimit, env.settings.sustainedWindowMs, s.timer.value))
  }

  predicate PositiveLimits(env: Env) {
    env.settings.burstLimit >= 1 && env.settings.sustainedLimit >= 1
  }

  lemma {:induction log} PrunedHead(log: seq<int>, now: int, window: int)
    ensures var l := PruneLog(log, now, window); l != [] ==> now - l[0] < window
  {
  }

  /** When a pick is blocked the timer is armed for the first moment at which a full log loses an entry; if no full log
      has one, because its limit is below 1, for a millisecond later. */
  lemma BlockedUntilExactly(env: Env, s: State)
    requires s.timer.None? && Turn(env, s).Halted? && Turn(env, s).final.timer.Some?
    ensures var now, r, o := env.clock(s.readings), Turn(env, s).final, env.settings;
            var burstDue := |r.burst| >= o.burstLimit && |r.burst| > 0;
            var sustainedDue := |r.sustained| >= o.sustainedLimit && |r.sustained| > 0;
            && (burstDue ==> r.timer.value <= r.burst[0] + o.burstWindowMs)
            && (sustainedDue ==> r.timer.value <= r.sustained[0] + o.sustainedWindowMs)
            && (burstDue || sustainedDue ==>
                  || (burstDue && r.timer.value == r.burst[0] + o.burstWindowMs)
                  || (sustainedDue && r.timer.value == r.sustained[0] + o.sustainedWindowMs))
            && (!burstDue && !sustainedDue ==> r.timer.value == now + 1)
            && r.timer.value > now
  {
    var now, o := env.clock(s.readings), env.settings;
    PrunedHead(s.burst, now, o.burstWindowMs);
    PrunedHead(s.sustained, now, o.sustainedWindowMs);
    hide PruneLog, Pick;
  }

  lemma {:induction false} DispatchTimerOk(env: Env, s: State)
    requires PositiveLimits(env) && TimerOk(env, s)
    ensures TimerOk(env, Dispatch(env, s))
    decreases PendingSlots(s)
  {
    if Turn(env, s).Granted? {
      GrantShrinksPending(env, s);
      DispatchTimerOk(env, Turn(env, s).next);
    } else if s.timer.None? && Turn(env, s).final.timer.Some? {
      BlockedUntilExactly(env, s);
      BlockedIsFull(env, s);
      hide Turn, Chosen;
    }
  }

  lemma BlockedIsFull(env: Env, s: State)
    requires s.timer.None? && Turn(env, s).Halted? && Turn(env, s).final.timer.Some?
    ensures FullLogs(env, Turn(env, s).final) > 0
  {
  }

  lemma {:induction false} RunTimerOk(env: Env, events: seq<Event>, states: seq<State>)
    requires IsRun(env, events, states) && PositiveLimits(env)
    ensures TimerOk(env, states[|events|])
  {
    if events != [] {
      var n := |events| - 1;
      RunPrefix(env, events, states);
      RunTimerOk(env, events[..n], states[..n + 1]);
      assert Enabled(states[n], events[n]) && states[n + 1] == Step(env, states[n], events[n]);
      DispatchTimerOk(env, Prepared(states[n], events[n]));
    }
  }

  /** In every run an armed timer is set for the first moment at which a full log loses an entry: no full log loses one
      sooner, and one does then. */
  lemma ArmedForFirstRoom(env: Env, events: seq<Event>, states: seq<State>, i: nat, t: int)
    requires IsRun(env, events, states) && PositiveLimits(env) && i <= |events| && states[i].timer.Some?
    ensures var s, o := states[i], env.settings;
            t >= s.timer.value
            <==> (|s.burst| >= o.burstLimit && t - s.burst[0] >= o.burstWindowMs)
                 || (|s.sustained| >= o.sustainedLimit && t - s.sustained[0] >= o.sustainedWindowMs)
  {
    InvAt(env, events, states, i);
  }

  /** When a pick is blocked, the armed delay is at least 1 and at most the larger window. */
  lemma BlockedDelay(env: Env, s: State)
    requires Nondecreasing(env.clock) && LogsOk(env, s)
    requires s.timer.None? && Turn(env, s).Halted? && Turn(env, s).final.timer.Some?
    ensures 1 <= Turn(env, s).final.timer.value - env.clock(s.readings)
              <= Max(1, Max(env.settings.burstWindowMs, env.settings.sustainedWindowMs))
  {
    AfterPickLogs(env, s);
    BlockedUntil(env, s);
    DelayBound(env, AfterPick(env, s), env.clock(s.readings));
  }

  lemma BlockedUntil(env: Env, s: State)
    requires s.timer.None? && Turn(env, s).Halted? && Turn(env, s).final.timer.Some?
    ensures Turn(env, s).final.timer.value
            == env.clock(s.readings) + TimerDelay(env, AfterPick(env, s), env.clock(s.readings))
    ensures Watermark(env, AfterPick(env, s)) == env.clock(s.readings)
  {
  }

  lemma DelayBound(env: Env, s: State, now: int)
    requires LogsOk(env, s) && Watermark(env, s) == now
    ensures 1 <= TimerDelay(env, s, now) <= Max(1, Max(env.settings.burstWindowMs, env.settings.sustainedWindowMs))
  {
  }

  /** The timer fires no earlier than it was set for. */
  predicate OnTime(env: Env, s: State) {
    s.timer.Some? && env.clock(s.readings) >= s.timer.value
  }

  lemma PruneFrees(granted: seq<Grant>, log: seq<int>, limit: int, window: int, last: int, now: int, deadline: int)
    requires LogOk(granted, log, limit, window, last)
    ensures Full(PruneLog(log, now, window), limit) <= Full(log, limit)
    ensures limit >= 1 && DueBy(log, limit, window, deadline) && now >= deadline ==>
              Full(PruneLog(log, now, window), limit) == 0
  {
    var d := PruneLogShape(log, now, window);
  }

  /** Every firing on time frees at least one full log. */
  lemma FiringFrees(env: Env, s: State)
    requires Nondecreasing(env.clock) && LogsOk(env, s)
    requires PositiveLimits(env) && TimerOk(env, s) && OnTime(env, s)
    ensures FullLogs(env, AfterPick(env, s.(timer := None))) < FullLogs(env, s)
  {
    var o, now := env.settings, env.clock(s.readings);
    PruneFrees(s.granted, s.burst, o.burstLimit, o.burstWindowMs, Watermark(env, s), now, s.timer.value);
    PruneFrees(s.granted, s.sustained, o.sustainedLimit, o.sustainedWindowMs, Watermark(env, s), now, s.timer.value);
  }

  lemma ArmedIsQuiet(env: Env, s: State, e: Event)
    requires s.timer.Some? && Enabled(s, e) && e != TimerFires
    ensures var s' := Step(env, s, e);
            s'.timer == s.timer && s'.burst == s.burst && s'.sustained == s.sustained
            && s'.granted == s.granted && s'.readings == s.readings
  {
  }

  /** Nothing is granted while the timer is armed. */
  lemma {:induction false} QuietUntilFiring(env: Env, events: seq<Event>, states: seq<State>, i: nat, j: nat)
    requires IsRun(env, events, states) && i <= j <= |events| && states[i].timer.Some?
    requires forall m :: i <= m < j ==> events[m] != TimerFires
    ensures states[j].timer == states[i].timer && states[j].granted == states[i].granted
    ensures states[j].burst == states[i].burst && states[j].sustained == states[i].sustained
    decreases j
  {
    if i < j {
      QuietUntilFiring(env, events, states, i, j - 1);
      ArmedIsQuiet(env, states[j - 1], events[j - 1]);
      assert states[j - 1 + 1] == Step(env, states[j - 1], events[j - 1]);
    }
  }

  /** A firing on time grants, finds no tenant, or re-arms the timer with fewer full logs. */
  lemma FiringOutcome(env: Env, s: State)
    requires Nondecreasing(env.clock) && LogsOk(env, s)
    requires PositiveLimits(env) && TimerOk(env, s) && OnTime(env, s)
    ensures var fired := s.(timer := None);
            var s' := Dispatch(env, fired);
            || s.granted < s'.granted
            || Chosen(env, fired).None?
            || (s'.timer.Some? && s'.granted == s.granted && 0 < FullLogs(env, s') < FullLogs(env, s))
  {
    var fired := s.(timer := None);
    FiringFrees(env, s);
    match Turn(env, fired)
    case Granted(_) => DispatchGrants(env, fired);
    case Halted(_) =>
  }

  lemma FiringInRun(env: Env, events: seq<Event>, states: seq<State>, i: nat)
    requires Nondecreasing(env.clock) && PositiveLimits(env) && IsRun(env, events, states)
    requires i < |events| && events[i] == TimerFires && OnTime(env, states[i])
    ensures |states| == |events| + 1
    ensures var s, s' := states[i], states[i + 1];
            || s.granted < s'.granted
            || Chosen(env, s.(timer := None)).None?
            || (s'.timer.Some? && s'.granted == s.granted && 0 < FullLogs(env, s') < FullLogs(env, s))
  {
    InvAt(env, events, states, i);
    FiringOutcome(env, states[i]);
    FiringStep(env, events, states, i);
    hide Dispatch, Chosen, LogsOk, TimerOk, OnTime;
  }

  /** Timer progress. Of two successive firings, both on time, one grants a request unless
      it finds no tenant to serve: with one log full the first finds room, with both full
      the second does. */
  lemma TimerProgress(env: Env, events: seq<Event>, states: seq<State>, i: nat, j: nat)
    requires Nondecreasing(env.clock) && PositiveLimits(env) && IsRun(env, events, states)
    requires i < j < |events| && events[i] == events[j] == TimerFires
    requires forall m :: i < m < j ==> events[m] != TimerFires
    requires OnTime(env, states[i]) && OnTime(env, states[j])
    ensures states[i].granted < states[i + 1].granted
            || states[j].granted < states[j + 1].granted
            || Chosen(env, states[i].(timer := None)).None?
            || Chosen(env, states[j].(timer := None)).None?
    ensures FullLogs(env, states[i]) == 1 ==>
              states[i].granted < states[i + 1].granted || Chosen(env, states[i].(timer := None)).None?
  {
    hide Chosen, OnTime, IsRun, PositiveLimits, Nondecreasing;
    FiringInRun(env, events, states, i);
    FiringInRun(env, events, states, j);
    if states[i + 1].timer.Some? && FullLogs(env, states[i + 1]) == 1 {
      QuietUntilFiring(env, events, states, i + 1, j);
      assert FullLogs(env, states[j]) == 1;
    }
  }

  lemma FiringStep(env: Env, events: seq<Event>, states: seq<State>, i: nat)
    requires IsRun(env, events, states) && i < |events| && events[i] == TimerFires
    ensures states[i + 1] == Dispatch(env, states[i].(timer := None))
  {
  }

  lemma {:induction false} DispatchExtends(env: Env, s: State)
    ensures s.granted <= Dispatch(env, s).granted
    decreases PendingSlots(s)
  {
    if Turn(env, s).Granted? {
      GrantShrinksPending(env, s);
      DispatchExtends(env, Turn(env, s).next);
    }
  }

  lemma DispatchGrants(env: Env, s: State)
    requires Turn(env, s).Granted?
    ensures s.granted < Dispatch(env, s).granted
  {
    DispatchExtends(env, Turn(env, s).next);
  }

  // ---------------------------------------------------------------- fairness

  /** The states in which the activations of one dispatch cascade start. */
  function Cascade(env: Env, s: State): (cs: seq<State>)
    ensures cs != [] && cs[0] == s
    decreases PendingSlots(s)
  {
    match Turn(env, s)
    case Halted(_) => [s]
    case Granted(next) => GrantShrinksPending(env, s); [s] + Cascade(env, next)
  }

  /** Whom each of them but the last serves. */
  function Served(env: Env, s: State): (ts: seq<Tenant>)
    ensures |ts| + 1 == |Cascade(env, s)|
    decreases PendingSlots(s)
  {
    match Turn(env, s)
    case Halted(_) => []
    case Granted(next) => GrantShrinksPending(env, s); [Chosen(env, s).value] + Served(env, next)
  }

  lemma TurnGrants(env: Env, s: State)
    requires Turn(env, s).Granted?
    ensures Chosen(env, s).Some?
    ensures var after := Turn(env, s).next.granted;
            after != [] && after[..|after| - 1] == s.granted && after[|after| - 1].tenant == Chosen(env, s).value
  {
    ChosenHasRequest(env, s);
  }

  lemma HaltGrantsNothing(env: Env, s: State)
    requires Turn(env, s).Halted?
    ensures Turn(env, s).final.granted == s.granted
  {
  }

  /** `r` is `before` with one grant to each of `ts` appended. */
  ghost predicate Appends(before: seq<Grant>, r: seq<Grant>, ts: seq<Tenant>) {
    && |r| == |before| + |ts|
    && before <= r
    && forall i :: 0 <= i < |ts| ==> r[|before| + i].tenant == ts[i]
  }

  lemma AppendsMore(before: seq<Grant>, mid: seq<Grant>, r: seq<Grant>, ts: seq<Tenant>)
    requires mid != [] && mid[..|mid| - 1] == before && Appends(mid, r, ts)
    ensures Appends(before, r, [mid[|mid| - 1].tenant] + ts)
  {
    var all := [mid[|mid| - 1].tenant] + ts;
    assert r[|before|] == mid[|before|];
    forall i | 0 <= i < |all|
      ensures r[|before| + i].tenant == all[i]
    {
      assert i > 0 ==> r[|mid| + (i - 1)].tenant == ts[i - 1] == all[i];
    }
  }

  /** These are the grants `dispatch` makes. */
  lemma {:induction false} ServedAreGrants(env: Env, s: State)
    ensures Appends(s.granted, Dispatch(env, s).granted, Served(env, s))
    decreases PendingSlots(s)
  {
    hide Chosen, AfterPick, Appends;
    match Turn(env, s)
    case Halted(_) =>
      HaltGrantsNothing(env, s);
      AppendsNothing(s.granted);
    case Granted(next) =>
      TurnGrants(env, s);
      GrantShrinksPending(env, s);
      ServedAreGrants(env, next);
      AppendsMore(s.granted, next.granted, Dispatch(env, next).granted, Served(env, next));
  }

  lemma AppendsNothing(before: seq<Grant>)
    ensures Appends(before, before, [])
  {
  }

  /** What one grant to order[e - 1] does to the rotation: that entry is the first eligible
      one, those behind it move up, and those up to it that still had requests go to the end. */
  ghost predicate RotatesAt(env: Env, s: State, order': seq<Tenant>, e: nat) {
    && 0 < e <= |s.order|
    && order' == s.order[e..] + Kept(s, s.order[..e])
    && Eligible(env, s, s.order[e - 1])
    && NoneEligible(env, s, s.order[..e - 1])
    && NoDuplicates(s.order)
  }

  ghost predicate Rotates(env: Env, s: State, t: Tenant, s': State) {
    && (exists e :: RotatesAt(env, s, s'.order, e) && s.order[e - 1] == t)
    && (forall u :: Eligible(env, s', u) ==> Eligible(env, s, u))
    && OrderOk(s')
  }

  lemma TurnRotates(env: Env, s: State)
    requires OrderOk(s) && Turn(env, s).Granted?
    ensures Chosen(env, s).Some? && Rotates(env, s, Chosen(env, s).value, Turn(env, s).next)
  {
    var e := AfterPickScan(env, s);
    TurnOrder(env, s);
    TurnKeepsScan(env, s);
    assert RotatesAt(env, s, Turn(env, s).next.order, e);
  }

  ghost predicate RotatesAll(env: Env, cs: seq<State>, ts: seq<Tenant>) {
    && |cs| == |ts| + 1
    && forall i :: 0 <= i < |ts| ==> Rotates(env, cs[i], ts[i], cs[i + 1])
  }

  lemma {:induction false} CascadeRotates(env: Env, s: State)
    requires OrderOk(s)
    ensures RotatesAll(env, Cascade(env, s), Served(env, s))
    decreases PendingSlots(s)
  {
    match Turn(env, s)
    case Halted(_) =>
    case Granted(next) =>
      GrantShrinksPending(env, s);
      TurnRotates(env, s);
      TurnOrder(env, s);
      CascadeRotates(env, next);
      PrependRotation(env, s, Chosen(env, s).value, Cascade(env, next), Served(env, next));
  }

  lemma PrependRotation(env: Env, s: State, t: Tenant, cs: seq<State>, ts: seq<Tenant>)
    requires RotatesAll(env, cs, ts) && Rotates(env, s, t, cs[0])
    ensures RotatesAll(env, [s] + cs, [t] + ts)
  {
  }

  /** Within a cascade queues only shrink and counters only grow. */
  lemma {:induction false} EligibleBefore(env: Env, cs: seq<State>, ts: seq<Tenant>, i: nat, j: nat, t: Tenant)
    requires RotatesAll(env, cs, ts) && i <= j < |cs| && Eligible(env, cs[j], t)
    ensures Eligible(env, cs[i], t)
    decreases j
  {
    hide RotatesAt, OrderOk;
    if i < j {
      assert Rotates(env, cs[j - 1], ts[j - 1], cs[j - 1 + 1]);
      EligibleBefore(env, cs, ts, i, j - 1, t);
    }
  }

  ghost predicate Ahead(order: seq<Tenant>, x: Tenant, y: Tenant) {
    exists i, j :: 0 <= i < j < |order| && order[i] == x && order[j] == y
  }

  /** Entries behind the first e move up together. */
  lemma StaysAheadIn(order: seq<Tenant>, kept: seq<Tenant>, e: nat, i: nat, j: nat)
    requires e <= i < j < |order|
    ensures Ahead(order[e..] + kept, order[i], order[j])
  {
    var order' := order[e..] + kept;
    assert order'[i - e] == order[i] && order'[j - e] == order[j];
  }

  /** An entry that moves to the end is behind those that moved up. */
  lemma GoesBehind(order: seq<Tenant>, kept: seq<Tenant>, e: nat, j: nat)
    requires e <= j < |order| && kept != []
    ensures Ahead(order[e..] + kept, order[j], kept[|kept| - 1])
  {
    var order' := order[e..] + kept;
    assert order'[j - e] == order[j] && order'[|order'| - 1] == kept[|kept| - 1];
  }

  /** The tenants x, eligible, and y watch order[e - 1] being served, x being ahead of y: it is
      not y; if it is x, x goes behind y, otherwise x stays ahead. */
  lemma AheadStep(env: Env, s: State, order': seq<Tenant>, e: nat, x: Tenant, y: Tenant)
    requires RotatesAt(env, s, order', e) && Eligible(env, s, x) && Ahead(s.order, x, y)
    ensures s.order[e - 1] != y
    ensures if s.order[e - 1] == x then Ahead(order', y, x) else Ahead(order', x, y)
  {
    hide NoneEligible, Eligible, NoDuplicates;
    var i, j := AheadAt(s.order, x, y);
    hide Ahead;
    NotBefore(env, s, s.order, e - 1, i);
    OnePlace(s.order, e - 1, i);
    OnePlace(s.order, e - 1, j);
    var kept := Kept(s, s.order[..e]);
    if i == e - 1 {
      EligibleWaits(env, s, s.order[e - 1]);
      KeptEndsWith(s, s.order[..e]);
      GoesBehind(s.order, kept, e, j);
    } else {
      StaysAheadIn(s.order, kept, e, i, j);
    }
  }

  lemma EligibleWaits(env: Env, s: State, t: Tenant)
    requires Eligible(env, s, t)
    ensures !Stale(s, t)
  {
  }

  lemma AheadAt(order: seq<Tenant>, x: Tenant, y: Tenant) returns (i: nat, j: nat)
    requires Ahead(order, x, y)
    ensures i < j < |order| && order[i] == x && order[j] == y
  {
    i, j :| 0 <= i < j < |order| && order[i] == x && order[j] == y;
  }

  lemma OnePlace(order: seq<Tenant>, i: nat, j: nat)
    requires NoDuplicates(order) && i < |order| && j < |order|
    ensures order[i] == order[j] ==> i == j
  {
  }

  lemma KeptEndsWith(s: State, xs: seq<Tenant>)
    requires xs != [] && !Stale(s, xs[|xs| - 1])
    ensures Kept(s, xs) != [] && Kept(s, xs)[|Kept(s, xs)| - 1] == xs[|xs| - 1]
  {
  }

  lemma RotatesAhead(env: Env, s: State, t: Tenant, s': State, x: Tenant, y: Tenant)
    requires Rotates(env, s, t, s') && Eligible(env, s, x) && Ahead(s.order, x, y)
    ensures t != y
    ensures if t == x then Ahead(s'.order, y, x) else Ahead(s'.order, x, y)
  {
    var e :| RotatesAt(env, s, s'.order, e) && s.order[e - 1] == t;
    AheadStep(env, s, s'.order, e, x, y);
  }

  /** As long as x is not served, y behind it is not served either. */
  lemma {:induction false} StaysAhead(env: Env, cs: seq<State>, ts: seq<Tenant>, lo: nat, hi: nat, x: Tenant, y: Tenant)
    requires RotatesAll(env, cs, ts) && lo <= hi < |cs|
    requires Eligible(env, cs[hi], x) && Ahead(cs[lo].order, x, y)
    requires forall m :: lo <= m < hi ==> ts[m] != x
    ensures Ahead(cs[hi].order, x, y)
    ensures forall m :: lo <= m < hi ==> ts[m] != y
    decreases hi
  {
    if lo < hi {
      var h := hi - 1;
      EligibleBefore(env, cs, ts, h, hi, x);
      StaysAhead(env, cs, ts, lo, h, x, y);
      NextAhead(env, cs, ts, h, x, y);
    }
  }

  lemma NextAhead(env: Env, cs: seq<State>, ts: seq<Tenant>, i: nat, x: Tenant, y: Tenant)
    requires RotatesAll(env, cs, ts) && i < |ts| && Eligible(env, cs[i], x) && Ahead(cs[i].order, x, y)
    ensures ts[i] != y
    ensures if ts[i] == x then Ahead(cs[i + 1].order, y, x) else Ahead(cs[i + 1].order, x, y)
  {
    RotatesAhead(env, cs[i], ts[i], cs[i + 1], x, y);
  }

  /** A tenant that was just served stands behind every other tenant with requests. */
  lemma GoesLast(env: Env, s: State, order': seq<Tenant>, e: nat, b: Tenant)
    requires RotatesAt(env, s, order', e) && b in order' && b != s.order[e - 1]
    ensures Ahead(order', b, s.order[e - 1])
  {
    KeptEndsWith(s, s.order[..e]);
    var i :| 0 <= i < |order'| && order'[i] == b;
    assert order'[|order'| - 1] == s.order[e - 1];
  }

  lemma ServedGoesLast(env: Env, cs: seq<State>, ts: seq<Tenant>, i: nat, q: nat, b: Tenant)
    requires RotatesAll(env, cs, ts) && i < q < |cs| && ts[i] != b && Eligible(env, cs[q], b)
    ensures Ahead(cs[i + 1].order, b, ts[i])
  {
    EligibleBefore(env, cs, ts, i + 1, q, b);
    assert Rotates(env, cs[i], ts[i], cs[i + 1]);
    var e :| RotatesAt(env, cs[i], cs[i + 1].order, e) && cs[i].order[e - 1] == ts[i];
    GoesLast(env, cs[i], cs[i + 1].order, e, b);
  }

  lemma {:induction false} FirstServed(ts: seq<Tenant>, lo: nat, hi: nat, t: Tenant) returns (m: nat)
    requires lo <= hi <= |ts|
    ensures lo <= m <= hi && (m < hi ==> ts[m] == t)
    ensures forall i :: lo <= i < m ==> ts[i] != t
    decreases hi - lo
  {
    if lo == hi || ts[lo] == t {
      m := lo;
    } else {
      m := FirstServed(ts, lo + 1, hi, t);
    }
  }

  /** Round robin inside a cascade: between two successive grants to `a` every other tenant that
      is still waiting and under its cap is granted exactly once. */
  lemma RoundRobin(env: Env, s: State, p: nat, q: nat, a: Tenant, b: Tenant) returns (turn: nat)
    requires OrderOk(s) && p < q < |Served(env, s)| && a != b
    requires Served(env, s)[p] == Served(env, s)[q] == a
    requires forall m :: p < m < q ==> Served(env, s)[m] != a
    requires Eligible(env, Cascade(env, s)[q], b)
    ensures p < turn < q && Served(env, s)[turn] == b
    ensures forall m :: p < m < q && m != turn ==> Served(env, s)[m] != b
  {
    CascadeRotates(env, s);
    turn := RoundRobinIn(env, Cascade(env, s), Served(env, s), p, q, a, b);
  }

  lemma RoundRobinIn(env: Env, cs: seq<State>, ts: seq<Tenant>, p: nat, q: nat, a: Tenant, b: Tenant)
    returns (turn: nat)
    requires RotatesAll(env, cs, ts) && p < q < |ts| && a != b
    requires ts[p] == ts[q] == a && forall m :: p < m < q ==> ts[m] != a
    requires Eligible(env, cs[q], b)
    ensures p < turn < q && ts[turn] == b
    ensures forall m :: p < m < q && m != turn ==> ts[m] != b
  {
    ServedGoesLast(env, cs, ts, p, q, b);
    turn := FirstServed(ts, p + 1, q, b);
    ServedInBetween(env, cs, ts, p + 1, turn, q, a, b);
  }

  lemma ServedIsEligible(env: Env, cs: seq<State>, ts: seq<Tenant>, i: nat)
    requires RotatesAll(env, cs, ts) && i < |ts|
    ensures Eligible(env, cs[i], ts[i])
  {
    assert Rotates(env, cs[i], ts[i], cs[i + 1]);
  }

  lemma ServedInBetween(env: Env, cs: seq<State>, ts: seq<Tenant>, lo: nat, turn: nat, q: nat, a: Tenant, b: Tenant)
    requires RotatesAll(env, cs, ts) && lo <= turn <= q < |ts| && ts[q] == a && a != b
    requires Ahead(cs[lo].order, b, a)
    requires forall m :: lo <= m < turn ==> ts[m] != b
    requires forall m :: lo <= m < q ==> ts[m] != a
    requires turn < q ==> ts[turn] == b
    requires Eligible(env, cs[q], b)
    ensures turn < q && forall m :: turn < m < q ==> ts[m] != b
  {
    ServedIsEligible(env, cs, ts, q);
    EligibleBefore(env, cs, ts, turn, q, b);
    StaysAhead(env, cs, ts, lo, turn, b, a);
    NextAhead(env, cs, ts, turn, b, a);
    StaysAhead(env, cs, ts, turn + 1, q, a, b);
  }
}
