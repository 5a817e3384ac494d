/**
 * The CLOB rate limiter (src/clobRateLimiter.ts) as a state machine.
 *
 * `State` holds the private fields of the source class, followed by a trace:
 * how often the clock was read, who called `acquire`, which requests were
 * granted and which grants are still to be released. Nothing in the scheduler
 * reads the trace; the theorems are about it.
 */
module RateLimiter {
  import opened Options

  type Tenant = string

  /** A request is named by its position in the history of `acquire` calls. */
  type Request = nat

  datatype Settings = Settings(
    burstLimit: int,
    burstWindowMs: int,
    sustainedLimit: int,
    sustainedWindowMs: int,
    maxConcurrentPerTenant: int
  )

  /** Where the rotation scan takes its loop bound from: the code re-reads the
      length of the list it is shrinking; the intended bound is the length on entry. */
  datatype ScanBound = LiveLength | EntryLength

  /** `clock(i)` is what the i-th call of `Date.now()` returns. */
  datatype Env = Env(settings: Settings, clock: nat -> int, bound: ScanBound)

  ghost predicate Nondecreasing(clock: nat -> int) {
    forall i: nat, j: nat :: i <= j ==> clock(i) <= clock(j)
  }

  datatype Grant = Grant(time: int, tenant: Tenant, request: Request)

  datatype State = State(
    burst: seq<int>,
    sustained: seq<int>,
    pending: map<Tenant, seq<Request>>,
    order: seq<Tenant>,
    inFlight: map<Tenant, nat>,
    timer: Option<int>,         // the time before which the armed timer does not fire
    readings: nat,
    acquired: seq<Tenant>,
    granted: seq<Grant>,
    outstanding: set<nat>       // positions in `granted` not released yet
  )

  const INITIAL := State([], [], map[], [], map[], None, 0, [], [], {})

  function Queue(s: State, t: Tenant): seq<Request> {
    if t in s.pending then s.pending[t] else []
  }

  function InFlight(s: State, t: Tenant): nat {
    if t in s.inFlight then s.inFlight[t] else 0
  }

  predicate Stale(s: State, t: Tenant) {
    Queue(s, t) == []
  }

  predicate Eligible(env: Env, s: State, t: Tenant) {
    !Stale(s, t) && InFlight(s, t) < env.settings.maxConcurrentPerTenant
  }

  // ---------------------------------------------------------------- logs

  function PruneLog(log: seq<int>, now: int, window: int): seq<int> {
    if |log| > 0 && now - log[0] >= window then PruneLog(log[1..], now, window) else log
  }

  function Prune(env: Env, s: State, now: int): State {
    s.(burst := PruneLog(s.burst, now, env.settings.burstWindowMs),
       sustained := PruneLog(s.sustained, now, env.settings.sustainedWindowMs))
  }

  predicate HasRoom(env: Env, s: State) {
    |s.burst| < env.settings.burstLimit && |s.sustained| < env.settings.sustainedLimit
  }

  function Max(a: int, b: int): int { if a < b then b else a }

  /** How long one full log makes the scheduler wait. A log that is not full does not
      count, nor does a full log with no entry (a limit below 1), whose first
      timestamp is undefined. */
  function LogWait(log: seq<int>, limit: int, window: int, now: int): Option<int> {
    if |log| >= limit && |log| > 0 then Some(Max(1, window - (now - log[0]))) else None
  }

  function TimerDelay(env: Env, s: State, now: int): int {
    var b := LogWait(s.burst, env.settings.burstLimit, env.settings.burstWindowMs, now);
    var u := LogWait(s.sustained, env.settings.sustainedLimit, env.settings.sustainedWindowMs, now);
    match (b, u)
    case (None, None) => 1
    case (Some(x), None) => Max(1, x)
    case (None, Some(y)) => Max(1, y)
    case (Some(x), Some(y)) => Max(1, if x < y then x else y)
  }

  // ---------------------------------------------------------------- rotation

  /** The scan of `pickNextTenant` from its i-th iteration on. */
  function ScanLive(env: Env, s: State, order: seq<Tenant>, i: nat): (seq<Tenant>, Option<Tenant>)
    decreases |order| - i
  {
    if i >= |order| then (order, None)
    else if Stale(s, order[0]) then ScanLive(env, s, order[1..], i + 1)
    else if Eligible(env, s, order[0]) then (order[1..] + [order[0]], Some(order[0]))
    else ScanLive(env, s, order[1..] + [order[0]], i + 1)
  }

  /** The same scan with its bound taken on entry: `todo` entries are left to examine. */
  function ScanEntry(env: Env, s: State, order: seq<Tenant>, todo: nat): (seq<Tenant>, Option<Tenant>)
    requires todo <= |order|
    decreases todo
  {
    if todo == 0 then (order, None)
    else if Stale(s, order[0]) then ScanEntry(env, s, order[1..], todo - 1)
    else if Eligible(env, s, order[0]) then (order[1..] + [order[0]], Some(order[0]))
    else ScanEntry(env, s, order[1..] + [order[0]], todo - 1)
  }

  function Pick(env: Env, s: State): (seq<Tenant>, Option<Tenant>) {
    match env.bound
    case LiveLength => ScanLive(env, s, s.order, 0)
    case EntryLength => ScanEntry(env, s, s.order, |s.order|)
  }

  /** A picked tenant has a request, so the `!request` branch of `dispatch` is dead. */
  lemma PickedHasRequest(env: Env, s: State)
    ensures Pick(env, s).1.Some? ==> Eligible(env, s, Pick(env, s).1.value)
  {
    match env.bound
    case LiveLength => ScanLiveEligible(env, s, s.order, 0);
    case EntryLength => ScanEntryEligible(env, s, s.order, |s.order|);
  }

  lemma {:induction false} ScanLiveEligible(env: Env, s: State, order: seq<Tenant>, i: nat)
    ensures var r := ScanLive(env, s, order, i).1; r.Some? ==> Eligible(env, s, r.value)
    decreases |order| - i
  {
    if i < |order| && !Eligible(env, s, order[0]) {
      ScanLiveEligible(env, s, if Stale(s, order[0]) then order[1..] else order[1..] + [order[0]], i + 1);
    }
  }

  lemma {:induction false} ScanEntryEligible(env: Env, s: State, order: seq<Tenant>, todo: nat)
    requires todo <= |order|
    ensures var r := ScanEntry(env, s, order, todo).1; r.Some? ==> Eligible(env, s, r.value)
    decreases todo
  {
    if todo > 0 && !Eligible(env, s, order[0]) {
      ScanEntryEligible(env, s, if Stale(s, order[0]) then order[1..] else order[1..] + [order[0]], todo - 1);
    }
  }

  // ---------------------------------------------------------------- dispatch

  /** One activation of `dispatch`: it grants and calls itself again, or it ends the cascade. */
  datatype Outcome = Granted(next: State) | Halted(final: State)

  /** `shift` on the queue of t, dropping the queue when it becomes empty. */
  function PopRequest(pending: map<Tenant, seq<Request>>, t: Tenant): map<Tenant, seq<Request>>
    requires t in pending && pending[t] != []
  {
    if |pending[t]| == 1 then pending - {t} else pending[t := pending[t][1..]]
  }

  function GrantTo(s: State, t: Tenant, now: int): State
    requires !Stale(s, t)
  {
    s.(pending := PopRequest(s.pending, t),
       burst := s.burst + [now],
       sustained := s.sustained + [now],
       inFlight := s.inFlight[t := InFlight(s, t) + 1],
       granted := s.granted + [Grant(now, t, Queue(s, t)[0])],
       outstanding := s.outstanding + {|s.granted|})
  }

  /** The state right after `pruneTimestamps` and `pickNextTenant`. */
  function AfterPick(env: Env, s: State): State {
    var s1 := Prune(env, s, env.clock(s.readings)).(readings := s.readings + 1);
    s1.(order := Pick(env, s1).0)
  }

  /** Whom that pick chose. An empty name is falsy, so `dispatch` treats it as no pick. */
  function Chosen(env: Env, s: State): Option<Tenant> {
    var s1 := Prune(env, s, env.clock(s.readings)).(readings := s.readings + 1);
    var p := Pick(env, s1).1;
    if p == Some("") then None else p
  }

  lemma ChosenHasRequest(env: Env, s: State)
    ensures Chosen(env, s).Some? ==> Eligible(env, AfterPick(env, s), Chosen(env, s).value)
  {
    PickedHasRequest(env, Prune(env, s, env.clock(s.readings)).(readings := s.readings + 1));
  }

  function Turn(env: Env, s: State): Outcome {
    if s.timer.Some? then Halted(s)
    else
      var now := env.clock(s.readings);
      var s1 := AfterPick(env, s);
      var t := Chosen(env, s);
      if t.None? then Halted(s1)
      else if !HasRoom(env, s1) then Halted(s1.(timer := Some(now + TimerDelay(env, s1, now))))
      else
        ChosenHasRequest(env, s);
        Granted(GrantTo(s1, t.value, now))
  }

  /** Every waiting request as (tenant, place in its queue); each grant removes one. */
  function PendingSlots(s: State): set<(Tenant, nat)> {
    set t, i: nat | t in s.pending && i < |s.pending[t]| :: (t, i)
  }

  lemma GrantShrinksPending(env: Env, s: State)
    requires Turn(env, s).Granted?
    ensures PendingSlots(Turn(env, s).next) < PendingSlots(s)
  {
    ChosenHasRequest(env, s);
    var t := Chosen(env, s).value;
    var gone := (t, |s.pending[t]| - 1);
    assert gone in PendingSlots(s) && gone !in PendingSlots(Turn(env, s).next);
  }

  /** `dispatch`: activations until one halts. */
  function Dispatch(env: Env, s: State): State
    decreases PendingSlots(s)
  {
    match Turn(env, s)
    case Halted(final) => final
    case Granted(next) => GrantShrinksPending(env, s); Dispatch(env, next)
  }

  // ---------------------------------------------------------------- runs

  datatype Event = Acquire(tenant: Tenant) | Release(grant: nat) | TimerFires

  function Enqueue(s: State, t: Tenant): State {
    s.(pending := s.pending[t := Queue(s, t) + [|s.acquired|]],
       order := if t in s.order then s.order else s.order + [t],
       acquired := s.acquired + [t])
  }

  /** The callback handed out with grant k. Nothing stops a caller from calling it twice. */
  function GiveBack(s: State, k: nat): State
    requires k < |s.granted|
  {
    var t := s.granted[k].tenant;
    var held: int := if t in s.inFlight then s.inFlight[t] else 1;
    var left := Max(0, held - 1);
    s.(inFlight := if left == 0 then s.inFlight - {t} else s.inFlight[t := left],
       outstanding := s.outstanding - {k})
  }

  /** Whether e can happen in s: a callback exists once its grant does, a timer fires when armed. */
  predicate Enabled(s: State, e: Event) {
    match e
    case Acquire(_) => true
    case Release(k) => k < |s.granted|
    case TimerFires => s.timer.Some?
  }

  function Step(env: Env, s: State, e: Event): State
    requires Enabled(s, e)
  {
    match e
    case Acquire(t) => Dispatch(env, Enqueue(s, t))
    case Release(k) => Dispatch(env, GiveBack(s, k))
    case TimerFires => Dispatch(env, s.(timer := None))
  }

  /** `run` is a possible history: states[0] is the initial state and every event was enabled. */
  ghost predicate IsRun(env: Env, events: seq<Event>, states: seq<State>) {
    && |states| == |events| + 1
    && states[0] == INITIAL
    && forall i {:trigger events[i]} :: 0 <= i < |events| ==>
         Enabled(states[i], events[i]) && states[i + 1] == Step(env, states[i], events[i])
  }
}
