/** Concrete runs of the limiter that show what it does not promise. */
module RateLimiterExamples {
  import opened Options
  import opened RateLimiter
  import opened RateLimiterInvariants
  import opened RateLimiterProgress

  const X: Tenant := "x"
  const A: Tenant := "a"
  const B: Tenant := "b"
  const C: Tenant := "c"

  // ---------------------------------------------------------------- simple activations

  /** An activation whose first rotation entry is eligible. */
  lemma FrontTurn(env: Env, s: State)
    requires env.bound == LiveLength && s.timer.None? && s.order != [] && s.order[0] != ""
    requires Eligible(env, s, s.order[0])
    ensures var now, t := env.clock(s.readings), s.order[0];
            var s1 := Prune(env, s, now).(readings := s.readings + 1, order := s.order[1..] + [t]);
            Turn(env, s) == if HasRoom(env, s1) then Granted(GrantTo(s1, t, now))
                            else Halted(s1.(timer := Some(now + TimerDelay(env, s1, now))))
  {
  }

  /** An activation that finds a single stale entry. */
  lemma LoneStaleTurn(env: Env, s: State)
    requires env.bound == LiveLength && s.timer.None? && |s.order| == 1 && Stale(s, s.order[0])
    ensures Turn(env, s) == Halted(Prune(env, s, env.clock(s.readings)).(readings := s.readings + 1, order := []))
  {
    var s1 := Prune(env, s, env.clock(s.readings)).(readings := s.readings + 1);
    assert ScanLive(env, s1, s.order[1..], 1) == (s.order[1..], None);
  }

  /** An activation that finds two stale entries before an eligible one: it drops them and stops. */
  lemma TwoStaleTurn(env: Env, s: State)
    requires env.bound == LiveLength && s.timer.None? && |s.order| == 3
    requires Stale(s, s.order[0]) && Stale(s, s.order[1])
    ensures Turn(env, s)
            == Halted(Prune(env, s, env.clock(s.readings)).(readings := s.readings + 1, order := s.order[2..]))
  {
    var s1 := Prune(env, s, env.clock(s.readings)).(readings := s.readings + 1);
    assert s.order[1..][1..] == s.order[2..];
    assert ScanLive(env, s1, s.order[2..], 2) == (s.order[2..], None);
    assert ScanLive(env, s1, s.order[1..], 1) == (s.order[2..], None);
  }

  lemma DispatchEnds(env: Env, s: State, r: State)
    requires Turn(env, s) == Halted(r)
    ensures Dispatch(env, s) == r
  {
  }

  lemma DispatchGoesOn(env: Env, s: State, next: State)
    requires Turn(env, s) == Granted(next)
    ensures Dispatch(env, s) == Dispatch(env, next)
  {
  }

  /** `Enqueue`, field by field. */
  lemma EnqueueIs(s: State, t: Tenant, q: seq<Request>, s': State)
    requires Queue(s, t) + [|s.acquired|] == q && s'.pending == s.pending[t := q]
    requires s'.order == if t in s.order then s.order else s.order + [t]
    requires s'.acquired == s.acquired + [t]
    requires s' == s.(pending := s'.pending, order := s'.order, acquired := s'.acquired)
    ensures Enqueue(s, t) == s'
  {
  }

  lemma Names()
    ensures A != B && A != C && B != C && X != A && X != B && X != C
  {
    assert A[0] != B[0] && A[0] != C[0] && B[0] != C[0] && X[0] != A[0] && X[0] != B[0] && X[0] != C[0];
  }

  /** Appends one event to a run in which callbacks were called once so far. */
  lemma Extend(env: Env, events: seq<Event>, states: seq<State>, e: Event, s': State)
    requires IsRun(env, events, states) && Enabled(states[|events|], e) && Step(env, states[|events|], e) == s'
    ensures IsRun(env, events + [e], states + [s'])
    ensures ReleasedOnce(events, states) && (e.Release? ==> e.grant in states[|events|].outstanding) ==>
              ReleasedOnce(events + [e], states + [s'])
  {
    var es, ss := events + [e], states + [s'];
    forall i {:trigger es[i]} | 0 <= i < |es|
      ensures Enabled(ss[i], es[i]) && ss[i + 1] == Step(env, ss[i], es[i])
    {
      if i < |events| {
        assert Enabled(states[i], events[i]) && states[i + 1] == Step(env, states[i], events[i]);
      }
    }
  }

  // ---------------------------------------------------------------- a lost wake-up

  /** Readings 0-4 happen at 0 ms, 5-7 at 10 ms, later ones at 20 ms. */
  function StuckClock(i: nat): int {
    if i < 5 then 0 else if i < 8 then 10 else 20
  }

  /** Two grants per 10 ms. */
  const STUCK_ENV := Env(Settings(2, 10, 1000, 1000, 5), StuckClock, LiveLength)

  const GX0 := Grant(0, X, 0)
  const GX1 := Grant(0, X, 1)
  const GA := Grant(10, A, 2)
  const GB := Grant(10, B, 3)

  const WAITING: map<Tenant, seq<Request>> := map[A := [2], B := [3], C := [4]]
  const ASKED := [X, X, A, B, C]

  const S1 := State([0], [0], map[], [], map[X := 1], None, 2, [X], [GX0], {0})
  const S2 := State([0, 0], [0, 0], map[], [], map[X := 2], None, 4, [X, X], [GX0, GX1], {0, 1})
  const S3 := State([0, 0], [0, 0], map[A := [2]], [A], map[X := 2], Some(10), 5, [X, X, A], [GX0, GX1], {0, 1})
  const S4 := State([0, 0], [0, 0], map[A := [2], B := [3]], [A, B], map[X := 2], Some(10), 5,
                    [X, X, A, B], [GX0, GX1], {0, 1})
  const S5 := State([0, 0], [0, 0], WAITING, [A, B, C], map[X := 2], Some(10), 5, ASKED, [GX0, GX1], {0, 1})
  const S6 := State([0, 0], [0, 0], WAITING, [A, B, C], map[X := 1], Some(10), 5, ASKED, [GX0, GX1], {1})
  const S7 := State([0, 0], [0, 0], WAITING, [A, B, C], map[], Some(10), 5, ASKED, [GX0, GX1], {})
  const S8 := State([10, 10], [0, 0, 10, 10], map[C := [4]], [A, B, C], map[A := 1, B := 1], Some(20), 8, ASKED,
                    [GX0, GX1, GA, GB], {2, 3})
  const S9 := State([10, 10], [0, 0, 10, 10], map[C := [4]], [A, B, C], map[B := 1], Some(20), 8, ASKED,
                    [GX0, GX1, GA, GB], {3})
  const S10 := State([10, 10], [0, 0, 10, 10], map[C := [4]], [A, B, C], map[], Some(20), 8, ASKED,
                     [GX0, GX1, GA, GB], {})
  const S11 := State([], [0, 0, 10, 10], map[C := [4]], [C], map[], None, 9, ASKED, [GX0, GX1, GA, GB], {})

  lemma FirstGrant()
    ensures Step(STUCK_ENV, INITIAL, Acquire(X)) == S1
  {
    var s, s' := Enqueue(INITIAL, X), S1.(readings := 1, order := [X]);
    FrontTurn(STUCK_ENV, s);
    DispatchGoesOn(STUCK_ENV, s, s');
    LoneStaleTurn(STUCK_ENV, s');
    DispatchEnds(STUCK_ENV, s', S1);
  }

  lemma SecondGrant()
    ensures Step(STUCK_ENV, S1, Acquire(X)) == S2
  {
    var s, s' := Enqueue(S1, X), S2.(readings := 3, order := [X]);
    FrontTurn(STUCK_ENV, s);
    DispatchGoesOn(STUCK_ENV, s, s');
    LoneStaleTurn(STUCK_ENV, s');
    DispatchEnds(STUCK_ENV, s', S2);
  }

  lemma FirstBlocked()
    ensures Step(STUCK_ENV, S2, Acquire(A)) == S3
  {
    Names();
    var s := Enqueue(S2, A);
    FrontTurn(STUCK_ENV, s);
    EnqueueIs(S2, A, [2], s);
    assert s == S3.(timer := None, readings := 4);
    DispatchEnds(STUCK_ENV, s, S3);
  }

  lemma FirstFiring()
    ensures Step(STUCK_ENV, S7, TimerFires) == S8
  {
    var s0 := S7.(timer := None);
    var s1 := State([10], [0, 0, 10], map[B := [3], C := [4]], [B, C, A], map[A := 1], None, 6, ASKED,
                    [GX0, GX1, GA], {2});
    var s2 := State([10, 10], [0, 0, 10, 10], map[C := [4]], [C, A, B], map[A := 1, B := 1], None, 7, ASKED,
                    [GX0, GX1, GA, GB], {2, 3});
    FiringServesA(s0, s1);
    FiringServesB(s1, s2);
    FiringBlocksC(s2);
    DispatchGoesOn(STUCK_ENV, s0, s1);
    DispatchGoesOn(STUCK_ENV, s1, s2);
    DispatchEnds(STUCK_ENV, s2, S8);
  }

  lemma FiringServesA(s0: State, s1: State)
    requires s0 == S7.(timer := None)
    requires s1 == State([10], [0, 0, 10], map[B := [3], C := [4]], [B, C, A], map[A := 1], None, 6, ASKED,
                         [GX0, GX1, GA], {2})
    ensures Turn(STUCK_ENV, s0) == Granted(s1)
  {
    Names();
    FrontTurn(STUCK_ENV, s0);
    assert PruneLog([0, 0], 10, 10) == PruneLog([0], 10, 10) == [];
    assert map[A := [2], B := [3], C := [4]] - {A} == map[B := [3], C := [4]];
  }

  lemma FiringServesB(s1: State, s2: State)
    requires s1 == State([10], [0, 0, 10], map[B := [3], C := [4]], [B, C, A], map[A := 1], None, 6, ASKED,
                         [GX0, GX1, GA], {2})
    requires s2 == State([10, 10], [0, 0, 10, 10], map[C := [4]], [C, A, B], map[A := 1, B := 1], None, 7, ASKED,
                         [GX0, GX1, GA, GB], {2, 3})
    ensures Turn(STUCK_ENV, s1) == Granted(s2)
  {
  }

  lemma FiringBlocksC(s2: State)
    requires s2 == State([10, 10], [0, 0, 10, 10], map[C := [4]], [C, A, B], map[A := 1, B := 1], None, 7, ASKED,
                         [GX0, GX1, GA, GB], {2, 3})
    ensures Turn(STUCK_ENV, s2) == Halted(S8)
  {
  }

  lemma SecondFiring()
    ensures Step(STUCK_ENV, S10, TimerFires) == S11
  {
    Names();
    var s := S10.(timer := None);
    assert PruneLog([10, 10], 20, 10) == PruneLog([10], 20, 10) == [];
    TwoStaleTurn(STUCK_ENV, s);
    DispatchEnds(STUCK_ENV, s, S11);
  }

  /** While the timer is armed an event changes no more than its own entry. */
  lemma QuietSteps()
    ensures Step(STUCK_ENV, S3, Acquire(B)) == S4
    ensures Step(STUCK_ENV, S4, Acquire(C)) == S5
    ensures Step(STUCK_ENV, S5, Release(0)) == S6
    ensures Step(STUCK_ENV, S6, Release(1)) == S7
    ensures Step(STUCK_ENV, S8, Release(2)) == S9
    ensures Step(STUCK_ENV, S9, Release(3)) == S10
  {
    Names();
    EnqueueIs(S3, B, [3], S4);
    EnqueueIs(S4, C, [4], S5);
    assert GiveBack(S5, 0) == S6 && GiveBack(S6, 1) == S7;
    assert GiveBack(S8, 2) == S9 && GiveBack(S9, 3) == S10;
  }

  lemma StuckBeginning() returns (events: seq<Event>, states: seq<State>)
    ensures IsRun(STUCK_ENV, events, states) && ReleasedOnce(events, states) && states[|events|] == S4
  {
    FirstGrant();
    SecondGrant();
    FirstBlocked();
    QuietSteps();
    events, states := [], [INITIAL];
    events, states := Then(STUCK_ENV, events, states, Acquire(X), S1);
    events, states := Then(STUCK_ENV, events, states, Acquire(X), S2);
    events, states := Then(STUCK_ENV, events, states, Acquire(A), S3);
    events, states := Then(STUCK_ENV, events, states, Acquire(B), S4);
  }

  lemma StuckMiddle() returns (events: seq<Event>, states: seq<State>)
    ensures IsRun(STUCK_ENV, events, states) && ReleasedOnce(events, states) && states[|events|] == S8
  {
    QuietSteps();
    FirstFiring();
    events, states := StuckBeginning();
    events, states := Then(STUCK_ENV, events, states, Acquire(C), S5);
    events, states := Then(STUCK_ENV, events, states, Release(0), S6);
    events, states := Then(STUCK_ENV, events, states, Release(1), S7);
    events, states := Then(STUCK_ENV, events, states, TimerFires, S8);
  }

  /** Two grants fill the window, a, b and c queue behind the timer; it serves a and b, is
      re-armed for c and fires again when both have released. Every callback is called once, yet
      the run ends with c waiting, room in both logs, nothing in flight and no timer: only a new
      `acquire` can go on. */
  lemma StuckRunReachable() returns (events: seq<Event>, states: seq<State>)
    ensures Nondecreasing(STUCK_ENV.clock) && IsRun(STUCK_ENV, events, states) && ReleasedOnce(events, states)
    ensures LostWakeup(STUCK_ENV, states[|events|]) && HasRoom(STUCK_ENV, states[|events|])
    ensures Queue(states[|events|], C) == [4] && states[|events|].outstanding == {}
  {
    hide Step, IsRun, ReleasedOnce;
    QuietSteps();
    SecondFiring();
    events, states := StuckMiddle();
    events, states := Then(STUCK_ENV, events, states, Release(2), S9);
    events, states := Then(STUCK_ENV, events, states, Release(3), S10);
    events, states := Then(STUCK_ENV, events, states, TimerFires, S11);
    assert Eligible(STUCK_ENV, S11, C);
  }

  lemma Then(env: Env, events: seq<Event>, states: seq<State>, e: Event, s': State)
    returns (events': seq<Event>, states': seq<State>)
    requires IsRun(env, events, states)
    requires Enabled(states[|events|], e) && Step(env, states[|events|], e) == s'
    ensures IsRun(env, events', states') && states'[|events'|] == s'
    ensures ReleasedOnce(events, states) && (e.Release? ==> e.grant in states[|events|].outstanding) ==>
              ReleasedOnce(events', states')
  {
    Extend(env, events, states, e, s');
    events', states' := events + [e], states + [s'];
  }

  // ---------------------------------------------------------------- a callback called twice

  const CAP_ENV := Env(Settings(10, 1000, 10, 1000, 1), (i: nat) => 0, LiveLength)

  const T1 := State([0], [0], map[], [], map[A := 1], None, 2, [A], [Grant(0, A, 0)], {0})
  const T2 := State([0], [0], map[A := [1]], [A], map[A := 1], None, 3, [A, A], [Grant(0, A, 0)], {0})
  const T3 := State([0], [0], map[A := [1, 2]], [A], map[A := 1], None, 4, [A, A, A], [Grant(0, A, 0)], {0})
  const T4 := State([0, 0], [0, 0], map[A := [2]], [A], map[A := 1], None, 6, [A, A, A],
                    [Grant(0, A, 0), Grant(0, A, 1)], {1})
  const T5 := State([0, 0, 0], [0, 0, 0], map[], [], map[A := 1], None, 8, [A, A, A],
                    [Grant(0, A, 0), Grant(0, A, 1), Grant(0, A, 2)], {1, 2})

  /** An activation that finds a single tenant at its cap leaves everything as it is. */
  lemma LoneCappedTurn(env: Env, s: State)
    requires env.bound == LiveLength && s.timer.None? && |s.order| == 1
    requires !Stale(s, s.order[0]) && !Eligible(env, s, s.order[0])
    ensures Turn(env, s) == Halted(Prune(env, s, env.clock(s.readings)).(readings := s.readings + 1))
  {
    var s1 := Prune(env, s, env.clock(s.readings)).(readings := s.readings + 1);
    assert s.order[1..] + [s.order[0]] == s.order;
    assert ScanLive(env, s1, s.order, 1) == (s.order, None);
  }

  lemma CapSteps()
    ensures Step(CAP_ENV, INITIAL, Acquire(A)) == T1
    ensures Step(CAP_ENV, T1, Acquire(A)) == T2
    ensures Step(CAP_ENV, T2, Acquire(A)) == T3
  {
    var s0, s1 := Enqueue(INITIAL, A), T1.(readings := 1, order := [A]);
    FrontTurn(CAP_ENV, s0);
    DispatchGoesOn(CAP_ENV, s0, s1);
    LoneStaleTurn(CAP_ENV, s1);
    DispatchEnds(CAP_ENV, s1, T1);
    EnqueueIs(T1, A, [1], T2.(readings := 2));
    LoneCappedTurn(CAP_ENV, Enqueue(T1, A));
    DispatchEnds(CAP_ENV, Enqueue(T1, A), T2);
    EnqueueIs(T2, A, [1, 2], T3.(readings := 3));
    LoneCappedTurn(CAP_ENV, Enqueue(T2, A));
    DispatchEnds(CAP_ENV, Enqueue(T2, A), T3);
  }

  lemma DoubleReleaseSteps()
    ensures Step(CAP_ENV, T3, Release(0)) == T4
    ensures Step(CAP_ENV, T4, Release(0)) == T5
  {
    var s0, s1 := GiveBack(T3, 0), T4.(readings := 5);
    FrontTurn(CAP_ENV, s0);
    DispatchGoesOn(CAP_ENV, s0, s1);
    LoneCappedTurn(CAP_ENV, s1);
    DispatchEnds(CAP_ENV, s1, T4);
    var s2, s3 := GiveBack(T4, 0), T5.(readings := 7, order := [A]);
    FrontTurn(CAP_ENV, s2);
    DispatchGoesOn(CAP_ENV, s2, s3);
    LoneStaleTurn(CAP_ENV, s3);
    DispatchEnds(CAP_ENV, s3, T5);
  }

  lemma CapBeginning() returns (events: seq<Event>, states: seq<State>)
    ensures IsRun(CAP_ENV, events, states) && states[|events|] == T3
  {
    CapSteps();
    events, states := [], [INITIAL];
    events, states := Then(CAP_ENV, events, states, Acquire(A), T1);
    events, states := Then(CAP_ENV, events, states, Acquire(A), T2);
    events, states := Then(CAP_ENV, events, states, Acquire(A), T3);
  }

  /** Calling one callback twice lifts a tenant over its cap: two grants are outstanding
      although the cap is 1. */
  lemma DoubleReleaseBreaksCap() returns (events: seq<Event>, states: seq<State>)
    ensures IsRun(CAP_ENV, events, states)
    ensures |OutstandingOf(states[|events|], A)| == 2 > CAP_ENV.settings.maxConcurrentPerTenant
  {
    DoubleReleaseSteps();
    events, states := CapBeginning();
    events, states := Then(CAP_ENV, events, states, Release(0), T4);
    events, states := Then(CAP_ENV, events, states, Release(0), T5);
    assert OutstandingOf(T5, A) == {1, 2};
  }
}
