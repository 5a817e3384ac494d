/** The class of src/clobRateLimiter.ts, proved to take exactly the steps of `RateLimiter`. */
module ClobRateLimiterClass {
  import opened Options
  import opened RateLimiter
  import opened RateLimiterInvariants

  lemma {:induction false} PruneLogTwice(log: seq<int>, now: int, window: int)
    ensures PruneLog(PruneLog(log, now, window), now, window) == PruneLog(log, now, window)
  {
    var d := PruneLogShape(log, now, window);
  }

  /** `canGrant` prunes again, which changes nothing. */
  lemma PruneTwice(env: Env, s: State)
    ensures Prune(env, AfterPick(env, s), env.clock(s.readings)) == AfterPick(env, s)
  {
    var now := env.clock(s.readings);
    PruneLogTwice(s.burst, now, env.settings.burstWindowMs);
    PruneLogTwice(s.sustained, now, env.settings.sustainedWindowMs);
  }

  class ClobRateLimiter {
    const settings: Settings
    const clock: nat -> int

    var burstTimestamps: seq<int>
    var sustainedTimestamps: seq<int>
    var pendingByTenant: map<Tenant, seq<Request>>
    var tenantOrder: seq<Tenant>
    var inFlightByTenant: map<Tenant, nat>
    var dispatchTimer: Option<int>
    var readings: nat
    var requests: nat

    ghost var acquired: seq<Tenant>
    ghost var granted: seq<Grant>
    ghost var outstanding: set<nat>

    ghost predicate Valid()
      reads this
    {
      requests == |acquired|
    }

    function Environment(): Env {
      Env(settings, clock, LiveLength)
    }

    ghost function View(): State
      reads this
    {
      State(burstTimestamps, sustainedTimestamps, pendingByTenant, tenantOrder, inFlightByTenant, dispatchTimer,
            readings, acquired, granted, outstanding)
    }

    constructor (settings: Settings, clock: nat -> int)
      ensures Valid() && View() == INITIAL
      ensures this.settings == settings && this.clock == clock
    {
      this.settings, this.clock := settings, clock;
      burstTimestamps, sustainedTimestamps := [], [];
      pendingByTenant, tenantOrder, inFlightByTenant := map[], [], map[];
      dispatchTimer, readings, requests := None, 0, 0;
      acquired, granted, outstanding := [], [], {};
    }

    /** The synchronous part of `acquire`: enqueue the request and dispatch. */
    method Acquire(tenantId: Tenant) returns (request: Request)
      requires Valid()
      modifies this
      ensures Valid() && request == |old(acquired)|
      ensures View() == Step(Environment(), old(View()), Event.Acquire(tenantId))
    {
      request := requests;
      var queue := if tenantId in pendingByTenant then pendingByTenant[tenantId] else [];
      pendingByTenant := pendingByTenant[tenantId := queue + [request]];
      requests := requests + 1;
      acquired := acquired + [tenantId];
      if tenantId !in tenantOrder {
        tenantOrder := tenantOrder + [tenantId];
      }
      assert View() == Enqueue(old(View()), tenantId);
      RunDispatch();
    }

    /** The callback handed out with grant k. */
    method ReleaseGrant(k: nat, tenantId: Tenant)
      requires Valid() && k < |granted| && granted[k].tenant == tenantId
      modifies this
      ensures Valid() && View() == Step(Environment(), old(View()), Event.Release(k))
    {
      var held: int := if tenantId in inFlightByTenant then inFlightByTenant[tenantId] else 1;
      var nextCount: nat := Max(0, held - 1);
      if nextCount == 0 {
        inFlightByTenant := inFlightByTenant - {tenantId};
      } else {
        inFlightByTenant := inFlightByTenant[tenantId := nextCount];
      }
      outstanding := outstanding - {k};
      assert View() == GiveBack(old(View()), k);
      RunDispatch();
    }

    /** The body of the armed timer. */
    method TimerCallback()
      requires Valid() && dispatchTimer.Some?
      modifies this
      ensures Valid() && View() == Step(Environment(), old(View()), TimerFires)
    {
      dispatchTimer := None;
      assert View() == old(View()).(timer := None);
      RunDispatch();
    }

    /** `dispatch`. The branch for a picked tenant without a request is not there: see
        `ChosenHasRequest`. */
    method RunDispatch()
      requires Valid()
      modifies this
      ensures Valid() && View() == Dispatch(Environment(), old(View()))
      decreases PendingSlots(View())
    {
      if dispatchTimer.Some? {
        return;
      }
      ghost var env, s := Environment(), View();
      var now := clock(readings);
      readings := readings + 1;
      PruneTimestamps(now);
      var nextTenant := PickNextTenant();
      assert View() == AfterPick(env, s);
      if nextTenant.None? || nextTenant.value == "" {
        return;
      }
      var t := nextTenant.value;
      ChosenHasRequest(env, s);
      PruneTwice(env, s);
      var room := CanGrant(now);
      if !room {
        ScheduleNextDispatch(now);
        return;
      }
      Serve(t, now);
      GrantShrinksPending(env, s);
      RunDispatch();
    }

    /** Lines 65-89: take the oldest request of t and resolve its promise. */
    method Serve(t: Tenant, now: int)
      requires Valid() && !Stale(View(), t)
      modifies this
      ensures Valid() && View() == GrantTo(old(View()), t, now)
    {
      var request := Shift(t);
      burstTimestamps := burstTimestamps + [now];
      sustainedTimestamps := sustainedTimestamps + [now];
      inFlightByTenant := inFlightByTenant[t := (if t in inFlightByTenant then inFlightByTenant[t] else 0) + 1];
      outstanding := outstanding + {|granted|};
      granted := granted + [Grant(now, t, request)];
      hide PopRequest;
    }

    /** Lines 65-75: the queue of t loses its first request, and its entry when none is left. */
    method Shift(t: Tenant) returns (request: Request)
      requires !Stale(View(), t)
      modifies this`pendingByTenant
      ensures pendingByTenant == PopRequest(old(pendingByTenant), t) && request == Queue(old(View()), t)[0]
    {
      var queue := pendingByTenant[t];
      request := queue[0];
      pendingByTenant := pendingByTenant[t := queue[1..]];
      if |queue| == 1 {
        pendingByTenant := pendingByTenant - {t};
      }
    }

    method PickNextTenant() returns (tenant: Option<Tenant>)
      modifies this`tenantOrder
      ensures View() == old(View()).(order := Pick(Environment(), old(View())).0)
      ensures tenant == Pick(Environment(), old(View())).1
    {
      ghost var env, s := Environment(), View();
      if |tenantOrder| == 0 {
        return None;
      }
      var i := 0;
      while i < |tenantOrder|
        invariant ScanLive(env, s, tenantOrder, i) == Pick(env, s)
        decreases |tenantOrder| - i
      {
        var tenantId := tenantOrder[0];
        tenantOrder := tenantOrder[1..];
        if tenantId !in pendingByTenant || pendingByTenant[tenantId] == [] {
          i := i + 1;
          continue;
        }
        tenantOrder := tenantOrder + [tenantId];
        var inFlight := if tenantId in inFlightByTenant then inFlightByTenant[tenantId] else 0;
        if inFlight < settings.maxConcurrentPerTenant {
          return Some(tenantId);
        }
        i := i + 1;
      }
      return None;
    }

    method CanGrant(now: int) returns (room: bool)
      modifies this`burstTimestamps, this`sustainedTimestamps
      ensures View() == Prune(Environment(), old(View()), now)
      ensures room == HasRoom(Environment(), View())
    {
      PruneTimestamps(now);
      room := |burstTimestamps| < settings.burstLimit && |sustainedTimestamps| < settings.sustainedLimit;
    }

    method PruneTimestamps(now: int)
      modifies this`burstTimestamps, this`sustainedTimestamps
      ensures View() == Prune(Environment(), old(View()), now)
    {
      while |burstTimestamps| > 0 && now - burstTimestamps[0] >= settings.burstWindowMs
        invariant PruneLog(burstTimestamps, now, settings.burstWindowMs) ==
                  PruneLog(old(burstTimestamps), now, settings.burstWindowMs)
        invariant sustainedTimestamps == old(sustainedTimestamps)
        decreases |burstTimestamps|
      {
        burstTimestamps := burstTimestamps[1..];
      }
      while |sustainedTimestamps| > 0 && now - sustainedTimestamps[0] >= settings.sustainedWindowMs
        invariant PruneLog(sustainedTimestamps, now, settings.sustainedWindowMs) ==
                  PruneLog(old(sustainedTimestamps), now, settings.sustainedWindowMs)
        invariant burstTimestamps == PruneLog(old(burstTimestamps), now, settings.burstWindowMs)
        decreases |sustainedTimestamps|
      {
        sustainedTimestamps := sustainedTimestamps[1..];
      }
    }

    method ScheduleNextDispatch(now: int)
      modifies this`dispatchTimer
      ensures View() == old(View()).(timer := Some(now + TimerDelay(Environment(), old(View()), now)))
    {
      var burstWait := LogWait(burstTimestamps, settings.burstLimit, settings.burstWindowMs, now);
      var sustainedWait := LogWait(sustainedTimestamps, settings.sustainedLimit, settings.sustainedWindowMs, now);
      var waitMs := 1;
      if burstWait.Some? && sustainedWait.Some? {
        waitMs := Max(1, if burstWait.value < sustainedWait.value then burstWait.value else sustainedWait.value);
      } else if burstWait.Some? {
        waitMs := Max(1, burstWait.value);
      } else if sustainedWait.Some? {
        waitMs := Max(1, sustainedWait.value);
      }
      dispatchTimer := Some(now + waitMs);
    }
  }
}
