/**
 * The per-wallet execution loop of `handleDetectedTrade` (src/copyTrader.ts:1171-1477)
 * and what it promises over whole histories: no position is traded again inside its
 * block period, nor while an order for it is pending.
 */
module NoRepeat {
  import opened Options
  import opened Sides
  import opened TradeIdentity
  import opened PositionStore
  import opened PositionMap
  import opened PositionRefinement

  datatype Trade = Trade(
    marketId: string,
    outcome: string,
    tokenId: Option<string>,
    positionKey: string,
    side: Side,
    noRepeatEnabled: bool,
    noRepeatPeriodHours: Option<real>
  )

  /** Hours for which a position stays blocked after a fill; 0 means forever. */
  function AppliedHours(trade: Trade): real {
    if trade.noRepeatEnabled then trade.noRepeatPeriodHours.GetOr(24.0) else 5.0 / 60.0
  }

  datatype Result = Filled(orderId: Option<string>) | Resting(order: string) | Failed

  /** What the outside world answers while one execution wallet is served. */
  datatype Attempt = Attempt(
    checkAt: int,             // the clock at the no-repeat check
    checkFails: bool,         // reading the records threw
    skipped: bool,            // a SELL without shares, or an unknown wallet
    abortedBefore: bool,      // the bot was stopped or a lookup threw before the order
    result: Result,
    threw: bool,              // `executeTrade` threw
    baseline: real,
    recordAt: int,            // the clock when the result is recorded
    recordFails: bool         // saving the record threw
  )

  /** `Call`: `executeTrade` is called after a check at `at`. `Do`: the records change. */
  datatype Act =
    | Call(marketId: string, outcome: string, key: string, at: int, hours: real)
    | Do(op: Op)

  function RecordOp(trade: Trade, key: string, a: Attempt): Option<Op> {
    match a.result
    case Filled(id) => Some(OpExecuted(trade.marketId, trade.outcome, key, id, trade.tokenId, a.recordAt))
    case Resting(order) =>
      Some(OpPending(trade.marketId, trade.outcome, key, order, trade.tokenId, Some(a.baseline), Some(trade.side),
                     a.recordAt))
    case Failed => None
  }

  /** One turn of the loop: what happens, and whether the loop goes on. */
  function TryTarget(xs: seq<Record>, trade: Trade, key: string, a: Attempt): (seq<Act>, bool) {
    if a.checkFails || IsBlocked(xs, trade.marketId, trade.outcome, AppliedHours(trade), Some(key), a.checkAt)
      || a.skipped
    then ([], true)
    else if a.abortedBefore then ([], false)
    else
      var call := Call(trade.marketId, trade.outcome, key, a.checkAt, AppliedHours(trade));
      var op := RecordOp(trade, key, a);
      if a.threw then ([call], false)
      else if op.None? then ([call], true)
      else if a.recordFails then ([call], false)
      else ([call, Do(op.value)], true)
  }

  function OpsOfAct(a: Act): seq<Op> {
    if a.Do? then [a.op] else []
  }

  function OpsOf(h: seq<Act>): seq<Op> {
    if h == [] then []
    else OpsOf(h[..|h| - 1]) + OpsOfAct(h[|h| - 1])
  }

  function RecordsOf(h: seq<Act>): seq<Record> {
    ListAfter(OpsOf(h))
  }

  /** The history after the handler served the first n wallets; once it stopped it stays stopped. */
  function Handled(h: seq<Act>, trade: Trade, wallets: seq<Option<string>>, attempts: seq<Attempt>, n: nat)
    : (seq<Act>, bool)
    requires n <= |wallets| == |attempts|
  {
    if n == 0 then (h, true)
    else
      var (before, goOn) := Handled(h, trade, wallets, attempts, n - 1);
      if !goOn then (before, false)
      else
        var (acts, next) := TryTarget(RecordsOf(before), trade, ExecutionKey(trade.positionKey, wallets[n - 1]),
                                      attempts[n - 1]);
        (before + acts, next)
  }

  // ---------------------------------------------------------------- the loop

  class CopyTrader {
    const store: Store
    ghost var history: seq<Act>

    ghost predicate Valid()
      reads this, store
    {
      store.positions == RecordsOf(history)
    }

    constructor ()
      ensures Valid() && history == [] && fresh(store)
    {
      store := new Store();
      history := [];
    }

    /** Lines 1173-1477. Handlers run one after the other, as the monitor awaits them. */
    method ExecuteForTargets(trade: Trade, wallets: seq<Option<string>>, attempts: seq<Attempt>)
      requires Valid() && |wallets| == |attempts|
      modifies this, store
      ensures Valid() && history == Handled(old(history), trade, wallets, attempts, |wallets|).0
    {
      hide TryTarget;
      var i := 0;
      while i < |wallets|
        invariant i <= |wallets| && Valid()
        invariant Handled(old(history), trade, wallets, attempts, i) == (history, true)
      {
        var goOn := ExecuteForTarget(trade, ExecutionKey(trade.positionKey, wallets[i]), attempts[i]);
        i := i + 1;
        if !goOn {
          HandledStops(old(history), trade, wallets, attempts, i, |wallets|);
          return;
        }
      }
    }

    /** The body of the loop; the result says whether the loop goes on. */
    method ExecuteForTarget(trade: Trade, nrKey: string, a: Attempt) returns (goOn: bool)
      requires Valid()
      modifies this, store
      ensures Valid()
      ensures var t := TryTarget(RecordsOf(old(history)), trade, nrKey, a); history == old(history) + t.0 && goOn == t.1
    {
      hide IsBlocked, ListAfter, OpsOf;
      assert history + [] == history;
      var hours := if trade.noRepeatEnabled then trade.noRepeatPeriodHours.GetOr(24.0) else 5.0 / 60.0;
      if a.checkFails {
        return true;
      }
      var blocked := IsBlocked(store.positions, trade.marketId, trade.outcome, hours, Some(nrKey), a.checkAt);
      if blocked || a.skipped {
        return true;
      }
      if a.abortedBefore {
        return false;
      }
      ghost var call := Call(trade.marketId, trade.outcome, nrKey, a.checkAt, hours);
      history := history + [call];
      OpsSnoc(old(history), call);
      if a.threw {
        return false;
      }
      if a.result.Failed? {
        return true;
      }
      if a.recordFails {
        return false;
      }
      Record(trade, nrKey, a);
      assert history == old(history) + [call] + [Do(RecordOp(trade, nrKey, a).value)];
      assert history == old(history) + [call, Do(RecordOp(trade, nrKey, a).value)];
      goOn := true;
    }

    /** Lines 1363-1392 and 1406-1435: a fill or an open order is written to the records. */
    method Record(trade: Trade, nrKey: string, a: Attempt)
      requires Valid() && RecordOp(trade, nrKey, a).Some?
      modifies this, store
      ensures Valid() && history == old(history) + [Do(RecordOp(trade, nrKey, a).value)]
    {
      if a.result.Filled? {
        store.AddExecutedPosition(trade.marketId, trade.outcome, Details(a.result.orderId, trade.tokenId, Some(nrKey)),
                                  a.recordAt);
      } else {
        store.AddPendingPosition(trade.marketId, trade.outcome, a.result.order, trade.tokenId, Some(a.baseline),
                                 Some(trade.side), Some(nrKey), a.recordAt);
      }
      ghost var done := Do(RecordOp(trade, nrKey, a).value);
      OpsSnoc(history, done);
      history := history + [done];
    }
  }

  lemma OpsSnoc(h: seq<Act>, a: Act)
    ensures OpsOf(h + [a]) == OpsOf(h) + OpsOfAct(a)
    ensures RecordsOf(h + [a]) == if a.Do? then ListStep(RecordsOf(h), a.op) else RecordsOf(h)
  {
    assert (h + [a])[..|h|] == h;
    if a.Do? {
      assert (OpsOf(h) + [a.op])[..|OpsOf(h)|] == OpsOf(h);
    } else {
      assert OpsOf(h) + [] == OpsOf(h);
    }
  }

  lemma {:induction false} HandledStops(h: seq<Act>, trade: Trade, wallets: seq<Option<string>>, attempts: seq<Attempt>,
                                        n: nat, m: nat)
    requires n <= m <= |wallets| == |attempts| && !Handled(h, trade, wallets, attempts, n).1
    ensures Handled(h, trade, wallets, attempts, m) == Handled(h, trade, wallets, attempts, n)
    decreases m
  {
    if n < m {
      HandledStops(h, trade, wallets, attempts, n, m - 1);
    }
  }

  // ---------------------------------------------------------------- histories of the program

  /** One handler, or one change that reconciliation or clean-up makes to the records. */
  datatype Event =
    | Detected(trade: Trade, wallets: seq<Option<string>>, attempts: seq<Attempt>)
    | Maintained(op: Op)

  function After(h: seq<Act>, e: Event): seq<Act> {
    match e
    case Detected(trade, wallets, attempts) =>
      if |wallets| == |attempts| then Handled(h, trade, wallets, attempts, |wallets|).0 else h
    case Maintained(op) => h + [Do(op)]
  }

  function History(events: seq<Event>): seq<Act> {
    if events == [] then [] else After(History(events[..|events| - 1]), events[|events| - 1])
  }

  /** Every call of `executeTrade` passed a check against the records at that moment. */
  ghost predicate Gated(h: seq<Act>) {
    forall j :: 0 <= j < |h| && h[j].Call? ==>
      !IsBlocked(RecordsOf(h[..j]), h[j].marketId, h[j].outcome, h[j].hours, Some(h[j].key), h[j].at)
      && IsExecutionKey(h[j].key)
  }

  lemma GatedSnoc(h: seq<Act>, a: Act)
    requires Gated(h)
    requires a.Call? ==>
               !IsBlocked(RecordsOf(h), a.marketId, a.outcome, a.hours, Some(a.key), a.at) && IsExecutionKey(a.key)
    ensures Gated(h + [a])
  {
    var h' := h + [a];
    forall j | 0 <= j < |h'|
      ensures h'[..j] == h[..j] && (j < |h| ==> h'[j] == h[j])
    {
    }
    assert h[..|h|] == h;
  }

  lemma ExecutionKeyOf(positionKey: string, wallet: Option<string>)
    ensures IsExecutionKey(ExecutionKey(positionKey, wallet))
  {
    assert ExecutionKey(positionKey, wallet) == ExecutionKey(positionKey, Some(wallet.GetOr("legacy")));
  }

  lemma TryGated(h: seq<Act>, trade: Trade, wallet: Option<string>, a: Attempt)
    requires Gated(h)
    ensures Gated(h + TryTarget(RecordsOf(h), trade, ExecutionKey(trade.positionKey, wallet), a).0)
  {
    var key := ExecutionKey(trade.positionKey, wallet);
    ExecutionKeyOf(trade.positionKey, wallet);
    var acts := TryTarget(RecordsOf(h), trade, key, a).0;
    hide Gated, IsBlocked, IsExecutionKey, RecordsOf, RecordOp, ExecutionKey;
    if acts == [] {
      assert h + acts == h;
    } else {
      GatedSnoc(h, acts[0]);
      if |acts| == 1 {
        assert acts == [acts[0]];
      } else {
        GatedSnoc(h + [acts[0]], acts[1]);
        assert h + acts == h + [acts[0]] + [acts[1]];
      }
    }
  }

  lemma {:induction false} HandledGated(h: seq<Act>, trade: Trade, wallets: seq<Option<string>>, attempts: seq<Attempt>,
                                        n: nat)
    requires Gated(h) && n <= |wallets| == |attempts|
    ensures Gated(Handled(h, trade, wallets, attempts, n).0)
  {
    hide TryTarget, Gated;
    if n > 0 {
      HandledGated(h, trade, wallets, attempts, n - 1);
      TryGated(Handled(h, trade, wallets, attempts, n - 1).0, trade, wallets[n - 1], attempts[n - 1]);
    }
  }

  lemma {:induction false} HistoryGated(events: seq<Event>)
    ensures Gated(History(events))
  {
    if events != [] {
      var init, e := events[..|events| - 1], events[|events| - 1];
      HistoryGated(init);
      match e
      case Detected(trade, wallets, attempts) =>
        if |wallets| == |attempts| {
          HandledGated(History(init), trade, wallets, attempts, |wallets|);
        }
      case Maintained(op) => GatedSnoc(History(init), Do(op));
    }
  }

  /** Order ids are fresh, orders are filled once, and the clock never runs backwards. */
  ghost predicate Orderly(h: seq<Act>) {
    && Lawful(OpsOf(h))
    && forall i, j :: 0 <= i < j < |h| && h[i].Do? && TimeOf(h[i].op).Some? && h[j].Call? ==>
         TimeOf(h[i].op).value <= h[j].at
  }

  // ---------------------------------------------------------------- what the map remembers

  function EntryAt(h: seq<Act>, n: nat, key: string): Entry
    requires n <= |h|
  {
    MapAfter(OpsOf(h[..n]), key)
  }

  /** The i-th act records a fill of `key` at time t. */
  predicate Fills(h: seq<Act>, i: nat, key: string, t: int) {
    && i < |h| && h[i].Do?
    && match h[i].op
       case OpExecuted(_, _, k, _, _, now) => k == key && now == t
       case OpPromote(order, now) => order in EntryAt(h, i, key).pending && now == t
       case _ => false
  }

  lemma EntryStep(h: seq<Act>, n: nat, key: string)
    requires n < |h|
    ensures EntryAt(h, n + 1, key) ==
            if h[n].Do? then MapStep(EntryAt(h, n, key), key, h[n].op) else EntryAt(h, n, key)
  {
    assert h[..n + 1] == h[..n] + [h[n]];
    OpsSnoc(h[..n], h[n]);
    if h[n].Do? {
      assert (OpsOf(h[..n]) + [h[n].op])[..|OpsOf(h[..n])|] == OpsOf(h[..n]);
    } else {
      assert OpsOf(h[..n]) + [] == OpsOf(h[..n]);
    }
  }

  lemma {:induction false} OpsOfPrefix(h: seq<Act>, n: nat)
    requires n <= |h|
    ensures OpsOf(h[..n]) <= OpsOf(h)
    decreases |h|
  {
    if n < |h| {
      var init := h[..|h| - 1];
      OpsOfPrefix(init, n);
      assert init[..n] == h[..n] && h == init + [h[|h| - 1]];
    } else {
      assert h[..n] == h;
    }
  }

  lemma LawfulPrefixes(ops: seq<Op>, prefix: seq<Op>)
    requires Lawful(ops) && prefix <= ops
    ensures Lawful(prefix)
  {
    forall i | 0 <= i < |prefix| ensures MayFollow(prefix[..i], prefix[i]) {
      assert prefix[..i] == ops[..i] && MayFollow(ops[..i], ops[i]);
    }
  }

  /** Times of two recorded changes follow their order. */
  lemma TimesInOrder(h: seq<Act>, i: nat, n: nat)
    requires Orderly(h) && i < n < |h| && h[i].Do? && h[n].Do?
    requires TimeOf(h[i].op).Some? && TimeOf(h[n].op).Some?
    ensures TimeOf(h[i].op).value <= TimeOf(h[n].op).value
  {
    var a, b := |OpsOf(h[..i])|, |OpsOf(h[..n])|;
    OpAt(h, i);
    OpAt(h, n);
    assert h[..n][..i + 1] == h[..i + 1];
    OpsOfPrefix(h[..n], i + 1);
    assert MayFollow(OpsOf(h)[..b], OpsOf(h)[b]);
    assert OpsOf(h)[..b][a] == h[i].op;
  }

  lemma OpAt(h: seq<Act>, i: nat)
    requires i < |h| && h[i].Do?
    ensures var a := |OpsOf(h[..i])|; a < |OpsOf(h)| && OpsOf(h)[a] == h[i].op && |OpsOf(h[..i + 1])| == a + 1
  {
    assert h[..i + 1] == h[..i] + [h[i]];
    OpsSnoc(h[..i], h[i]);
    OpsOfPrefix(h, i + 1);
  }

  /** A clean-up between i and n dropped a fill of time t. */
  ghost predicate CleanedBetween(h: seq<Act>, i: nat, n: nat, t: int) {
    exists m :: i < m < n <= |h| && h[m].Do? && h[m].op.OpCleanup? && h[m].op.hours != 0.0
                && t as real <= Cutoff(h[m].op.hours, h[m].op.now)
  }

  lemma StepRemembers(e: Entry, key: string, op: Op, t: int)
    requires e.last.Some? && e.last.value >= t
    requires TimeOf(op).Some? ==> TimeOf(op).value >= t
    ensures var e' := MapStep(e, key, op);
            || (e'.last.Some? && e'.last.value >= t)
            || (op.OpCleanup? && op.hours != 0.0 && t as real <= Cutoff(op.hours, op.now))
  {
  }

  lemma FillEntry(h: seq<Act>, i: nat, key: string, t: int)
    requires Fills(h, i, key, t)
    ensures EntryAt(h, i + 1, key).last == Some(t)
  {
    EntryStep(h, i, key);
  }

  lemma RemembersNext(h: seq<Act>, i: nat, n: nat, key: string, t: int)
    requires Orderly(h) && i < n < |h| && h[i].Do? && TimeOf(h[i].op) == Some(t)
    requires EntryAt(h, n, key).last.Some? && EntryAt(h, n, key).last.value >= t
    ensures (EntryAt(h, n + 1, key).last.Some? && EntryAt(h, n + 1, key).last.value >= t)
            || CleanedBetween(h, i, n + 1, t)
  {
    EntryStep(h, n, key);
    if h[n].Do? {
      if TimeOf(h[n].op).Some? {
        TimesInOrder(h, i, n);
      }
      StepRemembers(EntryAt(h, n, key), key, h[n].op, t);
    }
  }

  /** A recorded fill is remembered until a clean-up drops it. */
  lemma {:induction false} FillRemembered(h: seq<Act>, i: nat, n: nat, key: string, t: int)
    requires Orderly(h) && i < n <= |h| && Fills(h, i, key, t)
    ensures (EntryAt(h, n, key).last.Some? && EntryAt(h, n, key).last.value >= t) || CleanedBetween(h, i, n, t)
    decreases n
  {
    hide EntryAt, Orderly, CleanedBetween;
    if i == n - 1 {
      FillEntry(h, i, key, t);
    } else {
      FillRemembered(h, i, n - 1, key, t);
      if CleanedBetween(h, i, n - 1, t) {
        CleanedLater(h, i, n - 1, t);
      } else {
        RemembersNext(h, i, n - 1, key, t);
      }
    }
  }

  lemma CleanedLater(h: seq<Act>, i: nat, n: nat, t: int)
    requires n < |h| && CleanedBetween(h, i, n, t)
    ensures CleanedBetween(h, i, n + 1, t)
  {
  }

  /** A pending order stays in its key's entry until it is promoted, removed or taken over by a fill of the key. */
  ghost predicate SettledBetween(h: seq<Act>, i: nat, n: nat, key: string, order: string) {
    exists m :: i < m < n <= |h| && h[m].Do? &&
      match h[m].op
      case OpPromote(id, _) => id == order
      case OpRemove(id) => id == order
      case OpExecuted(_, _, k, _, _, _) => k == key
      case _ => false
  }

  lemma {:induction ids} WithoutOther(ids: seq<string>, id: string, other: string)
    requires id in ids && id != other
    ensures id in Without(ids, other)
  {
    if ids[|ids| - 1] != id {
      assert ids == ids[..|ids| - 1] + [ids[|ids| - 1]];
    }
  }

  lemma PendingNext(h: seq<Act>, i: nat, n: nat, key: string, order: string)
    requires i < n < |h| && order in EntryAt(h, n, key).pending
    ensures order in EntryAt(h, n + 1, key).pending || SettledBetween(h, i, n + 1, key, order)
  {
    EntryStep(h, n, key);
    hide EntryAt;
    if h[n].Do? {
      var pending := EntryAt(h, n, key).pending;
      match h[n].op
      case OpPromote(id, _) => if id != order { WithoutOther(pending, order, id); }
      case OpRemove(id) => if id != order { WithoutOther(pending, order, id); }
      case _ =>
    }
  }

  lemma {:induction false} PendingRemembered(h: seq<Act>, i: nat, n: nat, key: string, order: string)
    requires i < n <= |h| && h[i].Do? && h[i].op.OpPending? && h[i].op.key == key && h[i].op.order == order
    ensures order in EntryAt(h, n, key).pending || SettledBetween(h, i, n, key, order)
    decreases n
  {
    hide EntryAt, SettledBetween;
    if i == n - 1 {
      EntryStep(h, i, key);
    } else {
      PendingRemembered(h, i, n - 1, key, order);
      if SettledBetween(h, i, n - 1, key, order) {
        SettledLater(h, i, n - 1, key, order);
      } else {
        PendingNext(h, i, n - 1, key, order);
      }
    }
  }

  lemma SettledLater(h: seq<Act>, i: nat, n: nat, key: string, order: string)
    requires n < |h| && SettledBetween(h, i, n, key, order)
    ensures SettledBetween(h, i, n + 1, key, order)
  {
  }

  // ---------------------------------------------------------------- theorems

  lemma CallSawEntry(h: seq<Act>, j: nat)
    requires Gated(h) && Orderly(h) && j < |h| && h[j].Call?
    ensures !EntryBlocks(EntryAt(h, j, h[j].key), h[j].hours, h[j].at)
  {
    OpsOfPrefix(h, j);
    LawfulPrefixes(OpsOf(h), OpsOf(h[..j]));
    ListRefinesMap(OpsOf(h[..j]), h[j].marketId, h[j].outcome, h[j].key, h[j].hours, h[j].at);
  }

  /** The attempt for one execution wallet calls `executeTrade`. */
  ghost predicate Serves(h: seq<Act>, trade: Trade, wallet: Option<string>, a: Attempt) {
    exists c :: c in TryTarget(RecordsOf(h), trade, ExecutionKey(trade.positionKey, wallet), a).0 && c.Call?
  }

  /** Nothing but the block rule keeps the attempt from the executor. */
  predicate Ready(a: Attempt) {
    !a.checkFails && !a.skipped && !a.abortedBefore
  }

  /** A wallet is served exactly if its check succeeds and the map does not block its key: not less often. */
  lemma CalledExactly(h: seq<Act>, trade: Trade, wallet: Option<string>, a: Attempt)
    requires Lawful(OpsOf(h))
    ensures var key := ExecutionKey(trade.positionKey, wallet);
            Serves(h, trade, wallet, a)
            <==> Ready(a) && !EntryBlocks(MapAfter(OpsOf(h), key), AppliedHours(trade), a.checkAt)
  {
    var key := ExecutionKey(trade.positionKey, wallet);
    ExecutionKeyOf(trade.positionKey, wallet);
    ListRefinesMap(OpsOf(h), trade.marketId, trade.outcome, key, AppliedHours(trade), a.checkAt);
    var acts := TryTarget(RecordsOf(h), trade, key, a).0;
    assert acts != [] ==> acts[0] in acts && acts[0].Call?;
  }

  /** The time that passed since a fill frees the position again: five minutes if no-repeat is off, a day if it is on
      without a period, the given hours otherwise, and never for 0 hours. */
  predicate Elapsed(trade: Trade, sinceMs: int) {
    if !trade.noRepeatEnabled then sinceMs >= 300000
    else
      match trade.noRepeatPeriodHours
      case None => sinceMs >= 86400000
      case Some(hours) => hours != 0.0 && sinceMs as real >= hours * 3600000.0
  }

  /** In numbers: a wallet is served exactly if its check succeeds, no order of its key is pending, and its latest fill,
      if any, was long enough ago for the trade's own settings. */
  lemma CalledInNumbers(h: seq<Act>, trade: Trade, wallet: Option<string>, a: Attempt)
    requires Lawful(OpsOf(h))
    ensures var e := MapAfter(OpsOf(h), ExecutionKey(trade.positionKey, wallet));
            Serves(h, trade, wallet, a)
            <==> Ready(a) && e.pending == [] && (e.last.Some? ==> Elapsed(trade, a.checkAt - e.last.value))
  {
    hide *;
    CalledExactly(h, trade, wallet, a);
    EntryInNumbers(MapAfter(OpsOf(h), ExecutionKey(trade.positionKey, wallet)), trade, a.checkAt);
  }

  lemma EntryInNumbers(e: Entry, trade: Trade, now: int)
    ensures EntryBlocks(e, AppliedHours(trade), now)
            <==> e.pending != [] || (e.last.Some? && !Elapsed(trade, now - e.last.value))
  {
  }

  /** In a history whose calls passed their checks, a call comes no sooner than a period after a fill. */
  lemma CalledAfterPeriod(h: seq<Act>, i: nat, j: nat, t: int)
    requires Gated(h) && Orderly(h) && i < j < |h| && h[j].Call? && Fills(h, i, h[j].key, t)
    requires forall m :: i < m < j && h[m].Do? && h[m].op.OpCleanup? && h[m].op.hours != 0.0 ==>
               0.0 < h[j].hours <= h[m].op.hours
    ensures h[j].hours != 0.0 && h[j].at as real - t as real >= h[j].hours * MS_PER_HOUR
  {
    CallSawEntry(h, j);
    FillRemembered(h, i, j, h[j].key, t);
    if CleanedBetween(h, i, j, t) {
      var m :| i < m < j <= |h| && h[m].Do? && h[m].op.OpCleanup? && h[m].op.hours != 0.0
               && t as real <= Cutoff(h[m].op.hours, h[m].op.now);
      assert TimeOf(h[m].op) == Some(h[m].op.now);
      assert h[j].hours * MS_PER_HOUR <= h[m].op.hours * MS_PER_HOUR;
    }
  }

  /** In such a history, a call comes only after the orders recorded for its key are settled. */
  lemma CalledOnceSettled(h: seq<Act>, i: nat, j: nat)
    requires Gated(h) && Orderly(h) && i < j < |h|
    requires h[j].Call? && h[i].Do? && h[i].op.OpPending? && h[i].op.key == h[j].key
    ensures SettledBetween(h, i, j, h[j].key, h[i].op.order)
  {
    CallSawEntry(h, j);
    PendingRemembered(h, i, j, h[j].key, h[i].op.order);
  }

  /** The loop stops at a wallet exactly if the wallet is neither blocked nor skipped and the attempt is aborted, the
      executor throws, or its result cannot be recorded. */
  lemma StopsExactly(xs: seq<Record>, trade: Trade, key: string, a: Attempt)
    ensures !TryTarget(xs, trade, key, a).1
            <==> !a.checkFails && !a.skipped
                 && !IsBlocked(xs, trade.marketId, trade.outcome, AppliedHours(trade), Some(key), a.checkAt)
                 && (a.abortedBefore || a.threw || (!a.result.Failed? && a.recordFails))
  {
  }

  /** It reaches a wallet exactly if it stopped at none before. */
  lemma {:induction false} ReachedExactly(h: seq<Act>, trade: Trade, wallets: seq<Option<string>>,
                                          attempts: seq<Attempt>, n: nat)
    requires n <= |wallets| == |attempts|
    ensures Handled(h, trade, wallets, attempts, n).1
            <==> forall i: nat :: i < n ==>
                   TryTarget(RecordsOf(Handled(h, trade, wallets, attempts, i).0), trade,
                             ExecutionKey(trade.positionKey, wallets[i]), attempts[i]).1
  {
    hide TryTarget, ExecutionKey, RecordsOf;
    if n > 0 {
      ReachedExactly(h, trade, wallets, attempts, n - 1);
      var i := n - 1;
      assert Handled(h, trade, wallets, attempts, n).1 ==>
          TryTarget(RecordsOf(Handled(h, trade, wallets, attempts, i).0), trade,
                    ExecutionKey(trade.positionKey, wallets[i]), attempts[i]).1;
    }
  }

  /** A recorded result blocks the position under the key of the wallet and under its token: a fill for the hours that
      are asked for, an order left resting at any time. */
  lemma ResultBlocks(h: seq<Act>, trade: Trade, wallet: Option<string>, a: Attempt, hours: real, later: int)
    requires Serves(h, trade, wallet, a) && !a.threw && !a.result.Failed? && !a.recordFails
    requires a.result.Filled? ==> hours == 0.0 || (later - a.recordAt) as real < hours * 3600000.0
    ensures var key := ExecutionKey(trade.positionKey, wallet);
            var xs := RecordsOf(h + TryTarget(RecordsOf(h), trade, key, a).0);
            && IsBlocked(xs, trade.marketId, trade.outcome, hours, Some(key), later)
            && (trade.tokenId.Some? && trade.tokenId.value != "" ==>
                  IsBlocked(xs, trade.marketId, trade.outcome, hours, Some("token:" + trade.tokenId.value), later))
  {
    var key := ExecutionKey(trade.positionKey, wallet);
    var xs, acts := RecordsOf(h), TryTarget(RecordsOf(h), trade, key, a).0;
    ServedActs(h, trade, wallet, a);
    assert h + acts == h + [acts[0]] + [acts[1]];
    OpsSnoc(h, acts[0]);
    OpsSnoc(h + [acts[0]], acts[1]);
    if a.result.Filled? {
      RecordedFillBlocks(xs, trade.marketId, trade.outcome, Details(a.result.orderId, trade.tokenId, Some(key)),
                         a.recordAt, hours, later);
    } else {
      RecordedOrderBlocks(xs, a.result.order,
                          PendingRecord(trade.marketId, trade.outcome, a.result.order, trade.tokenId,
                                        Some(a.baseline), Some(trade.side), Some(key), a.recordAt), hours, later);
    }
    hide IsBlocked, RecordsOf, AddExecuted, AddPending, TryTarget, Serves, ExecutionKey;
  }

  lemma ServedActs(h: seq<Act>, trade: Trade, wallet: Option<string>, a: Attempt)
    requires Serves(h, trade, wallet, a) && !a.threw && !a.result.Failed? && !a.recordFails
    ensures var key := ExecutionKey(trade.positionKey, wallet);
            var acts := TryTarget(RecordsOf(h), trade, key, a).0;
            |acts| == 2 && acts[0].Call? && acts[1].Do? && RecordOp(trade, key, a) == Some(acts[1].op)
  {
  }

  /** Spacing. `executeTrade` is called for a key only if its no-repeat check came at least the applied
      period after every recorded fill of the key, and never after a fill if the period is 0, provided
      clean-ups in between used no shorter threshold. */
  lemma NoRepeatSpacing(events: seq<Event>, i: nat, j: nat, t: int)
    requires var h := History(events); Orderly(h) && i < j < |h| && h[j].Call? && Fills(h, i, h[j].key, t)
    requires var h := History(events);
             forall m :: i < m < j && h[m].Do? && h[m].op.OpCleanup? && h[m].op.hours != 0.0 ==>
               0.0 < h[j].hours <= h[m].op.hours
    ensures var call := History(events)[j]; call.hours != 0.0 && call.at as real - t as real >= call.hours * MS_PER_HOUR
  {
    HistoryGated(events);
    CalledAfterPeriod(History(events), i, j, t);
  }

  /** `executeTrade` is never called for a key while an order recorded for it is unsettled. */
  lemma NoCallWhilePending(events: seq<Event>, i: nat, j: nat)
    requires var h := History(events);
             Orderly(h) && i < j < |h| && h[j].Call? && h[i].Do? && h[i].op.OpPending? && h[i].op.key == h[j].key
    ensures var h := History(events); SettledBetween(h, i, j, h[j].key, h[i].op.order)
  {
    HistoryGated(events);
    CalledOnceSettled(History(events), i, j);
  }

  // ---------------------------------------------------------------- results that were not recorded

  /** Calls, and changes of the records that leave the entry e of the key as it is. */
  predicate Aside(acts: seq<Act>, key: string, e: Entry) {
    forall i :: 0 <= i < |acts| && acts[i].Do? ==> MapStep(e, key, acts[i].op) == e
  }

  lemma {:induction false} WithoutLength(ids: seq<string>, id: string)
    ensures |Without(ids, id)| <= |ids|
    ensures |Without(ids, id)| < |ids| <==> id in ids
    ensures id !in ids ==> Without(ids, id) == ids
  {
    if ids != [] {
      WithoutLength(ids[..|ids| - 1], id);
      assert ids == ids[..|ids| - 1] + [ids[|ids| - 1]];
    }
  }

  /** Those changes are: fills and orders of other keys, settling orders that the key does not wait for, counting
      absences, clean-ups that do not drop its latest fill, and a second fill recorded at the very same time. */
  lemma AsideExactly(e: Entry, key: string, op: Op)
    ensures MapStep(e, key, op) == e
            <==> match op
                 case OpExecuted(_, _, k, _, _, now) => k != key || (e.pending == [] && e.last == Some(now))
                 case OpPending(_, _, k, _, _, _, _, _) => k != key
                 case OpPromote(order, _) => order !in e.pending
                 case OpRemove(order) => order !in e.pending
                 case OpCleanup(hours, now) =>
                   hours == 0.0 || e.last.None? || e.last.value as real > Cutoff(hours, now)
                 case _ => true
  {
    match op
    case OpPromote(order, _) => WithoutLength(e.pending, order);
    case OpRemove(order) => WithoutLength(e.pending, order);
    case _ =>
  }

  lemma {:induction false} AsideKeeps(h: seq<Act>, mid: seq<Act>, key: string)
    requires Aside(mid, key, MapAfter(OpsOf(h), key))
    ensures MapAfter(OpsOf(h + mid), key) == MapAfter(OpsOf(h), key)
    ensures OpsOf(h) <= OpsOf(h + mid)
  {
    hide MapAfter, OpsOf;
    if mid == [] {
      assert h + mid == h;
    } else {
      var init, last := mid[..|mid| - 1], mid[|mid| - 1];
      AsideKeeps(h, init, key);
      assert h + mid == (h + init) + [last];
      OpsSnoc(h + init, last);
      MapSnoc(OpsOf(h + init), OpsOfAct(last), key);
    }
  }

  lemma MapSnoc(ops: seq<Op>, more: seq<Op>, key: string)
    requires |more| <= 1
    ensures MapAfter(ops + more, key)
            == if more == [] then MapAfter(ops, key) else MapStep(MapAfter(ops, key), key, more[0])
  {
    if more == [] {
      assert ops + more == ops;
    } else {
      assert (ops + more)[..|ops|] == ops;
    }
  }

  /** No act of `mid` changes the entry that the attempt left its key with. */
  ghost predicate Undisturbed(h: seq<Act>, trade: Trade, wallet: Option<string>, a: Attempt, mid: seq<Act>) {
    var key := ExecutionKey(trade.positionKey, wallet);
    Aside(mid, key, MapAfter(OpsOf(h + TryTarget(RecordsOf(h), trade, key, a).0), key))
  }

  /** What `executeTrade` returned for a served attempt leaves in the map: its record, or nothing. */
  lemma ResultLeft(h: seq<Act>, trade: Trade, wallet: Option<string>, a: Attempt, mid: seq<Act>)
    requires Serves(h, trade, wallet, a) && !a.threw && !a.result.Failed?
    requires Undisturbed(h, trade, wallet, a, mid)
    ensures var key := ExecutionKey(trade.positionKey, wallet);
            var after := h + TryTarget(RecordsOf(h), trade, key, a).0 + mid;
            && OpsOf(h) <= OpsOf(after)
            && MapAfter(OpsOf(after), key) ==
                 (if a.recordFails then MapAfter(OpsOf(h), key)
                  else MapStep(MapAfter(OpsOf(h), key), key, RecordOp(trade, key, a).value))
  {
    hide MapAfter, MapStep, OpsOf, Aside;
    var key := ExecutionKey(trade.positionKey, wallet);
    var acts := TryTarget(RecordsOf(h), trade, key, a).0;
    ActsLeft(h, trade, wallet, a);
    hide TryTarget, Serves;
    if a.recordFails {
      OneActLeft(h, acts[0], key);
    } else {
      OneActLeft(h, acts[0], key);
      OneActLeft(h + [acts[0]], acts[1], key);
      assert h + acts == h + [acts[0]] + [acts[1]];
    }
    AsideKeeps(h + acts, mid, key);
  }

  lemma ActsLeft(h: seq<Act>, trade: Trade, wallet: Option<string>, a: Attempt)
    requires Serves(h, trade, wallet, a) && !a.threw && !a.result.Failed?
    ensures var key := ExecutionKey(trade.positionKey, wallet);
            var acts := TryTarget(RecordsOf(h), trade, key, a).0;
            && acts != [] && acts[0].Call?
            && acts == if a.recordFails then [acts[0]] else [acts[0], Do(RecordOp(trade, key, a).value)]
  {
  }

  lemma OneActLeft(h: seq<Act>, act: Act, key: string)
    ensures OpsOf(h) <= OpsOf(h + [act])
    ensures MapAfter(OpsOf(h + [act]), key) ==
            if act.Do? then MapStep(MapAfter(OpsOf(h), key), key, act.op) else MapAfter(OpsOf(h), key)
  {
    hide MapAfter, OpsOf;
    OpsSnoc(h, act);
    MapSnoc(OpsOf(h), OpsOfAct(act), key);
  }

  /** The premises of the two results below: attempt a reached the executor and got a result, then nothing changed
      the entry of the key, and attempt b comes no earlier and meets no obstacle but the block rule. */
  ghost predicate TriedTwice(h: seq<Act>, trade: Trade, wallet: Option<string>, a: Attempt, mid: seq<Act>, b: Attempt) {
    && Serves(h, trade, wallet, a) && !a.threw && Undisturbed(h, trade, wallet, a, mid)
    && Lawful(OpsOf(Between(h, trade, wallet, a, mid)))
    && a.checkAt <= b.checkAt && Ready(b)
  }

  /** The history in which attempt b is made. */
  function Between(h: seq<Act>, trade: Trade, wallet: Option<string>, a: Attempt, mid: seq<Act>): seq<Act> {
    h + TryTarget(RecordsOf(h), trade, ExecutionKey(trade.positionKey, wallet), a).0 + mid
  }

  /** What did not block the first attempt does not block a later one. */
  lemma UnblockedLater(e: Entry, hours: real, now: int, later: int)
    requires !EntryBlocks(e, hours, now) && now <= later
    ensures !EntryBlocks(e, hours, later)
  {
  }

  /** Inside the applied period of a fill the position is traded again exactly if the fill could not be recorded:
      the keys that `handleCriticalNoRepeatPersistenceFailure` collects are read nowhere. */
  lemma FillRepeatsExactly(h: seq<Act>, trade: Trade, wallet: Option<string>, a: Attempt, mid: seq<Act>, b: Attempt)
    requires TriedTwice(h, trade, wallet, a, mid, b) && a.result.Filled?
    requires AppliedHours(trade) == 0.0 || a.recordAt as real > Cutoff(AppliedHours(trade), b.checkAt)
    ensures Serves(Between(h, trade, wallet, a, mid), trade, wallet, b) <==> a.recordFails
  {
    ResultLeft(h, trade, wallet, a, mid);
    LawfulPrefixes(OpsOf(Between(h, trade, wallet, a, mid)), OpsOf(h));
    CalledExactly(h, trade, wallet, a);
    CalledExactly(Between(h, trade, wallet, a, mid), trade, wallet, b);
    if a.recordFails {
      var key := ExecutionKey(trade.positionKey, wallet);
      UnblockedLater(MapAfter(OpsOf(h), key), AppliedHours(trade), a.checkAt, b.checkAt);
    }
    hide Serves, Between, MapAfter, OpsOf;
  }

  /** While an order rests the position is traded again, at any later time, exactly if the order could not be
      recorded. */
  lemma RestingRepeatsExactly(h: seq<Act>, trade: Trade, wallet: Option<string>, a: Attempt, mid: seq<Act>, b: Attempt)
    requires TriedTwice(h, trade, wallet, a, mid, b) && a.result.Resting?
    ensures Serves(Between(h, trade, wallet, a, mid), trade, wallet, b) <==> a.recordFails
  {
    ResultLeft(h, trade, wallet, a, mid);
    LawfulPrefixes(OpsOf(Between(h, trade, wallet, a, mid)), OpsOf(h));
    CalledExactly(h, trade, wallet, a);
    CalledExactly(Between(h, trade, wallet, a, mid), trade, wallet, b);
    if a.recordFails {
      var key := ExecutionKey(trade.positionKey, wallet);
      UnblockedLater(MapAfter(OpsOf(h), key), AppliedHours(trade), a.checkAt, b.checkAt);
    }
    hide Serves, Between, MapAfter, OpsOf;
  }

  /** For one: the next handler calls `executeTrade` again one millisecond after a fill that was not recorded,
      although the position is never to be repeated. */
  lemma UnrecordedFillRepeats(trade: Trade)
    requires trade.noRepeatEnabled && trade.noRepeatPeriodHours == Some(0.0)
    ensures var lost := Attempt(0, false, false, false, Filled(Some("o")), false, 0.0, 0, true);
            var again := lost.(checkAt := 1);
            var key := ExecutionKey(trade.positionKey, None);
            History([Detected(trade, [None], [lost]), Detected(trade, [None], [again])]) ==
            [Call(trade.marketId, trade.outcome, key, 0, 0.0), Call(trade.marketId, trade.outcome, key, 1, 0.0)]
  {
    var lost := Attempt(0, false, false, false, Filled(Some("o")), false, 0.0, 0, true);
    var again := lost.(checkAt := 1);
    var key := ExecutionKey(trade.positionKey, None);
    var first, second := Detected(trade, [None], [lost]), Detected(trade, [None], [again]);
    var c1, c2 := Call(trade.marketId, trade.outcome, key, 0, 0.0), Call(trade.marketId, trade.outcome, key, 1, 0.0);
    assert Handled([], trade, [None], [lost], 0) == ([], true);
    assert Handled([], trade, [None], [lost], 1).0 == [c1];
    OpsSnoc([], c1);
    assert [] + [c1] == [c1];
    assert Handled([c1], trade, [None], [again], 0) == ([c1], true);
    assert Handled([c1], trade, [None], [again], 1).0 == [c1] + [c2];
    assert [first, second][..1] == [first] && [first][..0] == [];
    assert History([first]) == [c1];
  }
}
