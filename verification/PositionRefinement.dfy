/** Whole histories of the record list against the map, and what clean-up may drop. */
module PositionRefinement {
  import opened Lists
  import opened Options
  import opened TradeIdentity
  import opened PositionStore
  import opened PositionMap

  // ---------------------------------------------------------------- the list invariant is kept

  lemma {:induction false} FilterMembers(xs: seq<Record>, f: Record -> bool)
    ensures forall p :: p in Filter(xs, f) <==> p in xs && f(p)
  {
    if xs != [] {
      FilterMembers(xs[..|xs| - 1], f);
      assert xs == xs[..|xs| - 1] + [xs[|xs| - 1]];
    }
  }

  ghost predicate DistinctPending(xs: seq<Record>) {
    forall i, j :: 0 <= i < j < |xs| && StatusOf(xs[i]) == Pending && StatusOf(xs[j]) == Pending ==>
      xs[i].orderId != xs[j].orderId
  }

  lemma {:induction false} FilterDistinct(xs: seq<Record>, f: Record -> bool)
    requires DistinctPending(xs)
    ensures DistinctPending(Filter(xs, f))
  {
    if xs != [] {
      var init := xs[..|xs| - 1];
      FilterDistinct(init, f);
      FilterMembers(init, f);
      forall i | 0 <= i < |Filter(init, f)|
        ensures exists m :: 0 <= m < |init| && xs[m] == Filter(init, f)[i]
      {
        assert Filter(init, f)[i] in init;
      }
    }
  }

  lemma FilterOk(xs: seq<Record>, f: Record -> bool, used: set<string>, filled: set<string>)
    requires ListOk(xs, used, filled)
    ensures ListOk(Filter(xs, f), used, filled)
  {
    FilterMembers(xs, f);
    FilterDistinct(xs, f);
  }

  ghost predicate Elsewhere(xs: seq<Record>, i: nat, q: Record) {
    exists m :: 0 <= m < |xs| && m != i && xs[m] == q
  }

  lemma UpdateMembers(xs: seq<Record>, i: nat, p: Record)
    requires i < |xs|
    ensures forall q :: q in xs[i := p] ==> q == p || Elsewhere(xs, i, q)
  {
  }

  /** Record i is executed afterwards under order id `id` (if it has one). */
  lemma FillOk(xs: seq<Record>, i: nat, p: Record, used: set<string>, filled: set<string>, ids: set<string>)
    requires ListOk(xs, used, filled) && i < |xs| && StatusOf(p) == Executed
    requires RecordOk(p, used + ids, filled + ids)
    requires forall m :: 0 <= m < |xs| && m != i && StatusOf(xs[m]) == Pending && xs[m].orderId.Some? ==>
               xs[m].orderId.value !in ids
    ensures ListOk(xs[i := p], used + ids, filled + ids)
  {
    UpdateMembers(xs, i, p);
    forall q | q in xs[i := p]
      ensures RecordOk(q, used + ids, filled + ids)
    {
      if q != p {
        assert Elsewhere(xs, i, q);
        var m :| 0 <= m < |xs| && m != i && xs[m] == q;
        assert RecordOk(xs[m], used, filled);
      }
    }
  }

  lemma FirstPendingId(xs: seq<Record>, i: nat, k: string)
    requires i < |xs| && OfKey(xs[i], k) && StatusOf(xs[i]) == Pending
    requires forall m :: 0 <= m < i ==> !(OfKey(xs[m], k) && StatusOf(xs[m]) == Pending)
    ensures PendingIds(xs, k) != [] && PendingIds(xs, k)[0] == xs[i].orderId.GetOr("")
  {
    PendingAround(xs, i, k);
    NoPending(xs[..i], k);
  }

  /** An executed record is appended. */
  lemma AppendedOk(xs: seq<Record>, p: Record, used: set<string>, filled: set<string>, ids: set<string>)
    requires ListOk(xs, used, filled) && StatusOf(p) == Executed
    requires RecordOk(p, used + ids, filled + ids)
    requires forall q :: q in xs && StatusOf(q) == Pending && q.orderId.Some? ==> q.orderId.value !in ids
    ensures ListOk(xs + [p], used + ids, filled + ids)
  {
  }

  /** A refreshed record that is executed afterwards carries the fill's order id, or keeps its own. */
  lemma RefreshedOk(q: Record, d: Details, now: int, used: set<string>, filled: set<string>, ids: set<string>)
    requires RecordOk(q, used, filled) && filled <= used
    requires d.positionKey.Some? && IsExecutionKey(d.positionKey.value) && PlainToken(d.tokenId.GetOr(""))
    requires ids == (if d.orderId.Some? then {d.orderId.value}
                     else if StatusOf(q) == Pending then {q.orderId.value} else {})
    ensures RecordOk(Refreshed(q, d, now).(status := Some(Executed)), used + ids, filled + ids)
  {
  }

  ghost predicate FillOp(op: Op, d: Details, used: set<string>) {
    && op.OpExecuted? && IsExecutionKey(op.key) && PlainToken(op.tokenId.GetOr(""))
    && (op.orderId.Some? ==> op.orderId.value !in used)
    && d == Details(op.orderId, op.tokenId, Some(op.key))
  }

  lemma ExecutedOverPending(xs: seq<Record>, used: set<string>, filled: set<string>, op: Op, d: Details, i: nat)
    requires FillOp(op, d, used) && ListOk(xs, used, filled) && i < |xs| && OfKey(xs[i], op.key)
             && StatusOf(xs[i]) == Pending
    requires forall m :: 0 <= m < i ==> !(OfKey(xs[m], op.key) && StatusOf(xs[m]) == Pending)
    ensures ListOk(xs[i := Refreshed(xs[i], d, op.now).(status := Some(Executed))],
                   used + UsedBy(op), filled + FilledBy(op, Abstract(xs, op.key)))
  {
    assert forall m :: 0 <= m < |xs| ==> RecordOk(xs[m], used, filled);
    FirstPendingId(xs, i, op.key);
    var ids := FilledBy(op, Abstract(xs, op.key));
    assert ids == if d.orderId.Some? then {d.orderId.value} else {xs[i].orderId.value};
    RefreshedOk(xs[i], d, op.now, used, filled, ids);
    FillOk(xs, i, Refreshed(xs[i], d, op.now).(status := Some(Executed)), used, filled, ids);
    assert used + ids == used + UsedBy(op);
  }

  lemma ExecutedAlone(xs: seq<Record>, used: set<string>, filled: set<string>, op: Op, d: Details, j: nat)
    requires FillOp(op, d, used) && ListOk(xs, used, filled) && j <= |xs| && (j < |xs| ==> StatusOf(xs[j]) == Executed)
    requires forall p :: p in xs ==> !(OfKey(p, op.key) && StatusOf(p) == Pending)
    ensures var after := if j < |xs| then xs[j := Refreshed(xs[j], d, op.now)]
                         else xs + [Record(op.marketId, op.outcome, op.now, Some(Executed), d.orderId, d.tokenId,
                                           d.positionKey, None, None, None)];
            ListOk(after, used + UsedBy(op), filled + FilledBy(op, Abstract(xs, op.key)))
  {
    hide IsExecutionKey, PlainToken;
    assert forall p :: p in xs ==> RecordOk(p, used, filled);
    NoPending(xs, op.key);
    var ids := UsedBy(op);
    assert FilledBy(op, Abstract(xs, op.key)) == ids;
    if j < |xs| {
      assert xs[j] in xs;
      RefreshedOk(xs[j], d, op.now, used, filled, ids);
      SameStatus(xs[j], d, op.now, used + ids, filled + ids);
      assert forall m :: 0 <= m < |xs| ==> RecordOk(xs[m], used, filled);
      FillOk(xs, j, Refreshed(xs[j], d, op.now), used, filled, ids);
    } else {
      var p := Record(op.marketId, op.outcome, op.now, Some(Executed),
                      d.orderId, d.tokenId, d.positionKey, None, None, None);
      assert RecordOk(p, used + ids, filled + ids);
      assert forall q :: q in xs && StatusOf(q) == Pending && q.orderId.Some? ==> q.orderId.value !in ids;
      AppendedOk(xs, p, used, filled, ids);
    }
  }

  lemma SameStatus(q: Record, d: Details, now: int, used: set<string>, filled: set<string>)
    requires StatusOf(q) == Executed && RecordOk(Refreshed(q, d, now).(status := Some(Executed)), used, filled)
    ensures RecordOk(Refreshed(q, d, now), used, filled) && StatusOf(Refreshed(q, d, now)) == Executed
  {
  }

  lemma ExecutedOk(xs: seq<Record>, used: set<string>, filled: set<string>, op: Op)
    requires op.OpExecuted? && ListOk(xs, used, filled) && IsExecutionKey(op.key) && PlainToken(op.tokenId.GetOr(""))
    requires op.orderId.Some? ==> op.orderId.value !in used
    ensures ListOk(ListStep(xs, op), used + UsedBy(op), filled + FilledBy(op, Abstract(xs, op.key)))
  {
    var d := Details(op.orderId, op.tokenId, Some(op.key));
    var i := FindFirst(xs, MatchWith(op.marketId, op.outcome, d.positionKey, Pending));
    var j := FindFirst(xs, MatchWith(op.marketId, op.outcome, d.positionKey, Executed));
    SearchesByKey(xs, used, filled, op, Pending);
    SearchesByKey(xs, used, filled, op, Executed);
    if i < |xs| {
      ExecutedOverPending(xs, used, filled, op, d, i);
    } else {
      ExecutedAlone(xs, used, filled, op, d, j);
    }
  }

  lemma PendingOk(xs: seq<Record>, used: set<string>, filled: set<string>, op: Op)
    requires op.OpPending? && ListOk(xs, used, filled) && IsExecutionKey(op.key) && PlainToken(op.tokenId.GetOr(""))
    requires op.order !in used
    ensures ListOk(ListStep(xs, op), used + UsedBy(op), filled)
  {
    FreshOrder(xs, used, filled, op.order);
    assert forall m :: 0 <= m < |xs| ==> RecordOk(xs[m], used, filled);
  }

  lemma PromoteOk(xs: seq<Record>, used: set<string>, filled: set<string>, op: Op)
    requires op.OpPromote? && ListOk(xs, used, filled) && op.order !in filled
    ensures ListOk(ListStep(xs, op), used + UsedBy(op), filled + UsedBy(op))
  {
    var i := FindFirst(xs, CarriesOrder(op.order));
    assert forall m :: 0 <= m < |xs| ==> RecordOk(xs[m], used, filled);
    if i < |xs| {
      FillOk(xs, i, ListStep(xs, op)[i], used, filled, {op.order});
    } else {
      assert forall m :: 0 <= m < |xs| ==> !CarriesOrder(op.order)(xs[m]);
    }
  }

  lemma SetMissingOk(xs: seq<Record>, used: set<string>, filled: set<string>, id: string, f: nat -> nat)
    requires ListOk(xs, used, filled)
    ensures ListOk(SetMissingChecks(xs, id, f), used, filled)
  {
    var i := FindFirst(xs, PendingOrder(id));
    assert forall m :: 0 <= m < |xs| ==> RecordOk(xs[m], used, filled);
    if i < |xs| {
      UpdateMembers(xs, i, SetMissingChecks(xs, id, f)[i]);
    }
  }

  lemma StepOk(xs: seq<Record>, used: set<string>, filled: set<string>, op: Op)
    requires ListOk(xs, used, filled)
    requires op.OpExecuted? ==>
               IsExecutionKey(op.key) && PlainToken(op.tokenId.GetOr("")) &&
               (op.orderId.Some? ==> op.orderId.value !in used)
    requires op.OpPending? ==> IsExecutionKey(op.key) && PlainToken(op.tokenId.GetOr("")) && op.order !in used
    requires op.OpPromote? ==> op.order !in filled
    ensures ListOk(ListStep(xs, op), used + UsedBy(op), filled + FilledBy(op, Abstract(xs, KeyOf(op))))
  {
    assert used + {} == used && filled + {} == filled;
    match op
    case OpExecuted(_, _, _, _, _, _) => ExecutedOk(xs, used, filled, op);
    case OpPending(_, _, _, _, _, _, _, _) => PendingOk(xs, used, filled, op);
    case OpPromote(_, _) => PromoteOk(xs, used, filled, op);
    case OpRemove(id) => FilterOk(xs, (p: Record) => !PendingOrder(id)(p), used, filled);
    case OpIncrement(id) => SetMissingOk(xs, used, filled, id, n => n + 1);
    case OpReset(id) => SetMissingOk(xs, used, filled, id, n => 0);
    case OpCleanup(hours, now) =>
      FilterOk(xs, (p: Record) => StatusOf(p) == Pending || p.timestamp as real > Cutoff(hours, now), used, filled);
  }

  lemma StepNoLater(xs: seq<Record>, op: Op, now: int)
    requires NoLaterThan(xs, now) && (TimeOf(op).Some? ==> TimeOf(op).value <= now)
    ensures NoLaterThan(ListStep(xs, op), now)
  {
    match op
    case OpRemove(id) => FilterMembers(xs, (p: Record) => !PendingOrder(id)(p));
    case OpCleanup(hours, t) =>
      FilterMembers(xs, (p: Record) => StatusOf(p) == Pending || p.timestamp as real > Cutoff(hours, t));
    case _ =>
  }

  // ---------------------------------------------------------------- histories

  lemma LawfulPrefix(ops: seq<Op>)
    requires Lawful(ops) && ops != []
    ensures Lawful(ops[..|ops| - 1]) && MayFollow(ops[..|ops| - 1], ops[|ops| - 1])
  {
    var init := ops[..|ops| - 1];
    forall i | 0 <= i < |init| ensures MayFollow(init[..i], init[i]) {
      assert init[..i] == ops[..i] && MayFollow(ops[..i], ops[i]);
    }
  }

  lemma {:induction false} TimesBound(ops: seq<Op>, now: int)
    requires NotBefore(ops, now)
    ensures NoLaterThan(ListAfter(ops), now)
  {
    if ops != [] {
      TimesBound(ops[..|ops| - 1], now);
      StepNoLater(ListAfter(ops[..|ops| - 1]), ops[|ops| - 1], now);
    }
  }

  lemma {:induction false} HistoryOk(ops: seq<Op>)
    requires Lawful(ops)
    ensures ListOk(ListAfter(ops), Used(ops), Filled(ops))
    ensures forall key :: Abstract(ListAfter(ops), key) == MapAfter(ops, key)
  {
    if ops != [] {
      var init, op := ops[..|ops| - 1], ops[|ops| - 1];
      var xs := ListAfter(init);
      LawfulPrefix(ops);
      HistoryOk(init);
      if TimeOf(op).Some? {
        TimesBound(init, TimeOf(op).value);
      }
      StepOk(xs, Used(init), Filled(init), op);
      StepRefines(xs, Used(init), Filled(init), op);
    }
  }

  lemma {:induction xs} AbstractMeans(xs: seq<Record>, key: string)
    ensures PendingIds(xs, key) != [] <==> exists p :: p in xs && OfKey(p, key) && StatusOf(p) == Pending
    ensures LastFill(xs, key).Some? ==>
              exists p :: p in xs && OfKey(p, key) && StatusOf(p) == Executed && p.timestamp == LastFill(xs, key).value
    ensures forall p :: p in xs && OfKey(p, key) && StatusOf(p) == Executed ==>
              LastFill(xs, key).Some? && p.timestamp <= LastFill(xs, key).value
  {
    if xs != [] {
      var init, p := xs[..|xs| - 1], xs[|xs| - 1];
      assert xs == init + [p];
      AbstractMeans(init, key);
      assert p in xs && forall q :: q in init ==> q in xs;
    }
  }

  /** The list, however many records a key has, answers as its entry does. */
  lemma BlockedByEntry(xs: seq<Record>, used: set<string>, filled: set<string>,
                       marketId: string, outcome: string, key: string, hours: real, now: int)
    requires ListOk(xs, used, filled) && IsExecutionKey(key)
    ensures IsBlocked(xs, marketId, outcome, hours, Some(key), now) <==> EntryBlocks(Abstract(xs, key), hours, now)
  {
    AbstractMeans(xs, key);
    forall p | p in xs ensures SameIdentity(p, marketId, outcome, Some(key)) <==> OfKey(p, key) {
      IdentityIsKey(p, used, filled, marketId, outcome, key);
    }
  }

  /** Refinement: after any lawful sequence of operations `isPositionBlocked` gives the map's answer. */
  lemma ListRefinesMap(ops: seq<Op>, marketId: string, outcome: string, key: string, hours: real, now: int)
    requires Lawful(ops) && IsExecutionKey(key)
    ensures IsBlocked(ListAfter(ops), marketId, outcome, hours, Some(key), now)
            <==> EntryBlocks(MapAfter(ops, key), hours, now)
  {
    HistoryOk(ops);
    BlockedByEntry(ListAfter(ops), Used(ops), Filled(ops), marketId, outcome, key, hours, now);
  }

  // ---------------------------------------------------------------- clean-up

  /** Clean-up with threshold T keeps every pending record. */
  lemma CleanupKeepsPending(xs: seq<Record>, hours: real, now: int, p: Record)
    requires p in xs && StatusOf(p) == Pending
    ensures p in Cleanup(xs, hours, now)
  {
    FilterMembers(xs, (q: Record) => StatusOf(q) == Pending || q.timestamp as real > Cutoff(hours, now));
  }

  /** In numbers: the records left are the pending ones and the fills of the last `hours`; 0 hours drop nothing. */
  lemma CleanupInNumbers(xs: seq<Record>, hours: real, now: int, p: Record)
    ensures p in Cleanup(xs, hours, now)
            <==> p in xs && (p.status == Some(Pending) || hours == 0.0
                             || (now - p.timestamp) as real < hours * 3600000.0)
  {
    var keep := (q: Record) => StatusOf(q) == Pending || q.timestamp as real > Cutoff(hours, now);
    FilterMembers(xs, keep);
    assert hours != 0.0 ==> Cleanup(xs, hours, now) == Filter(xs, keep);
  }

  /** When clean-up with threshold T at `now` changes the answer for period h at a time `later`: exactly
      if the only matching records are fills no younger than T that still count for h. */
  lemma CleanupChangesExactly(xs: seq<Record>, marketId: string, outcome: string, key: Option<string>,
                              t: real, now: int, h: real, later: int)
    requires t != 0.0
    ensures IsBlocked(xs, marketId, outcome, h, key, later)
            != IsBlocked(Cleanup(xs, t, now), marketId, outcome, h, key, later)
       <==>
         && (forall p :: p in xs && SameIdentity(p, marketId, outcome, key) ==> StatusOf(p) == Executed)
         && (exists p :: p in xs && SameIdentity(p, marketId, outcome, key) && p.timestamp as real <= Cutoff(t, now)
                         && (h == 0.0 || p.timestamp as real > Cutoff(h, later)))
         && (forall p :: p in xs && SameIdentity(p, marketId, outcome, key) && p.timestamp as real > Cutoff(t, now) ==>
               h != 0.0 && p.timestamp as real <= Cutoff(h, later))
  {
    var keep := (p: Record) => StatusOf(p) == Pending || p.timestamp as real > Cutoff(t, now);
    FilterMembers(xs, keep);
    var ys := Cleanup(xs, t, now);
    assert forall p :: p in ys <==> p in xs && keep(p);
  }

  /** For no period in (0, T] does it ever change an answer, at once or later. */
  lemma CleanupIsInvisible(xs: seq<Record>, marketId: string, outcome: string, key: Option<string>,
                           t: real, now: int, h: real, later: int)
    requires 0.0 < h <= t && now <= later
    ensures IsBlocked(Cleanup(xs, t, now), marketId, outcome, h, key, later)
            == IsBlocked(xs, marketId, outcome, h, key, later)
  {
    CleanupChangesExactly(xs, marketId, outcome, key, t, now, h, later);
    assert Cutoff(t, now) <= Cutoff(h, later) by {
      assert h * MS_PER_HOUR <= t * MS_PER_HOUR;
    }
  }

  // ---------------------------------------------------------------- clean-up inside a history

  /** The entry `e` of a history with the clean-up, the entry `v` of the same history without it. */
  predicate Cleaned(e: Entry, v: Entry, t: real, now: int) {
    && e.pending == v.pending
    && (e.last == v.last || (e.last.None? && v.last.Some? && v.last.value as real <= Cutoff(t, now)))
  }

  lemma CleanedStep(e: Entry, v: Entry, t: real, now: int, key: string, op: Op)
    requires Cleaned(e, v, t, now)
    ensures Cleaned(MapStep(e, key, op), MapStep(v, key, op), t, now)
    ensures FilledBy(op, e) == FilledBy(op, v)
  {
  }

  function With(ops: seq<Op>, t: real, now: int, more: seq<Op>): seq<Op> {
    ops + [OpCleanup(t, now)] + more
  }

  lemma WithSnoc(ops: seq<Op>, t: real, now: int, more: seq<Op>)
    requires more != []
    ensures With(ops, t, now, more) == With(ops, t, now, more[..|more| - 1]) + [more[|more| - 1]]
    ensures With(ops, t, now, more)[..|ops| + |more|] == With(ops, t, now, more[..|more| - 1])
    ensures ops + more == ops + more[..|more| - 1] + [more[|more| - 1]]
    ensures (ops + more)[..|ops| + |more| - 1] == ops + more[..|more| - 1]
  {
  }

  lemma OrdersSnoc(ops: seq<Op>, op: Op)
    ensures Used(ops + [op]) == Used(ops) + UsedBy(op)
    ensures Filled(ops + [op]) == Filled(ops) + FilledBy(op, MapAfter(ops, KeyOf(op)))
  {
    assert (ops + [op])[..|ops|] == ops;
  }

  lemma CleanedAtOnce(ops: seq<Op>, t: real, now: int, key: string)
    requires t != 0.0
    ensures Used(With(ops, t, now, [])) == Used(ops) && Filled(With(ops, t, now, [])) == Filled(ops)
    ensures Cleaned(MapAfter(With(ops, t, now, []), key), MapAfter(ops, key), t, now)
  {
    assert With(ops, t, now, []) == ops + [OpCleanup(t, now)];
    assert With(ops, t, now, [])[..|ops|] == ops;
    assert Used(ops) + {} == Used(ops) && Filled(ops) + {} == Filled(ops);
  }

  /** Whatever follows the clean-up, the entries agree up to old fills. */
  lemma {:induction false} CleanedHistory(ops: seq<Op>, t: real, now: int, more: seq<Op>, key: string)
    requires t != 0.0
    ensures Cleaned(MapAfter(With(ops, t, now, more), key), MapAfter(ops + more, key), t, now)
    decreases |more|
  {
    if more == [] {
      CleanedAtOnce(ops, t, now, key);
      assert ops + more == ops;
    } else {
      hide MapStep, Cleaned;
      var init, op := more[..|more| - 1], more[|more| - 1];
      WithSnoc(ops, t, now, more);
      CleanedHistory(ops, t, now, init, key);
      CleanedStep(MapAfter(With(ops, t, now, init), key), MapAfter(ops + init, key), t, now, key, op);
    }
  }

  /** Both histories use and fill the same orders. */
  lemma {:induction false} CleanedOrders(ops: seq<Op>, t: real, now: int, more: seq<Op>)
    requires t != 0.0
    ensures Used(With(ops, t, now, more)) == Used(ops + more)
    ensures Filled(With(ops, t, now, more)) == Filled(ops + more)
    decreases |more|
  {
    if more == [] {
      CleanedAtOnce(ops, t, now, "");
      assert ops + more == ops;
    } else {
      hide *;
      var init, op := more[..|more| - 1], more[|more| - 1];
      WithSnoc(ops, t, now, more);
      OrdersSnoc(With(ops, t, now, init), op);
      OrdersSnoc(ops + init, op);
      CleanedOrders(ops, t, now, init);
      CleanedHistory(ops, t, now, init, KeyOf(op));
      CleanedStep(MapAfter(With(ops, t, now, init), KeyOf(op)), MapAfter(ops + init, KeyOf(op)), t, now, KeyOf(op), op);
    }
  }

  lemma NotBeforeWithout(ops: seq<Op>, t: real, now: int, more: seq<Op>, time: int)
    requires NotBefore(With(ops, t, now, more), time)
    ensures NotBefore(ops + more, time)
  {
    var w, v := With(ops, t, now, more), ops + more;
    forall i | 0 <= i < |v| && TimeOf(v[i]).Some?
      ensures TimeOf(v[i]).value <= time
    {
      assert v[i] == w[if i < |ops| then i else i + 1];
    }
  }

  /** A history stays lawful without the clean-up. */
  lemma LawfulWithout(ops: seq<Op>, t: real, now: int, more: seq<Op>)
    requires t != 0.0 && Lawful(With(ops, t, now, more))
    ensures Lawful(ops + more)
  {
    var w, v := With(ops, t, now, more), ops + more;
    forall i | 0 <= i < |v|
      ensures MayFollow(v[..i], v[i])
    {
      if i < |ops| {
        assert MayFollow(w[..i], w[i]);
        assert w[..i] == v[..i];
      } else {
        var n := i - |ops|;
        assert MayFollow(w[..i + 1], w[i + 1]);
        assert w[..i + 1] == With(ops, t, now, more[..n]) && v[..i] == ops + more[..n] && v[i] == w[i + 1];
        CleanedOrders(ops, t, now, more[..n]);
        if TimeOf(v[i]).Some? {
          NotBeforeWithout(ops, t, now, more[..n], TimeOf(v[i]).value);
        }
      }
    }
  }

  lemma LastStep(e: Entry, key: string, op: Op, t: real, now: int)
    requires 0.0 < t && (TimeOf(op).Some? ==> now <= TimeOf(op).value)
    requires e.last.Some? ==> e.last.value as real > Cutoff(t, now)
    ensures MapStep(e, key, op).last.Some? ==> MapStep(e, key, op).last.value as real > Cutoff(t, now)
  {
    assert t * MS_PER_HOUR > 0.0;
  }

  /** After the clean-up only fills younger than T are left, or come in. */
  lemma {:induction false} OnlyYoungLeft(ops: seq<Op>, t: real, now: int, more: seq<Op>, key: string)
    requires 0.0 < t && Lawful(With(ops, t, now, more))
    ensures var e := MapAfter(With(ops, t, now, more), key);
            e.last.Some? ==> e.last.value as real > Cutoff(t, now)
    decreases |more|
  {
    var w := With(ops, t, now, more);
    if more == [] {
      assert w == ops + [OpCleanup(t, now)] && w[..|ops|] == ops;
      return;
    }
    hide MapStep;
    var init, op := more[..|more| - 1], more[|more| - 1];
    WithSnoc(ops, t, now, more);
    LawfulPrefix(w);
    assert w[..|w| - 1] == With(ops, t, now, init);
    OnlyYoungLeft(ops, t, now, init, key);
    assert With(ops, t, now, init)[|ops|] == OpCleanup(t, now);
    LastStep(MapAfter(With(ops, t, now, init), key), key, op, t, now);
  }

  /** For any period: a clean-up with threshold T inside a history changes a later answer exactly if without it
      nothing is pending for the key and its latest fill was T old at the clean-up but still counts for the period. */
  lemma CleanupForgetsExactly(ops: seq<Op>, t: real, now: int, more: seq<Op>,
                              marketId: string, outcome: string, key: string, h: real, later: int)
    requires Lawful(With(ops, t, now, more)) && IsExecutionKey(key) && 0.0 < t
    ensures IsBlocked(ListAfter(With(ops, t, now, more)), marketId, outcome, h, Some(key), later)
            != IsBlocked(ListAfter(ops + more), marketId, outcome, h, Some(key), later)
       <==>
         var v := MapAfter(ops + more, key);
         && v.pending == [] && v.last.Some? && v.last.value as real <= Cutoff(t, now)
         && (h == 0.0 || v.last.value as real > Cutoff(h, later))
  {
    LawfulWithout(ops, t, now, more);
    CleanedHistory(ops, t, now, more, key);
    OnlyYoungLeft(ops, t, now, more, key);
    ListRefinesMap(With(ops, t, now, more), marketId, outcome, key, h, later);
    ListRefinesMap(ops + more, marketId, outcome, key, h, later);
    hide ListAfter, MapAfter, IsBlocked, Lawful;
  }

  /** A clean-up with threshold T inside a history changes no answer that is given afterwards for a period in
      (0, T], whatever operations follow it. */
  lemma CleanupIsForgotten(ops: seq<Op>, t: real, now: int, more: seq<Op>,
                           marketId: string, outcome: string, key: string, h: real, later: int)
    requires Lawful(With(ops, t, now, more)) && IsExecutionKey(key) && 0.0 < h <= t && now <= later
    ensures IsBlocked(ListAfter(With(ops, t, now, more)), marketId, outcome, h, Some(key), later)
            == IsBlocked(ListAfter(ops + more), marketId, outcome, h, Some(key), later)
  {
    CleanupForgetsExactly(ops, t, now, more, marketId, outcome, key, h, later);
    assert Cutoff(t, now) <= Cutoff(h, later) by {
      assert h * MS_PER_HOUR <= t * MS_PER_HOUR;
    }
    hide ListAfter, MapAfter, IsBlocked, Lawful;
  }

  /** But the block of a wallet that never repeats (period 0) can be lost: the clean-up at start-up
      uses the longest period other than 0. */
  lemma CleanupForgetsForever()
    ensures var p := Record("m", "YES", 0, Some(Executed), None, None, Some("token:1::exec:w"), None, None, None);
            var now := 7200000;
            && IsBlocked([p], "m", "YES", 0.0, Some("token:1::exec:w"), now)
            && !IsBlocked(Cleanup([p], 1.0, now), "m", "YES", 0.0, Some("token:1::exec:w"), now)
  {
  }
}
