/**
 * What the operations of a reconciliation do to the pending records, order by order, and
 * exactly what one turn of its loop does.
 */
module ReconciliationTurns {
  import opened Lists
  import opened Options
  import opened Sides
  import opened PositionStore
  import opened PositionRefinement
  import opened Reconciliation

  // ---------------------------------------------------------------- pending records and their counters

  /** A pending record names an order that no other record names. */
  ghost predicate Sole(xs: seq<Record>) {
    forall i, j :: 0 <= i < |xs| && 0 <= j < |xs| && StatusOf(xs[i]) == Pending ==>
      xs[i].orderId.Some? && (i != j ==> xs[j].orderId != xs[i].orderId)
  }

  /** The counter of the pending record of an order. */
  function Counter(xs: seq<Record>, order: string): Option<nat> {
    var i := FindFirst(xs, PendingOrder(order));
    if i < |xs| then Some(Checks(xs[i])) else None
  }

  lemma CounterOf(xs: seq<Record>, p: Record)
    requires Sole(xs) && p in xs && StatusOf(p) == Pending
    ensures p.orderId.Some? && Counter(xs, p.orderId.value) == Some(Checks(p))
  {
    var m :| 0 <= m < |xs| && xs[m] == p;
    assert p.orderId.Some?;
    var i := FindFirst(xs, PendingOrder(p.orderId.value));
    assert PendingOrder(p.orderId.value)(xs[m]);
    assert PendingOrder(p.orderId.value)(xs[i]);
  }

  lemma CounterHas(xs: seq<Record>, order: string) returns (p: Record)
    requires Counter(xs, order).Some?
    ensures p in xs && StatusOf(p) == Pending && p.orderId == Some(order) && Counter(xs, order) == Some(Checks(p))
  {
    var i := FindFirst(xs, PendingOrder(order));
    p := xs[i];
    assert PendingOrder(order)(p);
  }

  /** Lists whose pending records are the same, but for one order, have the same other counters. */
  lemma SameCounter(xs: seq<Record>, ys: seq<Record>, order: string, q: string)
    requires Sole(xs) && Sole(ys) && q != order
    requires forall p :: StatusOf(p) == Pending && p.orderId != Some(order) ==> (p in xs <==> p in ys)
    ensures Counter(ys, q) == Counter(xs, q)
  {
    if Counter(xs, q).Some? {
      var p := CounterHas(xs, q);
      CounterOf(ys, p);
    } else if Counter(ys, q).Some? {
      var p := CounterHas(ys, q);
      CounterOf(xs, p);
    }
  }

  lemma NoCounter(xs: seq<Record>, order: string)
    requires forall p :: p in xs && StatusOf(p) == Pending ==> p.orderId != Some(order)
    ensures Counter(xs, order) == None
  {
    if Counter(xs, order).Some? {
      var p := CounterHas(xs, order);
    }
  }

  /** The counter of record i, if it has one pending record's order, becomes f of what it was. */
  lemma SetMissingMembers(xs: seq<Record>, order: string, f: nat -> nat)
    ensures |SetMissingChecks(xs, order, f)| == |xs|
    ensures forall m :: 0 <= m < |xs| ==>
              var q := SetMissingChecks(xs, order, f)[m];
              && q.orderId == xs[m].orderId && StatusOf(q) == StatusOf(xs[m])
              && (m == FindFirst(xs, PendingOrder(order)) ==> q.missingChecks == Some(f(Checks(xs[m]))))
              && (m != FindFirst(xs, PendingOrder(order)) ==> q == xs[m])
  {
  }

  lemma SetCounter(xs: seq<Record>, order: string, f: nat -> nat, q: string)
    requires Sole(xs)
    ensures Sole(SetMissingChecks(xs, order, f))
    ensures Counter(SetMissingChecks(xs, order, f), q) ==
            if q == order && Counter(xs, q).Some? then Some(f(Counter(xs, q).value)) else Counter(xs, q)
  {
    SetMissingMembers(xs, order, f);
    var ys, i := SetMissingChecks(xs, order, f), FindFirst(xs, PendingOrder(order));
    hide SetMissingChecks;
    if q == order {
      if i < |xs| {
        assert PendingOrder(order)(xs[i]);
        assert ys[i] in ys;
        CounterOf(ys, ys[i]);
      } else {
        assert ys == xs;
      }
    } else {
      forall p | StatusOf(p) == Pending && p.orderId != Some(order)
        ensures p in xs <==> p in ys
      {
        if p in xs {
          UnlikeRecord(xs, ys, i, order, p);
        }
        if p in ys {
          UnlikeRecord(ys, xs, i, order, p);
        }
      }
      SameCounter(xs, ys, order, q);
    }
  }

  /** A record of another order is not the i-th, so it is in both lists. */
  lemma UnlikeRecord(xs: seq<Record>, ys: seq<Record>, i: nat, order: string, p: Record)
    requires |xs| == |ys| && forall m :: 0 <= m < |xs| && m != i ==> xs[m] == ys[m]
    requires i < |xs| ==> xs[i].orderId == Some(order)
    requires p.orderId != Some(order) && p in xs
    ensures p in ys
  {
    var m :| 0 <= m < |xs| && xs[m] == p;
    assert ys[m] == p;
  }

  lemma PromotedCounter(xs: seq<Record>, order: string, now: int, q: string)
    requires Sole(xs)
    ensures Sole(MarkExecuted(xs, order, now))
    ensures Counter(MarkExecuted(xs, order, now), q) == if q == order then None else Counter(xs, q)
  {
    var ys, i := MarkExecuted(xs, order, now), FindFirst(xs, CarriesOrder(order));
    assert i < |xs| ==> CarriesOrder(order)(xs[i]);
    if q == order {
      forall p | p in ys && StatusOf(p) == Pending
        ensures p.orderId != Some(order)
      {
        var m :| 0 <= m < |ys| && ys[m] == p;
        assert m != i ==> xs[m] == p;
        assert CarriesOrder(order)(p) <==> p.orderId == Some(order);
      }
      NoCounter(ys, order);
    } else {
      forall p | StatusOf(p) == Pending && p.orderId != Some(order)
        ensures p in xs <==> p in ys
      {
        if p in xs {
          UnlikeRecord(xs, ys, i, order, p);
        }
        if p in ys {
          UnlikeRecord(ys, xs, i, order, p);
        }
      }
      SameCounter(xs, ys, order, q);
    }
  }

  /** Filtering keeps records sole. */
  lemma {:induction false} FilterSole(xs: seq<Record>, keep: Record -> bool)
    requires Sole(xs)
    ensures Sole(Filter(xs, keep))
  {
    if xs != [] {
      var init, last := xs[..|xs| - 1], xs[|xs| - 1];
      assert Sole(init);
      FilterSole(init, keep);
      FilterMembers(init, keep);
      forall q | q in init
        ensures StatusOf(last) == Pending || StatusOf(q) == Pending ==> q.orderId != last.orderId
      {
        var m :| 0 <= m < |init| && init[m] == q;
        assert xs[m] == q;
      }
      SoleSnoc(Filter(init, keep), last);
    }
  }

  lemma SoleSnoc(xs: seq<Record>, p: Record)
    requires Sole(xs) && (StatusOf(p) == Pending ==> p.orderId.Some?)
    requires forall q :: q in xs && (StatusOf(p) == Pending || StatusOf(q) == Pending) ==> q.orderId != p.orderId
    ensures Sole(xs + [p]) && Sole(xs + [])
  {
    assert xs + [] == xs;
    var ys := xs + [p];
    assert forall i :: 0 <= i < |xs| ==> ys[i] == xs[i] && xs[i] in xs;
  }

  lemma RemovedCounter(xs: seq<Record>, order: string, q: string)
    requires Sole(xs)
    ensures Sole(RemovePending(xs, order))
    ensures Counter(RemovePending(xs, order), q) == if q == order then None else Counter(xs, q)
  {
    var keep := (p: Record) => !PendingOrder(order)(p);
    var ys := Filter(xs, keep);
    assert RemovePending(xs, order) == ys;
    FilterSole(xs, keep);
    FilterMembers(xs, keep);
    assert forall p :: p in ys <==> p in xs && keep(p);
    assert forall p :: PendingOrder(order)(p) <==> p.orderId == Some(order) && StatusOf(p) == Pending;
    if q == order {
      NoCounter(ys, order);
    } else {
      SameCounter(xs, ys, order, q);
    }
  }

  // ---------------------------------------------------------------- one turn, order by order

  /** The snapshots that a turn fetches. */
  function FetchedBy(block: Record, open: set<string>, size: real, c: Confirmation): seq<set<string>> {
    if Truthy(block.orderId) && block.orderId.value !in open && !Moved(size, block.baselineSize, SideOf(block))
       && Checks(block) == 0 && !c.NoOrders?
    then [c.open] else []
  }

  /** The loop goes on after a turn for a block that is settled, or has no order id. */
  predicate GoesOn(block: Record, open: set<string>, size: real, c: Confirmation) {
    Truthy(block.orderId) ==>
      && block.orderId.value !in open
      && (Moved(size, block.baselineSize, SideOf(block)) || Checks(block) > 0
          || (c.Confirmed? && block.orderId.value !in c.open))
  }

  /** The turn takes the order for gone, and in which size it then saw the position. */
  function SeenGoneAt(block: Record, open: set<string>, size: real, c: Confirmation): Option<real>
    requires block.orderId.Some?
  {
    var order, baseline, side := block.orderId.value, block.baselineSize, SideOf(block);
    if order in open || Moved(size, baseline, side) then None
    else if Checks(block) > 0 then Some(size)
    else if c.Confirmed? && order !in c.open && !Moved(c.size, baseline, side) then Some(c.size)
    else None
  }

  /** The counter that a turn leaves its order with. */
  function CounterLeft(block: Record, open: set<string>, size: real, c: Confirmation): Option<nat>
    requires block.orderId.Some?
  {
    if block.orderId.value in open then Some(0)
    else if GoesOn(block, open, size, c) then None
    else if c.Confirmed? then Some(0)
    else Some(1)
  }

  function FetchAll(w: World, fetched: seq<set<string>>): World {
    if fetched == [] then w else Fetch(FetchAll(w, fetched[..|fetched| - 1]), fetched[|fetched| - 1])
  }

  function RemovalBy(w: World, block: Record, open: set<string>, size: real, c: Confirmation): seq<Removal>
    requires block.orderId.Some?
  {
    var gone := SeenGoneAt(block, open, size, c);
    if gone.None? then []
    else [Removal(block.orderId.value, Absences(FetchAll(w, FetchedBy(block, open, size, c)), block.orderId.value),
                  gone.value, block.baselineSize, SideOf(block))]
  }

  lemma FetchOne(w: World, open: set<string>)
    ensures FetchAll(w, [open]) == Fetch(w, open) && FetchAll(w, []) == w
  {
    assert [open][..0] == [];
  }

  lemma ChecksCounted(xs: seq<Record>, order: string)
    ensures ChecksAfterIncrement(xs, order)
            == if Counter(xs, order).Some? then Some(Counter(xs, order).value + 1) else None
  {
  }

  /** What one turn does, for its own order and for the others. */
  lemma TurnOutcome(w: World, block: Record, open: set<string>, size: real, c: Confirmation, now: int, q: string)
    requires Sole(w.records) && Truthy(block.orderId) && Counter(w.records, block.orderId.value) == Some(Checks(block))
    ensures var (after, goOn) := HandleBlock(w, block, open, size, c, now);
            && Sole(after.records)
            && goOn == GoesOn(block, open, size, c)
            && after.absences == FetchAll(w, FetchedBy(block, open, size, c)).absences
            && after.removals == w.removals + RemovalBy(w, block, open, size, c)
            && Counter(after.records, q) ==
                 if q == block.orderId.value then CounterLeft(block, open, size, c) else Counter(w.records, q)
  {
    var order, xs := block.orderId.value, w.records;
    ShapeOfTurn(w, block, open, size, c);
    hide Sole, Counter, ResetMissing, MarkExecuted, RemovePending, Confirm, Moved, Fetch, FetchAll, FetchedBy;
    match Decide(block.orderId, open, Some(size), block.baselineSize, block.missingChecks, SideOf(block))
    case StillOpen => ResetCounter(xs, order, q);
    case WasExecuted => PromotedCounter(xs, order, now, q);
    case AwaitMoreEvidence => ConfirmOutcome(w, block, c, now, q);
    case ClearPending => RemovedCounter(xs, order, q);
  }

  /** The snapshots of a turn, case by case. */
  lemma ShapeOfTurn(w: World, block: Record, open: set<string>, size: real, c: Confirmation)
    requires Truthy(block.orderId)
    ensures var looked := block.orderId.value !in open && !Moved(size, block.baselineSize, SideOf(block))
                          && Checks(block) == 0 && !c.NoOrders?;
            FetchAll(w, FetchedBy(block, open, size, c)) == if looked then Fetch(w, c.open) else w
  {
    FetchOne(w, if c.NoOrders? then {} else c.open);
  }

  lemma ResetCounter(xs: seq<Record>, order: string, q: string)
    requires Sole(xs)
    ensures Sole(ResetMissing(xs, order))
    ensures Counter(ResetMissing(xs, order), q)
            == if q == order && Counter(xs, q).Some? then Some(0) else Counter(xs, q)
  {
    SetCounter(xs, order, n => 0, q);
  }

  lemma ConfirmOutcome(w: World, block: Record, c: Confirmation, now: int, q: string)
    requires Sole(w.records) && Truthy(block.orderId) && Counter(w.records, block.orderId.value) == Some(0)
    ensures var order := block.orderId.value;
            var (after, goOn) := Confirm(w, block, c, now);
            var absent := c.Confirmed? && order !in c.open;
            var seen := if c.NoOrders? then w else Fetch(w, c.open);
            && Sole(after.records)
            && goOn == absent
            && after.absences == seen.absences
            && after.removals == w.removals +
                 (if absent && !Moved(c.size, block.baselineSize, SideOf(block))
                  then [Removal(order, Absences(seen, order), c.size, block.baselineSize, SideOf(block))] else [])
            && Counter(after.records, q) ==
                 if q != order then Counter(w.records, q)
                 else if absent then None
                 else if c.Confirmed? then Some(0) else Some(1)
  {
    hide Sole, Counter, IncrementMissing, ResetMissing, MarkExecuted, RemovePending, Moved, ChecksAfterIncrement;
    var order, xs := block.orderId.value, w.records;
    var ys := IncrementMissing(xs, order);
    ChecksCounted(xs, order);
    IncrementCounter(xs, order, q);
    IncrementCounter(xs, order, order);
    if c.Confirmed? {
      if order in c.open {
        ResetCounter(ys, order, q);
      } else if Moved(c.size, block.baselineSize, SideOf(block)) {
        PromotedCounter(ys, order, now, q);
      } else {
        RemovedCounter(ys, order, q);
      }
    }
  }

  lemma IncrementCounter(xs: seq<Record>, order: string, q: string)
    requires Sole(xs)
    ensures Sole(IncrementMissing(xs, order))
    ensures Counter(IncrementMissing(xs, order), q) ==
            if q == order && Counter(xs, q).Some? then Some(Counter(xs, q).value + 1) else Counter(xs, q)
  {
    SetCounter(xs, order, n => n + 1, q);
  }

  // ---------------------------------------------------------------- which blocks

  /** A call for a detected trade loads exactly the pending records of its key, of the token that its key names, or of
      its market and outcome. */
  lemma BlocksExactly(xs: seq<Record>, marketId: string, outcome: string, key: string, p: Record)
    ensures p in PendingBlocks(xs, marketId, outcome, key)
            <==> p in xs && p.status == Some(Pending)
                 && (p.positionKey == Some(key)
                     || (p.tokenId.Some? && p.tokenId.value != "" && key == "token:" + p.tokenId.value)
                     || (p.marketId == marketId && p.outcome == outcome))
  {
    var concerns := (q: Record) => Concerns(q, marketId, outcome, key);
    FilterMembers(xs, concerns);
    assert PendingBlocks(xs, marketId, outcome, key) == Filter(xs, concerns);
  }

  // ---------------------------------------------------------------- exact outcomes

  ghost predicate FilledIn(xs: seq<Record>, order: string) {
    exists p :: p in xs && p.orderId == Some(order) && StatusOf(p) == Executed
  }

  /** The position was seen past the baseline while the order was absent, at once or, on a first absence, in
      the confirmation. */
  predicate SeenFilled(block: Record, open: set<string>, size: real, c: Confirmation)
    requires block.orderId.Some?
  {
    var order, baseline, side := block.orderId.value, block.baselineSize, SideOf(block);
    && order !in open
    && (Moved(size, baseline, side)
        || (Checks(block) == 0 && c.Confirmed? && order !in c.open && Moved(c.size, baseline, side)))
  }

  lemma NotFilled(xs: seq<Record>, order: string)
    requires Sole(xs) && Counter(xs, order).Some?
    ensures !FilledIn(xs, order)
  {
    var i := FindFirst(xs, PendingOrder(order));
    assert PendingOrder(order)(xs[i]);
    forall p | p in xs && StatusOf(p) == Executed
      ensures p.orderId != Some(order)
    {
      var j :| 0 <= j < |xs| && xs[j] == p;
      assert i != j;
    }
  }

  lemma PromotedFilled(xs: seq<Record>, order: string, now: int)
    requires Sole(xs) && Counter(xs, order).Some?
    ensures FilledIn(MarkExecuted(xs, order, now), order)
  {
    var ys, i := MarkExecuted(xs, order, now), FindFirst(xs, CarriesOrder(order));
    var p := CounterHas(xs, order);
    assert CarriesOrder(order)(p);
    assert CarriesOrder(order)(xs[i]);
    assert ys[i] in ys;
  }

  lemma RemovedNotFilled(xs: seq<Record>, order: string)
    requires Sole(xs) && Counter(xs, order).Some?
    ensures !FilledIn(RemovePending(xs, order), order)
  {
    NotFilled(xs, order);
    var keep := (p: Record) => !PendingOrder(order)(p);
    FilterMembers(xs, keep);
    assert RemovePending(xs, order) == Filter(xs, keep);
  }

  /** Handling a pending block fills it exactly if it was seen filled, removes it exactly if it was seen gone,
      and otherwise keeps it pending. */
  lemma OutcomeExact(w: World, block: Record, open: set<string>, size: real, c: Confirmation, now: int)
    requires Sole(w.records) && block in w.records && StatusOf(block) == Pending && Truthy(block.orderId)
    ensures var order, after := block.orderId.value, HandleBlock(w, block, open, size, c, now).0.records;
            && (FilledIn(after, order) <==> SeenFilled(block, open, size, c))
            && (Counter(after, order).None?
                <==> SeenFilled(block, open, size, c) || SeenGoneAt(block, open, size, c).Some?)
  {
    var order, after := block.orderId.value, HandleBlock(w, block, open, size, c, now).0.records;
    CounterOf(w.records, block);
    TurnOutcome(w, block, open, size, c, now, order);
    if Counter(after, order).Some? {
      NotFilled(after, order);
    } else {
      SettledOutcome(w, block, open, size, c, now);
    }
    hide HandleBlock, Counter, Sole, Moved, FilledIn;
  }

  /** The position is past the baseline of the order in the direction of its trade, by more than a millionth of a
      share. A missing baseline is 0 and a missing direction is a buy. */
  predicate PastBaseline(p: Record, size: real) {
    var baseline := match p.baselineSize case Some(b) => b case None => 0.0;
    if p.tradeSide == Some(Sell) then size < baseline - 0.000001 else size > baseline + 0.000001
  }

  lemma MovedIsPast(p: Record, size: real)
    ensures Moved(size, p.baselineSize, SideOf(p)) <==> PastBaseline(p, size)
  {
  }

  /** The outcome in numbers. An order in the snapshot keeps its block. Otherwise a position past the baseline fills
      it; if not, a block with a counted miss goes at once, and one without is looked at again: it stays when the
      look-up fails or shows the order, and else is filled or removed by the second size. */
  lemma OutcomeInNumbers(w: World, block: Record, open: set<string>, size: real, c: Confirmation, now: int)
    requires Sole(w.records) && block in w.records && StatusOf(block) == Pending && Truthy(block.orderId)
    ensures var order, after := block.orderId.value, HandleBlock(w, block, open, size, c, now).0.records;
            var filled, kept := FilledIn(after, order), Counter(after, order).Some?;
            if order in open then !filled && kept
            else if PastBaseline(block, size) then filled && !kept
            else if block.missingChecks.GetOr(0) > 0 then !filled && !kept
            else match c
                 case NoOrders => !filled && kept
                 case NoPosition(_) => !filled && kept
                 case Confirmed(open', size') =>
                   if order in open' then !filled && kept
                   else !kept && (filled <==> PastBaseline(block, size'))
  {
    OutcomeExact(w, block, open, size, c, now);
    MovedIsPast(block, size);
    if c.Confirmed? {
      MovedIsPast(block, c.size);
    }
    hide HandleBlock, FilledIn, Counter, Moved, PastBaseline;
  }

  lemma SettledOutcome(w: World, block: Record, open: set<string>, size: real, c: Confirmation, now: int)
    requires Sole(w.records) && Truthy(block.orderId) && Counter(w.records, block.orderId.value) == Some(Checks(block))
    requires CounterLeft(block, open, size, c).None?
    ensures FilledIn(HandleBlock(w, block, open, size, c, now).0.records, block.orderId.value)
            <==> SeenFilled(block, open, size, c)
  {
    hide Sole, Counter, FilledIn, IncrementMissing, ResetMissing, MarkExecuted, RemovePending, Moved,
      ChecksAfterIncrement;
    var order, xs := block.orderId.value, w.records;
    if Moved(size, block.baselineSize, SideOf(block)) {
      PromotedFilled(xs, order, now);
    } else if Checks(block) > 0 {
      RemovedNotFilled(xs, order);
    } else {
      var ys := IncrementMissing(xs, order);
      ChecksCounted(xs, order);
      IncrementCounter(xs, order, order);
      PromotedFilled(ys, order, now);
      RemovedNotFilled(ys, order);
    }
  }
}
