/**
 * The changes of the records that a call of the reconciliation makes, as operations of the
 * position store, and that they may follow any lawful history.
 */
module ReconciliationChanges {
  import opened Lists
  import opened Options
  import opened PositionStore
  import opened PositionMap
  import opened PositionRefinement
  import opened Reconciliation
  import opened ReconciliationTurns
  import Evidence = ReconciliationEvidence

  // ---------------------------------------------------------------- the changes that a call makes

  /** The changes of the records in one turn of the reconciliation's loop. */
  function TurnOps(block: Record, open: set<string>, size: real, c: Confirmation, now: int): seq<Op> {
    if !Truthy(block.orderId) then []
    else
      var order, baseline, side := block.orderId.value, block.baselineSize, SideOf(block);
      if order in open then [OpReset(order)]
      else if Moved(size, baseline, side) then [OpPromote(order, now)]
      else if Checks(block) > 0 then [OpRemove(order)]
      else if !c.Confirmed? then [OpIncrement(order)]
      else
        [OpIncrement(order),
         if order in c.open then OpReset(order)
         else if Moved(c.size, baseline, side) then OpPromote(order, now) else OpRemove(order)]
  }

  /** Those of the first n turns. */
  function TurnsOps(blocks: seq<Record>, a: Answers, n: nat): seq<Op>
    requires a.Answered? && n <= |blocks|
  {
    if n == 0 then []
    else TurnsOps(blocks, a, n - 1) + TurnOps(blocks[n - 1], a.open, a.size, a.confirm(n - 1), a.at(n - 1))
  }

  /** Those of a call. */
  function CallOps(blocks: seq<Record>, a: Answers): seq<Op> {
    if a.Answered? then TurnsOps(blocks, a, Evidence.Turns(blocks, a, 0)) else []
  }

  lemma LawfulSnoc(ops: seq<Op>, op: Op)
    requires Lawful(ops) && MayFollow(ops, op)
    ensures Lawful(ops + [op]) && ListAfter(ops + [op]) == ListStep(ListAfter(ops), op)
    ensures PositionMap.Filled(ops + [op]) == PositionMap.Filled(ops) + FilledBy(op, MapAfter(ops, KeyOf(op)))
    ensures Used(ops + [op]) == Used(ops) + UsedBy(op)
  {
    var v := ops + [op];
    OrdersSnoc(ops, op);
    assert v[..|ops|] == ops;
    forall i | 0 <= i < |v|
      ensures MayFollow(v[..i], v[i])
    {
      assert v[..i] == ops[..i];
      assert i < |ops| ==> MayFollow(ops[..i], ops[i]);
    }
  }

  /** After a lawful sequence a pending record names an order of its own. */
  lemma SoleAfter(ops: seq<Op>)
    requires Lawful(ops)
    ensures Sole(ListAfter(ops))
    ensures forall p :: p in ListAfter(ops) && StatusOf(p) == Pending ==>
              p.orderId.Some? && p.orderId.value !in PositionMap.Filled(ops)
    ensures forall p :: p in ListAfter(ops) && p.orderId.Some? ==> p.orderId.value in Used(ops)
  {
    HistoryOk(ops);
    var xs := ListAfter(ops);
    assert forall i :: 0 <= i < |xs| ==> xs[i] in xs;
  }

  /** The operation settles the order or counts its absences. */
  predicate Concerning(op: Op, order: string) {
    match op
    case OpPromote(id, _) => id == order
    case OpRemove(id) => id == order
    case OpIncrement(id) => id == order
    case OpReset(id) => id == order
    case _ => false
  }

  /** It leaves the records of other orders in the list. */
  lemma StepKeeps(xs: seq<Record>, op: Op, order: string, q: Record)
    requires Concerning(op, order) && q in xs && q.orderId != Some(order)
    ensures q in ListStep(xs, op)
  {
    match op
    case OpReset(_) => UnlikeKept(xs, order, n => 0, q);
    case OpIncrement(_) => UnlikeKept(xs, order, n => n + 1, q);
    case OpRemove(_) =>
      var keep := (p: Record) => !PendingOrder(order)(p);
      FilterMembers(xs, keep);
      assert RemovePending(xs, order) == Filter(xs, keep);
      assert !PendingOrder(order)(q);
    case OpPromote(_, now) =>
      var i := FindFirst(xs, CarriesOrder(order));
      assert i < |xs| ==> CarriesOrder(order)(xs[i]);
      UnlikeRecord(xs, MarkExecuted(xs, order, now), i, order, q);
  }

  lemma UnlikeKept(xs: seq<Record>, order: string, f: nat -> nat, q: Record)
    requires q in xs && q.orderId != Some(order)
    ensures q in SetMissingChecks(xs, order, f)
  {
    var i := FindFirst(xs, PendingOrder(order));
    assert i < |xs| ==> PendingOrder(order)(xs[i]);
    SetMissingMembers(xs, order, f);
    UnlikeRecord(xs, SetMissingChecks(xs, order, f), i, order, q);
  }

  // ---------------------------------------------------------------- one turn

  /** Where ops stands after an operation that concerns the order. */
  lemma ConcerningSnoc(ops: seq<Op>, op: Op, order: string)
    requires Lawful(ops) && MayFollow(ops, op) && Concerning(op, order)
    ensures Lawful(ops + [op]) && ListAfter(ops + [op]) == ListStep(ListAfter(ops), op)
    ensures !op.OpPromote? ==> PositionMap.Filled(ops + [op]) == PositionMap.Filled(ops)
    ensures forall q :: q in ListAfter(ops) && q.orderId != Some(order) ==> q in ListAfter(ops + [op])
  {
    LawfulSnoc(ops, op);
    forall q | q in ListAfter(ops) && q.orderId != Some(order)
      ensures q in ListAfter(ops + [op])
    {
      StepKeeps(ListAfter(ops), op, order, q);
    }
    hide ListStep, ListAfter, Lawful;
  }

  /** The operations of a turn are lawful, concern its order alone, and are what the turn does. */
  lemma TurnLawful(w: World, ops: seq<Op>, block: Record, open: set<string>, size: real, c: Confirmation, now: int)
    requires Lawful(ops) && w.records == ListAfter(ops) && NotBefore(ops, now)
    requires block in w.records && StatusOf(block) == Pending && Truthy(block.orderId)
    ensures var order := block.orderId.value;
            var more := ops + TurnOps(block, open, size, c, now);
            && Lawful(more)
            && HandleBlock(w, block, open, size, c, now).0.records == ListAfter(more)
            && (forall q :: q in ListAfter(ops) && q.orderId != Some(order) ==> q in ListAfter(more))
  {
    hide HandleBlock, TurnOps, ListAfter, ListStep, Sole, Counter, PositionMap.Filled, Lawful, NotBefore;
    SoleAfter(ops);
    CounterOf(w.records, block);
    var order, turn := block.orderId.value, TurnOps(block, open, size, c, now);
    TurnIsItsOps(w, block, open, size, c, now);
    ConcerningSnoc(ops, turn[0], order);
    if |turn| == 1 {
      assert turn == [turn[0]];
    } else {
      var mid := ops + [turn[0]];
      assert turn == [turn[0], turn[1]] && ops + turn == mid + [turn[1]];
      NotBeforeSnoc(ops, turn[0], now);
      ConcerningSnoc(mid, turn[1], order);
    }
  }

  lemma NotBeforeSnoc(ops: seq<Op>, op: Op, now: int)
    requires NotBefore(ops, now) && (TimeOf(op).Some? ==> TimeOf(op).value <= now)
    ensures NotBefore(ops + [op], now)
  {
  }

  lemma TurnIsItsOps(w: World, block: Record, open: set<string>, size: real, c: Confirmation, now: int)
    requires Truthy(block.orderId) && Counter(w.records, block.orderId.value) == Some(Checks(block))
    ensures var turn := TurnOps(block, open, size, c, now);
            && 1 <= |turn| <= 2
            && (forall i :: 0 <= i < |turn| ==> Concerning(turn[i], block.orderId.value))
            && (forall i :: 0 <= i < |turn| ==> TimeOf(turn[i]).Some? ==> TimeOf(turn[i]) == Some(now))
            && (|turn| == 2 ==> turn[0].OpIncrement?)
            && HandleBlock(w, block, open, size, c, now).0.records ==
                 var one := ListStep(w.records, turn[0]);
                 if |turn| == 1 then one else ListStep(one, turn[1])
  {
    ChecksCounted(w.records, block.orderId.value);
    hide Counter, MarkExecuted, RemovePending, IncrementMissing, ResetMissing, Moved, ChecksAfterIncrement;
  }

  // ---------------------------------------------------------------- one call

  /** The clock during a call runs on from the history before it. */
  ghost predicate Clocked(ops: seq<Op>, a: Answers)
    requires a.Answered?
  {
    && NotBefore(ops, a.at(0))
    && forall i: nat, j: nat :: i <= j ==> a.at(i) <= a.at(j)
  }

  /** Between w and r a block of the order was removed. */
  ghost predicate RemovedBetween(w: World, r: World, order: string) {
    exists x :: |w.removals| <= x < |r.removals| && r.removals[x].order == order
  }

  /** Turn m removes its block. */
  predicate Gone(blocks: seq<Record>, a: Answers, m: nat)
    requires a.Answered? && m < |blocks|
  {
    Truthy(blocks[m].orderId) && SeenGoneAt(blocks[m], a.open, a.size, a.confirm(m)).Some?
  }

  /** After n turns the records are what the turns' operations leave, and the blocks still to come are in them. */
  ghost predicate Writes(ops: seq<Op>, blocks: seq<Record>, a: Answers, n: nat, r: World)
    requires a.Answered? && n <= |blocks|
  {
    var more := ops + TurnsOps(blocks, a, n);
    && Lawful(more) && r.records == ListAfter(more) && NotBefore(more, a.at(n))
    && forall m :: n <= m < |blocks| ==> blocks[m] in r.records
  }

  /** The first n turns removed the blocks that they took for gone. */
  ghost predicate Removes(w: World, blocks: seq<Record>, a: Answers, n: nat, r: World)
    requires a.Answered? && n <= |blocks|
  {
    && w.removals <= r.removals
    && forall m :: 0 <= m < n && Gone(blocks, a, m) ==> RemovedBetween(w, r, blocks[m].orderId.value)
  }

  lemma {:induction false} TurnsReach(w: World, ops: seq<Op>, blocks: seq<Record>, a: Answers, n: nat)
    requires Lawful(ops) && w.records == ListAfter(ops) && Evidence.Loaded(w.records, blocks)
    requires a.Answered? && Clocked(ops, a) && n <= |blocks|
    requires forall m: nat :: m < n - 1 ==> Evidence.TurnGoesOn(blocks, a, m)
    ensures var (r, goOn) := Reconciled(Fetch(w, a.open), blocks, a, n);
            && Writes(ops, blocks, a, n, r) && Removes(w, blocks, a, n, r)
            && goOn == (n > 0 ==> Evidence.TurnGoesOn(blocks, a, n - 1))
  {
    if n == 0 {
      assert ops + [] == ops;
      assert forall m :: 0 <= m < |blocks| ==> blocks[m] in blocks;
      return;
    }
    hide Lawful, ListAfter, Writes, Removes, Evidence.Loaded, Clocked, HandleBlock, Fetch;
    TurnsReach(w, ops, blocks, a, n - 1);
    var (before, goOn) := Reconciled(Fetch(w, a.open), blocks, a, n - 1);
    assert goOn;
    TurnWrites(w, ops, blocks, a, n - 1, before);
    TurnRemoves(w, ops, blocks, a, n - 1, before);
  }

  lemma TurnWrites(w: World, ops: seq<Op>, blocks: seq<Record>, a: Answers, n: nat, before: World)
    requires Evidence.Loaded(w.records, blocks) && a.Answered? && Clocked(ops, a)
    requires n < |blocks| && Writes(ops, blocks, a, n, before)
    ensures Writes(ops, blocks, a, n + 1,
                   HandleBlock(before, blocks[n], a.open, a.size, a.confirm(n), a.at(n)).0)
  {
    hide HandleBlock, Lawful, ListAfter, TurnOps, NotBefore;
    var block, c := blocks[n], a.confirm(n);
    var done, turn := ops + TurnsOps(blocks, a, n), TurnOps(block, a.open, a.size, c, a.at(n));
    assert block in blocks;
    assert ops + TurnsOps(blocks, a, n + 1) == done + turn;
    TurnTimes(done, block, a.open, a.size, c, a.at(n), a.at(n + 1));
    if !Truthy(block.orderId) {
      NoTurn(before, block, a.open, a.size, c, a.at(n));
      assert done + [] == done;
    } else {
      TurnLawful(before, done, block, a.open, a.size, c, a.at(n));
    }
  }

  lemma NoTurn(w: World, block: Record, open: set<string>, size: real, c: Confirmation, now: int)
    requires !Truthy(block.orderId)
    ensures HandleBlock(w, block, open, size, c, now) == (w, true) && TurnOps(block, open, size, c, now) == []
  {
  }

  lemma TurnRemoves(w: World, ops: seq<Op>, blocks: seq<Record>, a: Answers, n: nat, before: World)
    requires Evidence.Loaded(w.records, blocks) && a.Answered?
    requires n < |blocks| && Writes(ops, blocks, a, n, before) && Removes(w, blocks, a, n, before)
    ensures var (r, goOn) := HandleBlock(before, blocks[n], a.open, a.size, a.confirm(n), a.at(n));
            Removes(w, blocks, a, n + 1, r) && goOn == Evidence.TurnGoesOn(blocks, a, n)
  {
    hide HandleBlock, ListAfter, Lawful, Sole, TurnsOps, SeenGoneAt, GoesOn, RemovalBy, RemovedBetween, NotBefore;
    var block, c := blocks[n], a.confirm(n);
    assert block in blocks;
    SoleAfter(ops + TurnsOps(blocks, a, n));
    if !Truthy(block.orderId) {
      NoTurn(before, block, a.open, a.size, c, a.at(n));
      SkipGoesOn(block, a.open, a.size, c);
    } else {
      TurnRemoval(before, block, a.open, a.size, c, a.at(n));
      RemovalsGrow(w, before, HandleBlock(before, block, a.open, a.size, c, a.at(n)).0, blocks, a, n);
    }
  }

  lemma TurnRemoval(w: World, block: Record, open: set<string>, size: real, c: Confirmation, now: int)
    requires Sole(w.records) && block in w.records && StatusOf(block) == Pending && Truthy(block.orderId)
    ensures var (r, goOn) := HandleBlock(w, block, open, size, c, now);
            r.removals == w.removals + RemovalBy(w, block, open, size, c) && goOn == GoesOn(block, open, size, c)
  {
    CounterOf(w.records, block);
    TurnOutcome(w, block, open, size, c, now, "");
    hide HandleBlock, Sole, Counter, GoesOn, RemovalBy, FetchAll, FetchedBy, CounterLeft;
  }

  lemma SkipGoesOn(block: Record, open: set<string>, size: real, c: Confirmation)
    requires !Truthy(block.orderId)
    ensures GoesOn(block, open, size, c)
  {
  }

  lemma TurnTimes(ops: seq<Op>, block: Record, open: set<string>, size: real, c: Confirmation, now: int, later: int)
    requires NotBefore(ops, now) && now <= later
    ensures NotBefore(ops + TurnOps(block, open, size, c, now), later)
  {
  }

  lemma RemovalsGrow(w: World, before: World, r: World, blocks: seq<Record>, a: Answers, n: nat)
    requires a.Answered? && n < |blocks| && Truthy(blocks[n].orderId) && w.removals <= before.removals
    requires r.removals == before.removals + RemovalBy(before, blocks[n], a.open, a.size, a.confirm(n))
    ensures w.removals <= r.removals
    ensures forall order :: RemovedBetween(w, before, order) ==> RemovedBetween(w, r, order)
    ensures Gone(blocks, a, n) ==> RemovedBetween(w, r, blocks[n].orderId.value)
  {
    forall order | RemovedBetween(w, before, order)
      ensures RemovedBetween(w, r, order)
    {
      var x :| |w.removals| <= x < |before.removals| && before.removals[x].order == order;
      assert r.removals[x].order == order;
    }
    if Gone(blocks, a, n) {
      assert r.removals[|before.removals|].order == blocks[n].orderId.value;
    }
  }

  /** The answered call, by its turns. */
  lemma AnsweredLawful(w: World, ops: seq<Op>, blocks: seq<Record>, a: Answers)
    requires Lawful(ops) && w.records == ListAfter(ops) && Evidence.Loaded(w.records, blocks)
    requires a.Answered? && blocks != [] && Clocked(ops, a)
    ensures var n := Evidence.Turns(blocks, a, 0);
            Writes(ops, blocks, a, n, AfterCall(w, blocks, a)) && Removes(w, blocks, a, n, AfterCall(w, blocks, a))
  {
    hide ListAfter, Lawful, Evidence.Loaded, Clocked, Reconciled, Writes, Removes, Fetch;
    var n := Evidence.Turns(blocks, a, 0);
    TurnsReach(w, ops, blocks, a, n);
    if n < |blocks| {
      ReconciledStops(Fetch(w, a.open), blocks, a, n, |blocks|);
    }
  }

  /** A call makes its changes lawfully. */
  lemma CallLawful(w: World, ops: seq<Op>, blocks: seq<Record>, a: Answers)
    requires Lawful(ops) && w.records == ListAfter(ops) && Evidence.Loaded(w.records, blocks)
    requires a.Answered? ==> Clocked(ops, a)
    ensures Lawful(ops + CallOps(blocks, a)) && AfterCall(w, blocks, a).records == ListAfter(ops + CallOps(blocks, a))
    ensures a.Answered? ==> Removes(w, blocks, a, Evidence.Turns(blocks, a, 0), AfterCall(w, blocks, a))
  {
    hide ListAfter, Lawful, Evidence.Loaded, Clocked, Reconciled, NotBefore, TurnsOps;
    assert ops + [] == ops;
    if a.Answered? && blocks != [] {
      AnsweredLawful(w, ops, blocks, a);
      hide Removes, AfterCall;
    } else if a.Answered? {
      NoTurns(a);
    }
  }

  lemma NoTurns(a: Answers)
    requires a.Answered?
    ensures CallOps([], a) == []
  {
  }
}
