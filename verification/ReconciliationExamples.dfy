/** Calls of the reconciliation that overlook an order their own snapshots show open. */
module ReconciliationExamples {
  import opened Lists
  import opened Options
  import opened Sides
  import opened PositionStore
  import opened Reconciliation
  import opened ReconciliationTurns

  // ---------------------------------------------------------------- calls that do not heed

  lemma LoneList(p: Record, f: nat -> nat)
    requires StatusOf(p) == Pending && p.orderId.Some?
    ensures SetMissingChecks([p], p.orderId.value, f) == [p.(missingChecks := Some(f(Checks(p))))]
    ensures RemovePending([p], p.orderId.value) == []
    ensures ChecksAfterIncrement([p], p.orderId.value) == Some(Checks(p) + 1)
  {
    var order := p.orderId.value;
    assert PendingOrder(order)(p);
    var keep := (r: Record) => !PendingOrder(order)(r);
    assert RemovePending([p], order) == Filter([p], keep);
    assert [p][..0] == [] && [p][0] == p && !keep(p);
    assert Filter([p], keep) == Filter([], keep) + [];
    assert FindFirst([p], PendingOrder(order)) == 0;
  }

  /** A call for one block makes one turn. */
  lemma LoneCall(w: World, block: Record, a: Answers)
    requires a.Answered?
    ensures AfterCall(w, [block], a) == HandleBlock(Fetch(w, a.open), block, a.open, a.size, a.confirm(0), a.at(0)).0
  {
    assert Reconciled(Fetch(w, a.open), [block], a, 0) == (Fetch(w, a.open), true);
  }

  /** Any pending block of a buy without a baseline, whose order was missed n times. */
  function Waiting(order: string, side: Side, missed: nat): Record {
    PendingRecord("m", "YES", order, None, None, Some(side), Some("k"), 0).(missingChecks := Some(missed))
  }

  /** A block missed once whose order was just seen open goes with its next absence. */
  lemma NextAbsenceRemoves(at: nat -> int)
    ensures AfterCall(World([Waiting("o", Buy, 1)], map["o" := 0], []), [Waiting("o", Buy, 1)],
                      Answered({}, 0.0, i => NoOrders, at)).removals
            == [Removal("o", 1, 0.0, None, Buy)]
  {
    var p := Waiting("o", Buy, 1);
    LoneList(p, n => 0);
    LoneCall(World([p], map["o" := 0], []), p, Answered({}, 0.0, i => NoOrders, at));
  }

  /** The order is absent, and the confirming snapshot shows it open but the position look-up then fails. */
  lemma FailedConfirmation(at: nat -> int)
    ensures AfterCall(World([Waiting("o", Buy, 0)], map["o" := 0], []), [Waiting("o", Buy, 0)],
                      Answered({}, 0.0, i => NoPosition({"o"}), at))
            == World([Waiting("o", Buy, 1)], map["o" := 0], [])
  {
    var p := Waiting("o", Buy, 0);
    LoneList(p, n => n + 1);
    LoneCall(World([p], map["o" := 0], []), p, Answered({}, 0.0, i => NoPosition({"o"}), at));
  }

  /** The order is absent and the confirmation fails; the first snapshot of the next call shows it open, but the
      position look-up then fails before the loop. */
  lemma FailedFirstLookUp(at: nat -> int)
    ensures var once := AfterCall(World([Waiting("o", Buy, 0)], map["o" := 0], []), [Waiting("o", Buy, 0)],
                                  Answered({}, 0.0, i => NoOrders, at));
            && once == World([Waiting("o", Buy, 1)], map["o" := 1], [])
            && AfterCall(once, [Waiting("o", Buy, 1)], OnlySnapshot({"o"}))
               == World([Waiting("o", Buy, 1)], map["o" := 0], [])
  {
    var p := Waiting("o", Buy, 0);
    LoneList(p, n => n + 1);
    LoneCall(World([p], map["o" := 0], []), p, Answered({}, 0.0, i => NoOrders, at));
  }

  /** One snapshot shows two orders open; the loop returns at the first and leaves the second its counted miss. */
  lemma EarlyReturn(at: nat -> int)
    ensures var xs := [Waiting("o", Buy, 0), Waiting("q", Sell, 1)];
            AfterCall(World(xs, map["o" := 0, "q" := 1], []), xs, Answered({"o", "q"}, 0.0, i => NoOrders, at))
            == World(xs, map["o" := 0, "q" := 0], [])
  {
    var p, q := Waiting("o", Buy, 0), Waiting("q", Sell, 1);
    var a := Answered({"o", "q"}, 0.0, i => NoOrders, at);
    var w := Fetch(World([p, q], map["o" := 0, "q" := 1], []), a.open);
    assert PendingOrder("o")(p);
    assert ResetMissing([p, q], "o") == [p, q];
    assert Reconciled(w, [p, q], a, 0) == (w, true);
    assert !Reconciled(w, [p, q], a, 1).1;
  }

  lemma TwoWaiting()
    ensures var p, q := Waiting("o", Buy, 0), Waiting("q", Buy, 1);
            Sole([p, q]) && Counter([p, q], "o") == Some(0) && Counter([p, q], "q") == Some(1)
  {
    var p, q := Waiting("o", Buy, 0), Waiting("q", Buy, 1);
    assert p in [p, q] && q in [p, q];
    CounterOf([p, q], p);
    CounterOf([p, q], q);
  }

  /** The turn of the first block: absent twice, it goes, and the second is shown open meanwhile. */
  lemma FirstGoes(w: World, now: int)
    requires w.records == [Waiting("o", Buy, 0), Waiting("q", Buy, 1)] && w.absences == map["o" := 1, "q" := 2]
             && w.removals == []
    ensures var (r, goOn) := HandleBlock(w, Waiting("o", Buy, 0), {}, 0.0, Confirmed({"q"}, 0.0), now);
            && goOn && Sole(r.records) && Counter(r.records, "q") == Some(1) && Absences(r, "q") == 0
            && r.removals == [Removal("o", 2, 0.0, None, Buy)]
  {
    var p := Waiting("o", Buy, 0);
    TwoWaiting();
    TurnOutcome(w, p, {}, 0.0, Confirmed({"q"}, 0.0), now, "q");
    FetchOne(w, {"q"});
    hide HandleBlock, Counter, Sole, FetchAll;
    assert FetchedBy(p, {}, 0.0, Confirmed({"q"}, 0.0)) == [{"q"}];
  }

  /** The turn of a block with a counted miss and no absence since its order was seen. */
  lemma SecondGoes(w: World, c: Confirmation, now: int)
    requires Sole(w.records) && Counter(w.records, "q") == Some(1) && Absences(w, "q") == 0
    ensures HandleBlock(w, Waiting("q", Buy, 1), {}, 0.0, c, now).0.removals
            == w.removals + [Removal("q", 0, 0.0, None, Buy)]
  {
    var q := Waiting("q", Buy, 1);
    TurnOutcome(w, q, {}, 0.0, c, now, "q");
    FetchOne(w, {});
    hide HandleBlock, Counter, Sole, FetchAll;
    assert FetchedBy(q, {}, 0.0, c) == [];
  }

  /** Two blocks are absent from the first snapshot; the confirmation for one shows the other open, which is removed
      all the same. */
  lemma StaleSnapshot(at: nat -> int)
    ensures var xs := [Waiting("o", Buy, 0), Waiting("q", Buy, 1)];
            AfterCall(World(xs, map["o" := 0, "q" := 1], []), xs,
                      Answered({}, 0.0, i => Confirmed({"q"}, 0.0), at)).removals
            == [Removal("o", 2, 0.0, None, Buy), Removal("q", 0, 0.0, None, Buy)]
  {
    var p, q := Waiting("o", Buy, 0), Waiting("q", Buy, 1);
    var a := Answered({}, 0.0, i => Confirmed({"q"}, 0.0), at);
    var w := Fetch(World([p, q], map["o" := 0, "q" := 1], []), {});
    var (r, goOn) := HandleBlock(w, p, {}, 0.0, a.confirm(0), at(0));
    FirstGoes(w, at(0));
    SecondGoes(r, a.confirm(1), at(1));
    hide HandleBlock, Counter, Sole;
    assert Reconciled(w, [p, q], a, 0) == (w, true);
    assert Reconciled(w, [p, q], a, 1) == (r, goOn);
  }
}
