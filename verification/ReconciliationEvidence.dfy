/**
 * Exactly which calls of the reconciliation keep the counters within the absences seen and
 * remove only blocks whose order was absent twice, over one call and over histories.
 */
module ReconciliationEvidence {
  import opened Lists
  import opened Options
  import opened Sides
  import opened PositionStore
  import opened PositionMap
  import opened PositionRefinement
  import opened Reconciliation
  import opened ReconciliationTurns

  // ---------------------------------------------------------------- the invariant

  /** The position had not moved when the block was removed, and two absences were seen. */
  predicate Justified(r: Removal) {
    r.absences >= 2 && !Moved(r.size, r.baseline, r.side)
  }

  /** The stored counter of a pending order never exceeds the absences seen. */
  ghost predicate CountsOk(w: World) {
    forall p :: p in w.records && StatusOf(p) == Pending && p.orderId.Some? ==>
      Checks(p) <= Absences(w, p.orderId.value)
  }

  /** Every pending order is tracked and was missed at most once. */
  ghost predicate ShapeOk(w: World) {
    && Sole(w.records)
    && forall order :: Counter(w.records, order).Some? ==> order in w.absences && Counter(w.records, order).value <= 1
  }

  predicate AllJustified(removals: seq<Removal>) {
    forall r :: r in removals ==> Justified(r)
  }

  ghost predicate WorldOk(w: World) {
    && ShapeOk(w)
    && CountsOk(w)
    && AllJustified(w.removals)
  }

  /** The same, order by order. */
  ghost predicate CountersOk(w: World) {
    forall order :: Counter(w.records, order).Some? ==> Counter(w.records, order).value <= Absences(w, order)
  }

  lemma CountsByOrder(w: World)
    requires Sole(w.records)
    ensures CountsOk(w) <==> CountersOk(w)
  {
    if CountsOk(w) {
      forall order | Counter(w.records, order).Some?
        ensures Counter(w.records, order).value <= Absences(w, order)
      {
        var p := CounterHas(w.records, order);
      }
    }
    if CountersOk(w) {
      forall p | p in w.records && StatusOf(p) == Pending && p.orderId.Some?
        ensures Checks(p) <= Absences(w, p.orderId.value)
      {
        CounterOf(w.records, p);
      }
    }
  }

  // ---------------------------------------------------------------- which calls keep the invariant

  /** The snapshots that a call has fetched after n turns. */
  function Fetched(blocks: seq<Record>, a: Answers, n: nat): (fetched: seq<set<string>>)
    requires a.Answered? && n <= |blocks|
    ensures fetched != [] && fetched[0] == a.open
  {
    if n == 0 then [a.open] else Fetched(blocks, a, n - 1) + FetchedBy(blocks[n - 1], a.open, a.size, a.confirm(n - 1))
  }

  predicate TurnGoesOn(blocks: seq<Record>, a: Answers, i: nat)
    requires a.Answered? && i < |blocks|
  {
    GoesOn(blocks[i], a.open, a.size, a.confirm(i))
  }

  /** How many turns the loop makes, of which i are made. */
  function Turns(blocks: seq<Record>, a: Answers, i: nat): (n: nat)
    requires a.Answered? && i <= |blocks|
    ensures i <= n <= |blocks|
    ensures forall m: nat :: i <= m < n - 1 ==> TurnGoesOn(blocks, a, m)
    ensures n < |blocks| ==> i < n && !TurnGoesOn(blocks, a, n - 1)
    decreases |blocks| - i
  {
    if i == |blocks| then i else if TurnGoesOn(blocks, a, i) then Turns(blocks, a, i + 1) else i + 1
  }

  /** One of the last n of these snapshots shows the order open. */
  predicate Recent(fetched: seq<set<string>>, n: nat, order: string) {
    exists i :: 0 <= i < |fetched| && |fetched| - n <= i && order in fetched[i]
  }

  /** The turn does not count or remove an order that was just seen open: with one counted miss it must not be in
      the last two snapshots of the call, with none not in the last one before a confirmation that fails or finds it
      absent, nor in a confirmation whose position look-up fails. */
  predicate TurnHeeds(block: Record, fetched: seq<set<string>>, open: set<string>, size: real, c: Confirmation) {
    Truthy(block.orderId) ==>
      var order, baseline, side := block.orderId.value, block.baselineSize, SideOf(block);
      || order in open
      || Moved(size, baseline, side)
      || (if Checks(block) > 0 then !Recent(fetched, 2, order)
          else match c
               case NoOrders => !Recent(fetched, 1, order)
               case NoPosition(seen) => order !in seen
               case Confirmed(seen, size') =>
                 order in seen || Moved(size', baseline, side) || !Recent(fetched, 1, order))
  }

  /** One of the first n turns was for this order. */
  ghost predicate Done(blocks: seq<Record>, n: nat, order: string)
    requires n <= |blocks|
  {
    exists i :: 0 <= i < n && Truthy(blocks[i].orderId) && blocks[i].orderId == Some(order)
  }

  /** The last snapshot of the call shows no order open that has a counted miss, unless its turn came. */
  ghost predicate RestHeeds(xs: seq<Record>, blocks: seq<Record>, n: nat, last: set<string>)
    requires n <= |blocks|
  {
    forall p :: p in xs && StatusOf(p) == Pending && p.orderId.Some? && Checks(p) > 0 && p.orderId.value in last ==>
      Done(blocks, n, p.orderId.value)
  }

  /** Whether a call heeds every order that its snapshots show open. */
  ghost predicate CallHeeds(w: World, blocks: seq<Record>, a: Answers) {
    || blocks == []
    || match a
       case NoSnapshot => true
       case OnlySnapshot(open) => RestHeeds(w.records, blocks, 0, open)
       case Answered(_, _, _, _) =>
         var n := Turns(blocks, a, 0);
         && TurnsHeed(blocks, a, n)
         && RestHeeds(w.records, blocks, n, Fetched(blocks, a, n)[|Fetched(blocks, a, n)| - 1])
  }

  ghost predicate TurnsHeed(blocks: seq<Record>, a: Answers, n: nat)
    requires a.Answered? && n <= |blocks|
  {
    forall i :: 0 <= i < n ==> TurnHeeds(blocks[i], Fetched(blocks, a, i), a.open, a.size, a.confirm(i))
  }

  /** The blocks are copies of pending records, of one order each. */
  ghost predicate Loaded(xs: seq<Record>, blocks: seq<Record>) {
    && (forall b :: b in blocks ==> b in xs && StatusOf(b) == Pending)
    && (forall i, j :: 0 <= i < j < |blocks| ==> blocks[i].orderId != blocks[j].orderId)
  }

  // ---------------------------------------------------------------- absences

  /** Snapshots without the order since the last with it; `start` counts those before. */
  function Since(start: nat, fetched: seq<set<string>>, order: string): nat {
    if fetched == [] then start
    else if order in fetched[|fetched| - 1] then 0
    else Since(start, fetched[..|fetched| - 1], order) + 1
  }

  lemma {:induction false} FetchAllSince(w: World, fetched: seq<set<string>>, order: string)
    ensures FetchAll(w, fetched).absences.Keys == w.absences.Keys
    ensures order in w.absences ==> Absences(FetchAll(w, fetched), order) == Since(w.absences[order], fetched, order)
    ensures FetchAll(w, fetched).records == w.records && FetchAll(w, fetched).removals == w.removals
  {
    if fetched != [] {
      FetchAllSince(w, fetched[..|fetched| - 1], order);
    }
  }

  lemma {:induction false} SinceAppend(start: nat, fetched: seq<set<string>>, more: seq<set<string>>, order: string)
    ensures Since(start, fetched + more, order) == Since(Since(start, fetched, order), more, order)
  {
    if more == [] {
      assert fetched + more == fetched;
    } else {
      SinceAppend(start, fetched, more[..|more| - 1], order);
      assert (fetched + more)[..|fetched + more| - 1] == fetched + more[..|more| - 1];
    }
  }

  lemma RecentLast(fetched: seq<set<string>>, order: string)
    requires fetched != []
    ensures Recent(fetched, 1, order) <==> order in fetched[|fetched| - 1]
    ensures Recent(fetched, 2, order) <==>
              order in fetched[|fetched| - 1] || (|fetched| > 1 && order in fetched[|fetched| - 2])
  {
    assert Recent(fetched, 1, order) <== order in fetched[|fetched| - 1];
    if |fetched| > 1 && order in fetched[|fetched| - 2] {
      assert Recent(fetched, 2, order);
    }
  }

  /** How the guards read the count of absences. */
  lemma SinceRecent(start: nat, fetched: seq<set<string>>, order: string)
    requires fetched != []
    ensures Since(start, fetched, order) >= 1 <==> !Recent(fetched, 1, order)
    ensures start >= 1 && order !in fetched[0] ==> (Since(start, fetched, order) >= 2 <==> !Recent(fetched, 2, order))
  {
    RecentLast(fetched, order);
    if |fetched| > 1 {
      var init := fetched[..|fetched| - 1];
      assert init[|init| - 1] == fetched[|fetched| - 2];
    } else {
      assert fetched[..0] == [];
    }
  }

  lemma SinceOneMore(start: nat, fetched: seq<set<string>>, seen: set<string>, order: string)
    ensures Since(start, fetched + [seen], order) == if order in seen then 0 else Since(start, fetched, order) + 1
  {
    assert (fetched + [seen])[..|fetched|] == fetched;
  }

  // ---------------------------------------------------------------- the guard of a turn is exact

  /** The removal of a turn, if any, is justified, and the counter it leaves, if any, is within the absences, just
      if the turn heeds what was seen. */
  lemma TurnExact(block: Record, start: nat, fetched: seq<set<string>>, open: set<string>, size: real, c: Confirmation)
    requires Truthy(block.orderId) && fetched != [] && fetched[0] == open && Checks(block) <= start
    ensures var order := block.orderId.value;
            var absences := Since(start, fetched + FetchedBy(block, open, size, c), order);
            TurnHeeds(block, fetched, open, size, c)
            <==> (SeenGoneAt(block, open, size, c).Some? ==> absences >= 2)
                 && (CounterLeft(block, open, size, c).Some? ==> CounterLeft(block, open, size, c).value <= absences)
    ensures SeenGoneAt(block, open, size, c).Some? ==>
              !Moved(SeenGoneAt(block, open, size, c).value, block.baselineSize, SideOf(block))
  {
    var order := block.orderId.value;
    assert fetched + [] == fetched;
    SinceRecent(start, fetched, order);
    if !c.NoOrders? {
      SinceOneMore(start, fetched, c.open, order);
    }
    hide Moved, Recent, Since;
  }

  // ---------------------------------------------------------------- a whole call

  /** Where the loop stands after n turns of which all but the last went on. */
  ghost predicate Stands(w: World, blocks: seq<Record>, a: Answers, n: nat, r: World)
    requires a.Answered? && n <= |blocks|
  {
    && Sole(r.records)
    && r.absences == FetchAll(w, Fetched(blocks, a, n)).absences
    && (forall q :: Counter(r.records, q) == CounterThen(w, blocks, a, n, q))
    && (AllJustified(r.removals) <==> AllJustified(w.removals) && RemovalsHeed(w, blocks, a, n))
  }

  predicate TurnFor(blocks: seq<Record>, i: nat, q: string)
    requires i < |blocks|
  {
    Truthy(blocks[i].orderId) && blocks[i].orderId.value == q
  }

  /** The counter of an order after n turns, in terms of the call. */
  function CounterThen(w: World, blocks: seq<Record>, a: Answers, n: nat, q: string): Option<nat>
    requires a.Answered? && n <= |blocks|
  {
    if n == 0 then Counter(w.records, q)
    else if TurnFor(blocks, n - 1, q) then CounterLeft(blocks[n - 1], a.open, a.size, a.confirm(n - 1))
    else CounterThen(w, blocks, a, n - 1, q)
  }

  /** Every removal of the first n turns had two absences. */
  ghost predicate RemovalsHeed(w: World, blocks: seq<Record>, a: Answers, n: nat)
    requires a.Answered? && n <= |blocks|
  {
    forall i: nat :: i < n ==> RemovalHeeds(w, blocks, a, i)
  }

  function AbsencesThen(w: World, blocks: seq<Record>, a: Answers, n: nat, order: string): nat
    requires a.Answered? && n <= |blocks|
  {
    Since(Absences(w, order), Fetched(blocks, a, n), order)
  }

  lemma FetchAllAppend(w: World, r: World, fetched: seq<set<string>>, more: seq<set<string>>)
    requires r.absences == FetchAll(w, fetched).absences
    ensures FetchAll(r, more).absences == FetchAll(w, fetched + more).absences
  {
    var one, two := FetchAll(r, more).absences, FetchAll(w, fetched + more).absences;
    FetchAllSince(r, more, "");
    FetchAllSince(w, fetched, "");
    FetchAllSince(w, fetched + more, "");
    forall order | order in one
      ensures one[order] == two[order]
    {
      FetchAllSince(r, more, order);
      FetchAllSince(w, fetched, order);
      FetchAllSince(w, fetched + more, order);
      SinceAppend(w.absences[order], fetched, more, order);
    }
    assert one.Keys == two.Keys;
  }

  /** Until its turn an order keeps its counter. */
  lemma {:induction false} UntouchedCounter(w: World, blocks: seq<Record>, a: Answers, n: nat, q: string)
    requires a.Answered? && n <= |blocks|
    requires forall i :: 0 <= i < n ==> blocks[i].orderId != Some(q)
    ensures CounterThen(w, blocks, a, n, q) == Counter(w.records, q)
  {
    if n > 0 {
      UntouchedCounter(w, blocks, a, n - 1, q);
    }
  }

  lemma {:induction false} AfterTurns(w: World, blocks: seq<Record>, a: Answers, n: nat)
    requires ShapeOk(w) && Loaded(w.records, blocks) && a.Answered? && n <= |blocks|
    requires forall m: nat :: m < n - 1 ==> TurnGoesOn(blocks, a, m)
    ensures var (r, goOn) := Reconciled(Fetch(w, a.open), blocks, a, n);
            && Stands(w, blocks, a, n, r)
            && goOn == (n > 0 ==> TurnGoesOn(blocks, a, n - 1))
  {
    if n == 0 {
      FetchOne(w, a.open);
    } else {
      AfterTurns(w, blocks, a, n - 1);
      var (before, goOn) := Reconciled(Fetch(w, a.open), blocks, a, n - 1);
      assert goOn;
      NextTurn(w, blocks, a, n - 1, before);
    }
  }

  lemma NextTurn(w: World, blocks: seq<Record>, a: Answers, n: nat, before: World)
    requires ShapeOk(w) && Loaded(w.records, blocks) && a.Answered? && n < |blocks| && Stands(w, blocks, a, n, before)
    ensures var (r, goOn) := HandleBlock(before, blocks[n], a.open, a.size, a.confirm(n), a.at(n));
            Stands(w, blocks, a, n + 1, r) && goOn == TurnGoesOn(blocks, a, n)
  {
    RemovalsNext(w, blocks, a, n);
    if Truthy(blocks[n].orderId) {
      NextTruthyTurn(w, blocks, a, n, before);
    } else {
      hide AllJustified, RemovalsHeed, Counter, Sole;
      assert Fetched(blocks, a, n) + [] == Fetched(blocks, a, n);
    }
  }

  lemma BlockCounter(w: World, blocks: seq<Record>, a: Answers, n: nat)
    requires ShapeOk(w) && Loaded(w.records, blocks) && a.Answered? && n < |blocks| && Truthy(blocks[n].orderId)
    ensures Counter(w.records, blocks[n].orderId.value) == Some(Checks(blocks[n]))
            == CounterThen(w, blocks, a, n, blocks[n].orderId.value)
    ensures blocks[n].orderId.value in w.absences
  {
    assert blocks[n] in blocks;
    CounterOf(w.records, blocks[n]);
    UntouchedCounter(w, blocks, a, n, blocks[n].orderId.value);
  }

  lemma NextTruthyTurn(w: World, blocks: seq<Record>, a: Answers, n: nat, before: World)
    requires ShapeOk(w) && Loaded(w.records, blocks) && a.Answered? && n < |blocks| && Stands(w, blocks, a, n, before)
    requires Truthy(blocks[n].orderId)
    requires RemovalsHeed(w, blocks, a, n + 1) <==> RemovalsHeed(w, blocks, a, n) && RemovalHeeds(w, blocks, a, n)
    ensures var (r, goOn) := HandleBlock(before, blocks[n], a.open, a.size, a.confirm(n), a.at(n));
            Stands(w, blocks, a, n + 1, r) && goOn == TurnGoesOn(blocks, a, n)
  {
    var block, c := blocks[n], a.confirm(n);
    var (r, goOn) := HandleBlock(before, block, a.open, a.size, c, a.at(n));
    BlockCounter(w, blocks, a, n);
    TurnOutcome(before, block, a.open, a.size, c, a.at(n), block.orderId.value);
    forall q
      ensures Counter(r.records, q) == CounterThen(w, blocks, a, n + 1, q)
    {
      TurnOutcome(before, block, a.open, a.size, c, a.at(n), q);
      hide HandleBlock, Counter, Loaded, ShapeOk, Sole, FetchAll;
    }
    hide HandleBlock, Counter, Loaded, ShapeOk, Sole, CounterThen, RemovalsHeed, AllJustified;
    FetchAllAppend(w, before, Fetched(blocks, a, n), FetchedBy(block, a.open, a.size, c));
    TurnRemovals(w, blocks, a, n, before, r);
  }

  /** The removal of turn n, if any, had two absences. */
  ghost predicate RemovalHeeds(w: World, blocks: seq<Record>, a: Answers, n: nat)
    requires a.Answered? && n < |blocks|
  {
    Truthy(blocks[n].orderId) && SeenGoneAt(blocks[n], a.open, a.size, a.confirm(n)).Some? ==>
      AbsencesThen(w, blocks, a, n + 1, blocks[n].orderId.value) >= 2
  }

  lemma RemovalsNext(w: World, blocks: seq<Record>, a: Answers, n: nat)
    requires a.Answered? && n < |blocks|
    ensures RemovalsHeed(w, blocks, a, n + 1) <==> RemovalsHeed(w, blocks, a, n) && RemovalHeeds(w, blocks, a, n)
  {
  }

  lemma TurnRemovals(w: World, blocks: seq<Record>, a: Answers, n: nat, before: World, r: World)
    requires a.Answered? && n < |blocks| && Truthy(blocks[n].orderId) && blocks[n].orderId.value in w.absences
    requires before.absences == FetchAll(w, Fetched(blocks, a, n)).absences
    requires r.removals == before.removals + RemovalBy(before, blocks[n], a.open, a.size, a.confirm(n))
    ensures AllJustified(r.removals) <==> AllJustified(before.removals) && RemovalHeeds(w, blocks, a, n)
  {
    var block, c := blocks[n], a.confirm(n);
    var order := block.orderId.value;
    FetchAllAppend(w, before, Fetched(blocks, a, n), FetchedBy(block, a.open, a.size, c));
    FetchAllSince(w, Fetched(blocks, a, n + 1), order);
    var added := RemovalBy(before, block, a.open, a.size, c);
    assert forall x :: x in r.removals <==> x in before.removals || x in added;
    GoneUnmoved(block, a.open, a.size, c);
    if SeenGoneAt(block, a.open, a.size, c).Some? {
      assert added[0].absences == AbsencesThen(w, blocks, a, n + 1, order);
      assert Justified(added[0]) <==> added[0].absences >= 2;
    }
    hide FetchAll, FetchedBy, Since, Moved, SeenGoneAt;
  }

  lemma GoneUnmoved(block: Record, open: set<string>, size: real, c: Confirmation)
    requires block.orderId.Some?
    ensures var gone := SeenGoneAt(block, open, size, c);
            gone.Some? ==> !Moved(gone.value, block.baselineSize, SideOf(block))
  {
  }

  lemma CounterLeftShape(block: Record, open: set<string>, size: real, c: Confirmation)
    requires Truthy(block.orderId)
    ensures var left := CounterLeft(block, open, size, c);
            (left.Some? ==> left.value <= 1) && (GoesOn(block, open, size, c) ==> left.None?)
  {
  }

  lemma DoneNext(blocks: seq<Record>, n: nat, q: string)
    requires n < |blocks|
    ensures Done(blocks, n + 1, q) <==> Done(blocks, n, q) || TurnFor(blocks, n, q)
  {
    if TurnFor(blocks, n, q) {
      assert blocks[n].orderId == Some(q);
    }
  }

  /** An order whose turn came and went on has no pending record left; one whose turn did not come keeps its counter. */
  lemma {:induction false} CounterThenShape(w: World, blocks: seq<Record>, a: Answers, n: nat, q: string)
    requires ShapeOk(w) && Loaded(w.records, blocks) && a.Answered? && n <= |blocks|
    requires forall m: nat :: m < n - 1 ==> TurnGoesOn(blocks, a, m)
    ensures CounterThen(w, blocks, a, n, q).Some? ==>
              Counter(w.records, q).Some? && CounterThen(w, blocks, a, n, q).value <= 1
    ensures !Done(blocks, n, q) ==> CounterThen(w, blocks, a, n, q) == Counter(w.records, q)
    ensures Done(blocks, n, q) && !TurnFor(blocks, n - 1, q) ==> CounterThen(w, blocks, a, n, q) == None
    ensures n > 0 && TurnGoesOn(blocks, a, n - 1) && Done(blocks, n, q) ==> CounterThen(w, blocks, a, n, q) == None
  {
    if n == 0 {
      return;
    }
    hide Done, ShapeOk, Loaded, Counter, CounterLeft, GoesOn;
    CounterThenShape(w, blocks, a, n - 1, q);
    DoneNext(blocks, n - 1, q);
    if TurnFor(blocks, n - 1, q) {
      BlockCounter(w, blocks, a, n - 1);
      CounterLeftShape(blocks[n - 1], a.open, a.size, a.confirm(n - 1));
    }
    hide TurnFor;
  }

  /** The counters after a call are within the absences just if the last turn left its own within them and no other
      order with a counted miss is in the last snapshot. */
  lemma CountersExact(w: World, blocks: seq<Record>, a: Answers, n: nat, r: World)
    requires WorldOk(w) && Loaded(w.records, blocks) && a.Answered? && n <= |blocks| && Stands(w, blocks, a, n, r)
    requires forall m: nat :: m < n - 1 ==> TurnGoesOn(blocks, a, m)
    ensures CountersOk(r) <==>
              LastOk(w, blocks, a, n) &&
              RestHeeds(w.records, blocks, n, Fetched(blocks, a, n)[|Fetched(blocks, a, n)| - 1])
    ensures ShapeOk(r)
  {
    var last := Fetched(blocks, a, n)[|Fetched(blocks, a, n)| - 1];
    forall q | Counter(r.records, q).Some?
      ensures q in r.absences && Counter(r.records, q).value <= 1
      ensures Counter(r.records, q).value <= Absences(r, q) <==> OrderHeeds(w, blocks, a, n, q)
    {
      OneCounterExact(w, blocks, a, n, r, q);
    }
    forall q | Counter(r.records, q).None?
      ensures OrderHeeds(w, blocks, a, n, q)
    {
      OneCounterExact(w, blocks, a, n, r, q);
    }
    RestByOrder(w, blocks, a, n);
    hide Stands, WorldOk, Loaded, OrderHeeds, LastOk, RestHeeds, Fetched, Counter;
  }

  /** The counter that the last turn leaves, if any, is within the absences. */
  ghost predicate LastOk(w: World, blocks: seq<Record>, a: Answers, n: nat)
    requires a.Answered? && n <= |blocks|
  {
    n > 0 && Truthy(blocks[n - 1].orderId) ==>
      var left := CounterLeft(blocks[n - 1], a.open, a.size, a.confirm(n - 1));
      left.Some? ==> left.value <= AbsencesThen(w, blocks, a, n, blocks[n - 1].orderId.value)
  }

  /** What keeps the counter of one order within its absences. */
  ghost predicate OrderHeeds(w: World, blocks: seq<Record>, a: Answers, n: nat, q: string)
    requires a.Answered? && n <= |blocks|
  {
    if n > 0 && TurnFor(blocks, n - 1, q) then LastOk(w, blocks, a, n)
    else
      Counter(w.records, q).GetOr(0) > 0 && q in Fetched(blocks, a, n)[|Fetched(blocks, a, n)| - 1] ==>
        Done(blocks, n, q)
  }

  lemma OneCounterExact(w: World, blocks: seq<Record>, a: Answers, n: nat, r: World, q: string)
    requires WorldOk(w) && Loaded(w.records, blocks) && a.Answered? && n <= |blocks| && Stands(w, blocks, a, n, r)
    requires forall m: nat :: m < n - 1 ==> TurnGoesOn(blocks, a, m)
    ensures Counter(r.records, q).Some? ==>
              && q in r.absences && Counter(r.records, q).value <= 1
              && (Counter(r.records, q).value <= Absences(r, q) <==> OrderHeeds(w, blocks, a, n, q))
    ensures Counter(r.records, q).None? ==> OrderHeeds(w, blocks, a, n, q)
  {
    var fetched := Fetched(blocks, a, n);
    CounterThenShape(w, blocks, a, n, q);
    FetchAllSince(w, fetched, q);
    SinceRecent(Absences(w, q), fetched, q);
    RecentLast(fetched, q);
    CountsByOrder(w);
    assert Counter(r.records, q) == CounterThen(w, blocks, a, n, q);
    hide Stands, Loaded, Done, Sole, Counter, Recent, FetchAll, CountsOk;
  }

  lemma RestByOrder(w: World, blocks: seq<Record>, a: Answers, n: nat)
    requires WorldOk(w) && a.Answered? && n <= |blocks|
    ensures (forall q :: OrderHeeds(w, blocks, a, n, q)) <==>
              LastOk(w, blocks, a, n) &&
              RestHeeds(w.records, blocks, n, Fetched(blocks, a, n)[|Fetched(blocks, a, n)| - 1])
  {
    var last := Fetched(blocks, a, n)[|Fetched(blocks, a, n)| - 1];
    if forall q :: OrderHeeds(w, blocks, a, n, q) {
      forall p | p in w.records && StatusOf(p) == Pending && p.orderId.Some? && Checks(p) > 0 && p.orderId.value in last
        ensures Done(blocks, n, p.orderId.value)
      {
        CounterOf(w.records, p);
        if n > 0 {
          DoneNext(blocks, n - 1, p.orderId.value);
        }
        assert OrderHeeds(w, blocks, a, n, p.orderId.value);
      }
      if n > 0 && Truthy(blocks[n - 1].orderId) {
        assert OrderHeeds(w, blocks, a, n, blocks[n - 1].orderId.value);
      }
    }
    if LastOk(w, blocks, a, n) && RestHeeds(w.records, blocks, n, last) {
      forall q
        ensures OrderHeeds(w, blocks, a, n, q)
      {
        if Counter(w.records, q).Some? {
          var p := CounterHas(w.records, q);
        }
      }
    }
  }

  lemma BlockWithin(w: World, blocks: seq<Record>, a: Answers, i: nat)
    requires WorldOk(w) && Loaded(w.records, blocks) && a.Answered? && i < |blocks| && Truthy(blocks[i].orderId)
    ensures Checks(blocks[i]) <= Absences(w, blocks[i].orderId.value)
  {
    BlockCounter(w, blocks, a, i);
    CountsByOrder(w);
    hide Loaded, Counter, Sole;
  }

  lemma TurnOfExact(w: World, blocks: seq<Record>, a: Answers, n: nat, i: nat)
    requires WorldOk(w) && Loaded(w.records, blocks) && a.Answered? && i < n <= |blocks|
    requires i < n - 1 ==> TurnGoesOn(blocks, a, i)
    requires Truthy(blocks[i].orderId)
    ensures TurnHeeds(blocks[i], Fetched(blocks, a, i), a.open, a.size, a.confirm(i)) <==>
              RemovalHeeds(w, blocks, a, i) && (i == n - 1 ==> LastOk(w, blocks, a, n))
  {
    hide WorldOk, Loaded, Moved, Since, TurnHeeds, SeenGoneAt, CounterLeft, GoesOn;
    var block, c := blocks[i], a.confirm(i);
    BlockWithin(w, blocks, a, i);
    TurnExact(block, Absences(w, block.orderId.value), Fetched(blocks, a, i), a.open, a.size, c);
    CounterLeftShape(block, a.open, a.size, c);
    assert Fetched(blocks, a, i + 1) == Fetched(blocks, a, i) + FetchedBy(block, a.open, a.size, c);
    hide Fetched, FetchedBy;
  }

  /** The removals are justified and the last turn left its counter within the absences just if every turn heeds. */
  lemma TurnsExact(w: World, blocks: seq<Record>, a: Answers, n: nat)
    requires WorldOk(w) && Loaded(w.records, blocks) && a.Answered? && n <= |blocks|
    requires forall m: nat :: m < n - 1 ==> TurnGoesOn(blocks, a, m)
    ensures TurnsHeed(blocks, a, n) <==> RemovalsHeed(w, blocks, a, n) && LastOk(w, blocks, a, n)
  {
    forall i: nat | i < n && Truthy(blocks[i].orderId)
      ensures TurnHeeds(blocks[i], Fetched(blocks, a, i), a.open, a.size, a.confirm(i)) <==>
                RemovalHeeds(w, blocks, a, i) && (i == n - 1 ==> LastOk(w, blocks, a, n))
    {
      assert i < n - 1 ==> TurnGoesOn(blocks, a, i);
      TurnOfExact(w, blocks, a, n, i);
    }
    hide TurnHeeds, RemovalHeeds, LastOk, Loaded, WorldOk;
    assert !(n > 0 && Truthy(blocks[n - 1].orderId)) ==> LastOk(w, blocks, a, n);
  }

  /** The loop makes as many turns as it makes. */
  lemma CallMakesTurns(w: World, blocks: seq<Record>, a: Answers)
    requires ShapeOk(w) && Loaded(w.records, blocks) && a.Answered? && blocks != []
    ensures var n := Turns(blocks, a, 0);
            && Reconciled(Fetch(w, a.open), blocks, a, n).0 == AfterCall(w, blocks, a)
            && Stands(w, blocks, a, n, AfterCall(w, blocks, a))
  {
    var n := Turns(blocks, a, 0);
    AfterTurns(w, blocks, a, n);
    hide Stands, Reconciled, ShapeOk, Loaded;
    if n < |blocks| {
      ReconciledStops(Fetch(w, a.open), blocks, a, n, |blocks|);
    }
  }

  lemma AnsweredExact(w: World, blocks: seq<Record>, a: Answers)
    requires WorldOk(w) && Loaded(w.records, blocks) && a.Answered? && blocks != []
    ensures WorldOk(AfterCall(w, blocks, a)) <==> CallHeeds(w, blocks, a)
  {
    hide AfterCall, Reconciled, Fetched, Loaded, CountsOk, CountersOk, TurnsHeed, RemovalsHeed, LastOk, RestHeeds,
      AllJustified, CounterThen, FetchAll, Counter, Sole;
    var n, r := Turns(blocks, a, 0), AfterCall(w, blocks, a);
    CallMakesTurns(w, blocks, a);
    TurnsExact(w, blocks, a, n);
    CountersExact(w, blocks, a, n, r);
    CountsByOrder(r);
    hide ShapeOk, Stands;
  }

  /** From a world in which the counters are within the absences, a call keeps them so and removes only justified
      blocks exactly if it heeds every order that its snapshots show open. */
  lemma CallExact(w: World, blocks: seq<Record>, a: Answers)
    requires WorldOk(w) && Loaded(w.records, blocks)
    ensures WorldOk(AfterCall(w, blocks, a)) <==> CallHeeds(w, blocks, a)
  {
    hide WorldOk, Loaded, RestHeeds, TurnsHeed;
    if blocks != [] {
      match a
      case NoSnapshot =>
      case OnlySnapshot(open) => SnapshotExact(w, blocks, open);
      case Answered(_, _, _, _) => AnsweredExact(w, blocks, a);
    }
  }

  /** A snapshot whose position look-up fails. */
  lemma SnapshotExact(w: World, blocks: seq<Record>, open: set<string>)
    requires WorldOk(w) && Loaded(w.records, blocks)
    ensures WorldOk(Fetch(w, open)) <==> RestHeeds(w.records, blocks, 0, open)
  {
    var a := Answered(open, 0.0, i => NoOrders, i => 0);
    AfterTurns(w, blocks, a, 0);
    CountersExact(w, blocks, a, 0, Fetch(w, open));
    CountsByOrder(Fetch(w, open));
  }

  lemma BlocksLoaded(xs: seq<Record>, marketId: string, outcome: string, key: string)
    requires Sole(xs)
    ensures Loaded(xs, PendingBlocks(xs, marketId, outcome, key))
  {
    var concerns := (p: Record) => Concerns(p, marketId, outcome, key);
    var blocks := Filter(xs, concerns);
    assert PendingBlocks(xs, marketId, outcome, key) == blocks;
    FilterMembers(xs, concerns);
    FilterSole(xs, concerns);
    assert forall b :: b in blocks ==> concerns(b);
    forall i, j | 0 <= i < j < |blocks|
      ensures blocks[i].orderId != blocks[j].orderId
    {
      assert concerns(blocks[i]);
    }
  }

  // ---------------------------------------------------------------- histories

  /** A reconciliation for some detected trade, or another change of the records. */
  datatype Event =
    | Reconciliation(marketId: string, outcome: string, key: string, answers: Answers)
    | Change(op: Op)

  function BlocksFor(w: World, e: Event): seq<Record>
    requires e.Reconciliation?
  {
    PendingBlocks(w.records, e.marketId, e.outcome, e.key)
  }

  ghost predicate Fresh(w: World, order: string) {
    forall p :: p in w.records ==> p.orderId != Some(order)
  }

  /** The ids of new and filled orders are fresh, and only reconciliation counts absences. */
  ghost predicate MayHappen(w: World, e: Event) {
    e.Change? ==>
      && !e.op.OpIncrement?
      && (e.op.OpPending? ==> Fresh(w, e.op.order))
      && (e.op.OpExecuted? && e.op.orderId.Some? ==> Fresh(w, e.op.orderId.value))
  }

  /** An order is tracked from the moment it is recorded as pending. */
  function Next(w: World, e: Event): World {
    match e
    case Reconciliation(_, _, _, a) => AfterCall(w, BlocksFor(w, e), a)
    case Change(op) =>
      w.(records := ListStep(w.records, op),
         absences := if op.OpPending? then w.absences[op.order := 0] else w.absences)
  }

  const START := World([], map[], [])

  ghost predicate IsHistory(events: seq<Event>, worlds: seq<World>) {
    && |worlds| == |events| + 1 && worlds[0] == START
    && forall i {:trigger events[i]} :: 0 <= i < |events| ==>
         MayHappen(worlds[i], events[i]) && worlds[i + 1] == Next(worlds[i], events[i])
  }

  /** The event is no call that fails to heed what it saw. */
  ghost predicate Heeds(w: World, e: Event) {
    e.Reconciliation? ==> CallHeeds(w, BlocksFor(w, e), e.answers)
  }

  /** A fill turns at most one record into an executed one, with its own or a fresh order id. */
  lemma FillAtOnePlace(xs: seq<Record>, op: Op) returns (at: nat)
    requires op.OpExecuted?
    ensures var ys := ListStep(xs, op);
            && at < |ys| && |xs| <= |ys| && StatusOf(ys[at]) == Executed
            && (forall m :: 0 <= m < |ys| && m != at ==> m < |xs| && ys[m] == xs[m])
            && (ys[at].orderId == op.orderId || (at < |xs| && ys[at].orderId == xs[at].orderId))
  {
    var i := FindFirst(xs, MatchWith(op.marketId, op.outcome, Some(op.key), Pending));
    var j := FindFirst(xs, MatchWith(op.marketId, op.outcome, Some(op.key), Executed));
    assert i < |xs| ==> MatchWith(op.marketId, op.outcome, Some(op.key), Pending)(xs[i]);
    assert j < |xs| ==> MatchWith(op.marketId, op.outcome, Some(op.key), Executed)(xs[j]);
    at := if i < |xs| then i else if j < |xs| then j else |xs|;
  }

  lemma FillChange(xs: seq<Record>, op: Op, q: string)
    requires Sole(xs) && op.OpExecuted?
    requires op.orderId.Some? ==> forall p :: p in xs ==> p.orderId != Some(op.orderId.value)
    ensures Sole(ListStep(xs, op))
    ensures Counter(ListStep(xs, op), q).Some? ==> Counter(ListStep(xs, op), q) == Counter(xs, q)
  {
    hide ListStep;
    var ys := ListStep(xs, op);
    var at := FillAtOnePlace(xs, op);
    forall m, n | 0 <= m < |ys| && 0 <= n < |ys| && StatusOf(ys[m]) == Pending
      ensures ys[m].orderId.Some? && (m != n ==> ys[n].orderId != ys[m].orderId)
    {
      assert m != at && xs[m] in xs;
    }
    if Counter(ys, q).Some? {
      var p := CounterHas(ys, q);
      var m :| 0 <= m < |ys| && ys[m] == p;
      assert xs[m] in xs;
      CounterOf(xs, p);
    }
  }

  lemma PlaceChange(xs: seq<Record>, op: Op, q: string)
    requires Sole(xs) && op.OpPending? && forall p :: p in xs ==> p.orderId != Some(op.order)
    ensures Sole(ListStep(xs, op))
    ensures Counter(ListStep(xs, op), q).Some? ==>
              Counter(ListStep(xs, op), q) == if q == op.order then Some(0) else Counter(xs, q)
  {
    var ys := ListStep(xs, op);
    assert FindFirst(xs, CarriesOrder(op.order)) == |xs| by {
      forall p | p in xs ensures !CarriesOrder(op.order)(p) {
      }
    }
    var placed := PendingRecord(op.marketId, op.outcome, op.order, op.tokenId, op.baseline, op.tradeSide, Some(op.key),
                                op.now);
    assert ys == xs + [placed];
    hide ListStep;
    SoleSnoc(xs, placed);
    if Counter(ys, q).Some? {
      var p := CounterHas(ys, q);
      if p in xs {
        CounterOf(xs, p);
      }
    }
  }

  lemma CleanupChange(xs: seq<Record>, hours: real, now: int, q: string)
    requires Sole(xs)
    ensures Sole(Cleanup(xs, hours, now))
    ensures Counter(Cleanup(xs, hours, now), q).Some? ==> Counter(Cleanup(xs, hours, now), q) == Counter(xs, q)
  {
    var keep := (p: Record) => StatusOf(p) == Pending || p.timestamp as real > Cutoff(hours, now);
    FilterSole(xs, keep);
    FilterMembers(xs, keep);
    var ys := Cleanup(xs, hours, now);
    assert ys == xs || ys == Filter(xs, keep);
    if Counter(ys, q).Some? {
      var p := CounterHas(ys, q);
      CounterOf(xs, p);
    }
  }

  /** Other changes neither raise a counter nor start one above 0. */
  lemma ChangeCounter(w: World, op: Op, q: string)
    requires Sole(w.records) && MayHappen(w, Change(op))
    ensures var ys := ListStep(w.records, op);
            && Sole(ys)
            && (Counter(ys, q).Some? ==>
                  if op.OpPending? && q == op.order then Counter(ys, q) == Some(0)
                  else Counter(w.records, q).Some? && Counter(ys, q).value <= Counter(w.records, q).value)
  {
    match op
    case OpExecuted(_, _, _, _, _, _) => FillChange(w.records, op, q);
    case OpPending(_, _, _, _, _, _, _, _) => PlaceChange(w.records, op, q);
    case OpPromote(order, now) => PromotedCounter(w.records, order, now, q);
    case OpRemove(order) => RemovedCounter(w.records, order, q);
    case OpReset(order) => ResetCounter(w.records, order, q);
    case OpCleanup(hours, now) => CleanupChange(w.records, hours, now, q);
    case OpIncrement(_) =>
  }

  lemma ChangedWithin(w: World, op: Op, q: string)
    requires ShapeOk(w) && CountersOk(w) && MayHappen(w, Change(op))
    ensures var r := Next(w, Change(op));
            Counter(r.records, q).Some? ==>
              q in r.absences && Counter(r.records, q).value <= 1 && Counter(r.records, q).value <= Absences(r, q)
  {
    ChangeCounter(w, op, q);
    hide Sole, Counter, ListStep, MayHappen;
  }

  lemma ChangeOk(w: World, op: Op)
    requires WorldOk(w) && MayHappen(w, Change(op))
    ensures WorldOk(Next(w, Change(op)))
  {
    var r := Next(w, Change(op));
    CountsByOrder(w);
    ChangeCounter(w, op, "");
    forall q | Counter(r.records, q).Some?
      ensures q in r.absences && Counter(r.records, q).value <= 1 && Counter(r.records, q).value <= Absences(r, q)
    {
      ChangedWithin(w, op, q);
      hide Sole, Counter, ListStep, MayHappen;
    }
    hide Sole, Counter, ListStep, CountsOk, MayHappen, AllJustified;
    CountsByOrder(r);
  }

  /** From an intact world an event leaves an intact world exactly if it heeds. */
  lemma EventExact(w: World, e: Event)
    requires WorldOk(w) && MayHappen(w, e)
    ensures WorldOk(Next(w, e)) <==> Heeds(w, e)
  {
    match e
    case Reconciliation(m, o, k, a) =>
      BlocksLoaded(w.records, m, o, k);
      CallExact(w, BlocksFor(w, e), a);
    case Change(op) => ChangeOk(w, op);
  }

  lemma {:induction false} IntactUpTo(events: seq<Event>, worlds: seq<World>, n: nat)
    requires IsHistory(events, worlds) && n <= |events|
    ensures Intact(worlds, n) <==> AllHeed(events, worlds, n)
  {
    hide WorldOk, Heeds, Next, MayHappen;
    if n == 0 {
      StartIntact();
    } else {
      IntactUpTo(events, worlds, n - 1);
      assert MayHappen(worlds[n - 1], events[n - 1]) && worlds[n - 1 + 1] == Next(worlds[n - 1], events[n - 1]);
      if Intact(worlds, n - 1) {
        EventExact(worlds[n - 1], events[n - 1]);
      }
    }
  }

  lemma StartIntact()
    ensures WorldOk(START)
  {
  }

  ghost predicate Intact(worlds: seq<World>, n: nat)
    requires n < |worlds|
  {
    forall i :: 0 <= i <= n ==> WorldOk(worlds[i])
  }

  ghost predicate AllHeed(events: seq<Event>, worlds: seq<World>, n: nat)
    requires n <= |events| < |worlds|
  {
    forall i :: 0 <= i < n ==> Heeds(worlds[i], events[i])
  }

  /** In every history the stored counters stay within the absences, and every removed block had its order absent
      from two snapshots since it was last in one with the position not moved past the baseline in the direction of
      the trade, exactly if every call of the reconciliation heeds the orders that its snapshots show open. */
  lemma HistoryExactly(events: seq<Event>, worlds: seq<World>)
    requires IsHistory(events, worlds)
    ensures (forall i :: 0 <= i <= |events| ==> WorldOk(worlds[i]))
            <==> (forall i :: 0 <= i < |events| ==> Heeds(worlds[i], events[i]))
  {
    IntactUpTo(events, worlds, |events|);
  }

  /** In particular, when every call heeds. */
  lemma RemovalsJustified(events: seq<Event>, worlds: seq<World>, r: Removal, p: Record)
    requires IsHistory(events, worlds) && forall i :: 0 <= i < |events| ==> Heeds(worlds[i], events[i])
    ensures r in worlds[|events|].removals ==>
              && r.absences >= 2
              && (r.side == Buy ==> r.size - r.baseline.GetOr(0.0) <= 0.000001)
              && (r.side == Sell ==> r.size - r.baseline.GetOr(0.0) >= -0.000001)
    ensures p in worlds[|events|].records && StatusOf(p) == Pending && p.orderId.Some? ==>
              Checks(p) <= Absences(worlds[|events|], p.orderId.value)
  {
    HistoryExactly(events, worlds);
    assert WorldOk(worlds[|events|]);
  }
}
