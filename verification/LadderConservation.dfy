/**
 * Share conservation of ladder exits over whole runs, and exactly when it holds.
 * A run is a sequence of checks, each of whose batches is marked in full before the next check.
 */
module LadderConservation {
  import opened Rounding
  import opened Ladder

  // ---------------------------------------------------------------- sums

  function SumShares(sales: seq<Sale>): real {
    if sales == [] then 0.0 else SumShares(sales[..|sales| - 1]) + sales[|sales| - 1].shares
  }

  function ExecutedShares(steps: seq<Step>): real {
    if steps == [] then 0.0
    else
      ExecutedShares(steps[..|steps| - 1]) +
      if steps[|steps| - 1].executed then steps[|steps| - 1].executedShares else 0.0
  }

  /** Sum of the positive percentages of the first `n` steps. */
  function PercentUpTo(steps: seq<Step>, n: nat): real
    requires n <= |steps|
  {
    if n == 0 then 0.0 else PercentUpTo(steps, n - 1) + Max(0.0, steps[n - 1].sellPercent)
  }

  /** Sum of the percentages of those of the first `n` steps that sell at least 0.01 of `total` shares. */
  function SellablePercent(steps: seq<Step>, total: real, n: nat): real
    requires n <= |steps|
  {
    if n == 0 then 0.0
    else
      SellablePercent(steps, total, n - 1) +
      if Portion(total, steps[n - 1].sellPercent) >= 0.01 then steps[n - 1].sellPercent else 0.0
  }

  /** Sum of the percentages that a batch sells. */
  function BatchPercent(steps: seq<Step>, sales: seq<Sale>): real {
    if sales == [] then 0.0
    else
      var last := sales[|sales| - 1];
      BatchPercent(steps, sales[..|sales| - 1]) + if last.step < |steps| then steps[last.step].sellPercent else 0.0
  }

  /** Distinct, not yet executed steps, each with a non-negative number of shares. */
  ghost predicate Markable(l: LadderExit, sales: seq<Sale>) {
    && (forall s :: s in sales ==> s.step < |l.steps| && !l.steps[s.step].executed && s.shares >= 0.0)
    && (forall i, j :: 0 <= i < j < |sales| ==> sales[i].step != sales[j].step)
  }

  // ---------------------------------------------------------------- marking in any order

  ghost predicate InBatch(sales: seq<Sale>, i: int) {
    exists k :: 0 <= k < |sales| && sales[k].step == i
  }

  /** The step after a batch, told without an order. */
  ghost predicate StepMarked(l: LadderExit, price: real, sales: seq<Sale>, r: LadderExit, i: nat)
    requires i < |l.steps| == |r.steps|
  {
    && (!InBatch(sales, i) ==> r.steps[i] == l.steps[i])
    && forall s :: s in sales && s.step == i ==>
         r.steps[i] == l.steps[i].(executed := true, executedPrice := price, executedShares := s.shares)
  }

  /** The ladder after a batch, told without an order. */
  ghost predicate Marked(l: LadderExit, price: real, sales: seq<Sale>, r: LadderExit) {
    && |r.steps| == |l.steps|
    && (forall i :: 0 <= i < |l.steps| ==> StepMarked(l, price, sales, r, i))
    && r.remainingShares == (if sales == [] then l.remainingShares else Max(0.0, l.remainingShares - SumShares(sales)))
    && (r.active <==> l.active && (sales == [] || (!AllExecuted(r.steps) && r.remainingShares > 0.0)))
    && r == l.(steps := r.steps, remainingShares := r.remainingShares, active := r.active)
  }

  lemma {:induction false} SumNonnegative(sales: seq<Sale>)
    requires forall s :: s in sales ==> s.shares >= 0.0
    ensures SumShares(sales) >= 0.0
  {
    if sales != [] {
      SumNonnegative(sales[..|sales| - 1]);
    }
  }

  lemma MarkStep(l: LadderExit, price: real, init: seq<Sale>, last: Sale, q: LadderExit)
    requires Markable(l, init + [last]) && Marked(l, price, init, q)
    requires l.remainingShares >= 0.0
    ensures Marked(l, price, init + [last], Mark(q, last.step, price, last.shares))
  {
    var sales, r := init + [last], Mark(q, last.step, price, last.shares);
    assert last in sales && sales[|init|] == last;
    assert forall k :: 0 <= k < |init| ==> sales[k] == init[k];
    assert sales[..|sales| - 1] == init;
    SumNonnegative(init);
    assert !InBatch(init, last.step);
    assert StepMarked(l, price, init, q, last.step);
    assert !q.steps[last.step].executed;
    forall i | 0 <= i < |l.steps|
      ensures StepMarked(l, price, sales, r, i)
    {
      assert StepMarked(l, price, init, q, i);
      assert InBatch(init, i) ==> InBatch(sales, i);
    }
  }

  /** Marking a batch has a result that mentions no order. */
  lemma {:induction false} MarkAllMarks(l: LadderExit, price: real, sales: seq<Sale>)
    requires Markable(l, sales) && l.remainingShares >= 0.0
    ensures Marked(l, price, sales, MarkAll(l, price, sales))
  {
    if sales != [] {
      var init, last := sales[..|sales| - 1], sales[|sales| - 1];
      assert sales == init + [last];
      MarkAllMarks(l, price, init);
      MarkStep(l, price, init, last, MarkAll(l, price, init));
    }
  }

  lemma SumOfOne(s: Sale)
    ensures SumShares([s]) == s.shares
  {
    assert [s][..0] == [];
  }

  lemma SumAround(low: seq<Sale>, s: Sale, high: seq<Sale>)
    ensures SumShares(low + ([s] + high)) == SumShares(low + high) + s.shares
  {
    hide SumShares;
    SumSplit(low, high);
    SumSplit([s], high);
    SumOfOne(s);
    SumSplit(low, [s] + high);
  }

  lemma SumWithout(b: seq<Sale>, k: nat)
    requires k < |b|
    ensures SumShares(b) == SumShares(b[..k] + b[k + 1..]) + b[k].shares
  {
    hide SumShares;
    SumAround(b[..k], b[k], b[k + 1..]);
    assert b == b[..k] + ([b[k]] + b[k + 1..]);
  }

  lemma MultisetWithout(b: seq<Sale>, k: nat)
    requires k < |b|
    ensures multiset(b[..k] + b[k + 1..]) == multiset(b) - multiset{b[k]}
  {
    assert b == b[..k] + [b[k]] + b[k + 1..];
  }

  lemma {:induction false} SumPermuted(a: seq<Sale>, b: seq<Sale>)
    requires multiset(a) == multiset(b)
    ensures SumShares(a) == SumShares(b)
  {
    if a == [] {
      assert |multiset(b)| == 0;
    } else {
      var init, last := a[..|a| - 1], a[|a| - 1];
      assert a == init + [last];
      assert last in multiset(b);
      var k :| 0 <= k < |b| && b[k] == last;
      SumWithout(b, k);
      MultisetWithout(b, k);
      assert multiset(init) == multiset(a) - multiset{last};
      SumPermuted(init, b[..k] + b[k + 1..]);
    }
  }

  lemma {:induction false} SumSplit(a: seq<Sale>, b: seq<Sale>)
    ensures SumShares(a + b) == SumShares(a) + SumShares(b)
  {
    if b == [] {
      assert a + b == a;
    } else {
      SumSplit(a, b[..|b| - 1]);
      assert (a + b)[..|a + b| - 1] == a + b[..|b| - 1];
    }
  }

  lemma PermutedMarkable(l: LadderExit, a: seq<Sale>, b: seq<Sale>)
    requires Markable(l, a) && multiset(a) == multiset(b)
    ensures Markable(l, b)
    ensures forall s :: s in a <==> s in b
  {
    assert forall s :: s in a <==> s in multiset(a);
    assert forall s :: s in b <==> s in multiset(b);
    forall i, j | 0 <= i < j < |b|
      ensures b[i].step != b[j].step
    {
      if b[i].step == b[j].step {
        assert b[i] in a && b[j] in a;
        assert b[i] == b[j];
        TwiceCounted(b, i, j);
        var k :| 0 <= k < |a| && a[k] == b[i];
        OnceCounted(a, k);
        assert false;
      }
    }
  }

  lemma TwiceCounted(b: seq<Sale>, i: nat, j: nat)
    requires i < j < |b| && b[i] == b[j]
    ensures multiset(b)[b[i]] >= 2
  {
    assert b == b[..i] + [b[i]] + b[i + 1..j] + [b[j]] + b[j + 1..];
  }

  lemma OnceCounted(a: seq<Sale>, k: nat)
    requires k < |a| && forall i, j :: 0 <= i < j < |a| ==> a[i].step != a[j].step
    ensures multiset(a)[a[k]] == 1
  {
    assert a == a[..k] + [a[k]] + a[k + 1..];
    assert a[k] !in a[..k] && a[k] !in a[k + 1..];
  }

  lemma SameBatch(a: seq<Sale>, b: seq<Sale>, i: int)
    requires forall s :: s in a ==> s in b
    ensures InBatch(a, i) ==> InBatch(b, i)
  {
    if InBatch(a, i) {
      var k :| 0 <= k < |a| && a[k].step == i;
      assert a[k] in b;
    }
  }

  /** The result of a batch does not depend on the order of its marks. */
  lemma MarkingOrderIrrelevant(l: LadderExit, price: real, a: seq<Sale>, b: seq<Sale>)
    requires Markable(l, a) && l.remainingShares >= 0.0 && multiset(a) == multiset(b)
    ensures MarkAll(l, price, a) == MarkAll(l, price, b)
  {
    PermutedMarkable(l, a, b);
    MarkAllMarks(l, price, a);
    MarkAllMarks(l, price, b);
    SumPermuted(a, b);
    var r, q := MarkAll(l, price, a), MarkAll(l, price, b);
    forall i | 0 <= i < |l.steps|
      ensures r.steps[i] == q.steps[i]
    {
      assert StepMarked(l, price, a, r, i) && StepMarked(l, price, b, q, i);
      SameBatch(a, b, i);
      SameBatch(b, a, i);
      if InBatch(a, i) {
        var k :| 0 <= k < |a| && a[k].step == i;
        assert a[k] in a && a[k] in b;
      }
    }
    assert r.steps == q.steps;
  }

  // ---------------------------------------------------------------- what a check emits

  lemma {:induction false} DueMarkable(l: LadderExit, price: real, n: nat)
    requires n <= |l.steps|
    ensures Markable(l, DueAmong(l, price, n))
    ensures forall s :: s in DueAmong(l, price, n) ==>
              s.step < n && Due(l, price, s.step) && s.shares == SharesFor(l, s.step)
    ensures forall i :: 0 <= i < n && Due(l, price, i) ==> Sale(i, SharesFor(l, i)) in DueAmong(l, price, n)
  {
    if n > 0 {
      DueMarkable(l, price, n - 1);
      assert DueAmong(l, price, n) == DueAmong(l, price, n - 1)
             + if Due(l, price, n - 1) then [Sale(n - 1, SharesFor(l, n - 1))] else [];
    }
  }

  lemma PortionsAdd(shares: real, percent: real, more: real)
    ensures Portion(shares, percent) + Portion(shares, more) == Portion(shares, percent + more)
    ensures Portion(shares, 0.0) == 0.0
  {
  }

  lemma {:induction false} DueSums(l: LadderExit, price: real, n: nat)
    requires n <= |l.steps| && l.remainingShares >= 0.0
    ensures SumShares(DueAmong(l, price, n)) == Portion(l.remainingShares, BatchPercent(l.steps, DueAmong(l, price, n)))
  {
    hide Portion, Due;
    if n == 0 {
      PortionsAdd(l.remainingShares, 0.0, 0.0);
    } else {
      DueSums(l, price, n - 1);
      var init, all := DueAmong(l, price, n - 1), DueAmong(l, price, n);
      if Due(l, price, n - 1) {
        assert all == init + [Sale(n - 1, SharesFor(l, n - 1))] && all[..|all| - 1] == init;
        PortionsAdd(l.remainingShares, BatchPercent(l.steps, init), l.steps[n - 1].sellPercent);
      } else {
        assert all == init;
      }
    }
  }

  // ---------------------------------------------------------------- conservation of a batch

  lemma {:induction false} ExecutedAfterUpdate(steps: seq<Step>, i: nat, s: Step)
    requires i < |steps| && s.executed && !steps[i].executed
    ensures ExecutedShares(steps[i := s]) == ExecutedShares(steps) + s.executedShares
  {
    var n, after := |steps| - 1, steps[i := s];
    if i < n {
      ExecutedAfterUpdate(steps[..n], i, s);
      assert after[..n] == steps[..n][i := s];
    } else {
      assert after[..n] == steps[..n];
    }
  }

  lemma {:induction false} BatchExecutes(l: LadderExit, price: real, sales: seq<Sale>)
    requires Markable(l, sales) && l.remainingShares >= 0.0
    ensures ExecutedShares(MarkAll(l, price, sales).steps) == ExecutedShares(l.steps) + SumShares(sales)
  {
    if sales != [] {
      var init, last := sales[..|sales| - 1], sales[|sales| - 1];
      assert Markable(l, init) && last in sales;
      BatchExecutes(l, price, init);
      MarkAllMarks(l, price, init);
      var q := MarkAll(l, price, init);
      assert StepMarked(l, price, init, q, last.step);
      assert !InBatch(init, last.step);
      ExecutedAfterUpdate(q.steps, last.step,
        q.steps[last.step].(executed := true, executedPrice := price, executedShares := last.shares));
    }
  }

  function Accounted(l: LadderExit): real {
    l.remainingShares + ExecutedShares(l.steps)
  }

  lemma ScaledAgainstWhole(x: real, percent: real, sum: real)
    requires x > 0.0 && sum == Portion(x, percent)
    ensures sum <= x <==> percent <= 100.0
  {
  }

  lemma BatchMarkable(l: LadderExit, price: real, order: seq<Sale>)
    requires multiset(order) == multiset(Batch(l, price))
    ensures Markable(l, order) && Markable(l, Batch(l, price))
    ensures forall s :: s in order <==> s in Batch(l, price)
    ensures SumShares(order) == SumShares(Batch(l, price))
  {
    DueMarkable(l, price, |l.steps|);
    assert Markable(l, Batch(l, price));
    PermutedMarkable(l, Batch(l, price), order);
    SumPermuted(order, Batch(l, price));
  }

  lemma BatchSize(l: LadderExit, price: real)
    requires l.remainingShares >= 0.0
    ensures SumShares(Batch(l, price)) == Portion(l.remainingShares, BatchPercent(l.steps, Batch(l, price)))
  {
    hide Portion;
    if l.active {
      DueSums(l, price, |l.steps|);
    } else {
      PortionsAdd(l.remainingShares, 0.0, 0.0);
    }
  }

  /** A check marked in full, in any order, keeps remaining plus executed shares, and never clamps, exactly when
      the percentages it sells add up to at most 100. */
  lemma BatchConservesExactly(l: LadderExit, price: real, order: seq<Sale>)
    requires l.remainingShares > 0.0 && multiset(order) == multiset(Batch(l, price))
    ensures var r := MarkAll(l, price, order);
            && (Accounted(r) == Accounted(l) <==> BatchPercent(l.steps, Batch(l, price)) <= 100.0)
            && (r.remainingShares == l.remainingShares - SumShares(order)
                <==> BatchPercent(l.steps, Batch(l, price)) <= 100.0)
  {
    hide Portion, Batch, MarkAll;
    BatchMarkable(l, price, order);
    assert SumShares(order) <= l.remainingShares <==> BatchPercent(l.steps, Batch(l, price)) <= 100.0 by {
      BatchSize(l, price);
      ScaledAgainstWhole(l.remainingShares, BatchPercent(l.steps, Batch(l, price)), SumShares(order));
    }
    AccountedExactly(l, price, order);
  }

  lemma AccountedExactly(l: LadderExit, price: real, order: seq<Sale>)
    requires Markable(l, order) && l.remainingShares >= 0.0
    ensures var r := MarkAll(l, price, order);
            && (Accounted(r) == Accounted(l) <==> SumShares(order) <= l.remainingShares)
            && (r.remainingShares == l.remainingShares - SumShares(order) <==> SumShares(order) <= l.remainingShares)
  {
    BatchExecutes(l, price, order);
    MarkAllMarks(l, price, order);
  }

  // ---------------------------------------------------------------- whole runs

  datatype Round = Round(price: real, order: seq<Sale>)

  function Run(l: LadderExit, rounds: seq<Round>): LadderExit {
    if rounds == [] then l
    else MarkAll(Run(l, rounds[..|rounds| - 1]), rounds[|rounds| - 1].price, rounds[|rounds| - 1].order)
  }

  /** Each round marks the whole batch of its check, in some order. */
  ghost predicate InFull(l: LadderExit, rounds: seq<Round>) {
    forall i :: 0 <= i < |rounds| ==> multiset(rounds[i].order) == multiset(Batch(Run(l, rounds[..i]), rounds[i].price))
  }

  ghost predicate Unstarted(l: LadderExit) {
    && l.remainingShares == l.totalShares >= 0.0
    && forall i :: 0 <= i < |l.steps| ==> !l.steps[i].executed
  }

  predicate SamePercents(l: LadderExit, r: LadderExit) {
    && |r.steps| == |l.steps|
    && forall i :: 0 <= i < |l.steps| ==>
         r.steps[i].sellPercent == l.steps[i].sellPercent && r.steps[i].triggerPrice == l.steps[i].triggerPrice
  }

  lemma {:induction false} SameSellable(l: LadderExit, r: LadderExit, total: real, n: nat)
    requires SamePercents(l, r) && n <= |l.steps|
    ensures SellablePercent(r.steps, total, n) == SellablePercent(l.steps, total, n)
  {
    if n > 0 {
      SameSellable(l, r, total, n - 1);
    }
  }

  lemma {:induction false} NothingExecuted(steps: seq<Step>)
    requires forall i :: 0 <= i < |steps| ==> !steps[i].executed
    ensures ExecutedShares(steps) == 0.0
  {
    if steps != [] {
      NothingExecuted(steps[..|steps| - 1]);
    }
  }

  lemma RoundKeepsPercents(l: LadderExit, price: real, order: seq<Sale>)
    requires l.remainingShares >= 0.0 && multiset(order) == multiset(Batch(l, price))
    ensures SamePercents(l, MarkAll(l, price, order))
    ensures MarkAll(l, price, order).totalShares == l.totalShares
    ensures MarkAll(l, price, order).remainingShares >= 0.0
    ensures Markable(l, order) && Marked(l, price, order, MarkAll(l, price, order))
    ensures forall s :: s in order <==> s in Batch(l, price)
  {
    BatchMarkable(l, price, order);
    MarkAllMarks(l, price, order);
    var r := MarkAll(l, price, order);
    forall i | 0 <= i < |l.steps|
      ensures r.steps[i].sellPercent == l.steps[i].sellPercent && r.steps[i].triggerPrice == l.steps[i].triggerPrice
    {
      assert StepMarked(l, price, order, r, i);
      if InBatch(order, i) {
        var k :| 0 <= k < |order| && order[k].step == i;
        assert order[k] in order;
      }
    }
    SumNonnegative(order);
  }

  /** A larger position sells larger portions, and only a positive percentage sells any. */
  lemma PortionGrows(shares: real, total: real, percent: real)
    requires 0.0 <= shares <= total
    ensures Portion(shares, percent) >= 0.01 ==> percent > 0.0 && Portion(total, percent) >= 0.01
  {
    var share := percent / 100.0;
    if share > 0.0 {
      assert (total - shares) * share >= 0.0;
    } else {
      assert shares * (-share) >= 0.0;
    }
  }

  lemma {:induction false} BatchSellable(l: LadderExit, price: real, total: real, n: nat)
    requires n <= |l.steps| && 0.0 <= l.remainingShares <= total
    ensures 0.0 <= BatchPercent(l.steps, DueAmong(l, price, n)) <= SellablePercent(l.steps, total, n)
  {
    hide Portion;
    if n > 0 {
      BatchSellable(l, price, total, n - 1);
      PortionGrows(l.remainingShares, total, l.steps[n - 1].sellPercent);
      PortionGrows(total, total, l.steps[n - 1].sellPercent);
      var init, all := DueAmong(l, price, n - 1), DueAmong(l, price, n);
      if Due(l, price, n - 1) {
        assert all == init + [Sale(n - 1, SharesFor(l, n - 1))] && all[..|all| - 1] == init;
      } else {
        assert all == init;
      }
    }
  }

  lemma {:induction false} ConservedWhileSellable(l: LadderExit, rounds: seq<Round>)
    requires Unstarted(l) && InFull(l, rounds) && SellablePercent(l.steps, l.totalShares, |l.steps|) <= 100.0
    ensures var r := Run(l, rounds);
            && 0.0 <= r.remainingShares <= l.totalShares
            && Accounted(r) == l.totalShares
            && SamePercents(l, r)
  {
    if rounds == [] {
      NothingExecuted(l.steps);
    } else {
      var n := |rounds| - 1;
      var init, last := rounds[..n], rounds[n];
      assert InFull(l, init) by {
        assert forall i :: 0 <= i < n ==> init[..i] == rounds[..i];
      }
      ConservedWhileSellable(l, init);
      var q := Run(l, init);
      RoundKeepsPercents(q, last.price, last.order);
      SameSellable(l, q, l.totalShares, |l.steps|);
      RoundConserves(q, last.price, last.order, l.totalShares);
    }
  }

  lemma RoundConserves(q: LadderExit, price: real, order: seq<Sale>, total: real)
    requires 0.0 <= q.remainingShares <= total && multiset(order) == multiset(Batch(q, price))
    requires SellablePercent(q.steps, total, |q.steps|) <= 100.0
    ensures Accounted(MarkAll(q, price, order)) == Accounted(q)
    ensures MarkAll(q, price, order).remainingShares <= q.remainingShares
  {
    RoundKeepsPercents(q, price, order);
    SumNonnegative(order);
    BatchSellable(q, price, total, |q.steps|);
    if q.remainingShares > 0.0 {
      BatchConservesExactly(q, price, order);
    } else {
      NoBatch(q, price, |q.steps|);
      assert order == [] by {
        assert |multiset(order)| == 0;
      }
    }
  }

  /** Nothing is due once nothing remains. */
  lemma {:induction false} NoBatch(l: LadderExit, price: real, n: nat)
    requires l.remainingShares == 0.0 && n <= |l.steps|
    ensures DueAmong(l, price, n) == []
  {
    if n > 0 {
      NoBatch(l, price, n - 1);
    }
  }

  /** A price at or above every trigger. */
  function TopTrigger(steps: seq<Step>): (top: real)
    ensures forall i :: 0 <= i < |steps| ==> steps[i].triggerPrice <= top
  {
    if steps == [] then 0.0 else Max(TopTrigger(steps[..|steps| - 1]), steps[|steps| - 1].triggerPrice)
  }

  /** At such a price every step that sells at least 0.01 shares of an unstarted ladder is due. */
  lemma {:induction false} AllDueAtTop(l: LadderExit, price: real, n: nat)
    requires Unstarted(l) && n <= |l.steps| && forall i :: 0 <= i < |l.steps| ==> l.steps[i].triggerPrice <= price
    ensures BatchPercent(l.steps, DueAmong(l, price, n)) == SellablePercent(l.steps, l.totalShares, n)
  {
    hide Portion;
    if n > 0 {
      AllDueAtTop(l, price, n - 1);
      var init, all := DueAmong(l, price, n - 1), DueAmong(l, price, n);
      if Due(l, price, n - 1) {
        assert all == init + [Sale(n - 1, SharesFor(l, n - 1))] && all[..|all| - 1] == init;
      } else {
        assert all == init;
      }
    }
  }

  /** One check at the top trigger loses count. */
  lemma OverfullLosesCount(l: LadderExit)
    requires Unstarted(l) && l.active && SellablePercent(l.steps, l.totalShares, |l.steps|) > 100.0
    ensures var top := TopTrigger(l.steps);
            var rounds := [Round(top, Batch(l, top))];
            InFull(l, rounds) && Accounted(Run(l, rounds)) != l.totalShares
  {
    var top := TopTrigger(l.steps);
    var rounds := [Round(top, Batch(l, top))];
    assert rounds[..0] == [];
    AllDueAtTop(l, top, |l.steps|);
    NothingExecuted(l.steps);
    if l.totalShares == 0.0 {
      NothingSellable(l.steps, |l.steps|);
    } else {
      BatchConservesExactly(l, top, Batch(l, top));
    }
  }

  lemma {:induction false} NothingSellable(steps: seq<Step>, n: nat)
    requires n <= |steps|
    ensures SellablePercent(steps, 0.0, n) == 0.0
  {
    if n > 0 {
      NothingSellable(steps, n - 1);
    }
  }

  /** An unstarted active ladder conserves its shares in every run marked in full exactly if the percentages of the
      steps that sell at least 0.01 of its shares add up to at most 100. */
  lemma ConservesExactly(l: LadderExit)
    requires Unstarted(l) && l.active
    ensures (forall rounds: seq<Round> :: InFull(l, rounds) ==> Accounted(Run(l, rounds)) == l.totalShares)
            <==> SellablePercent(l.steps, l.totalShares, |l.steps|) <= 100.0
  {
    hide InFull, Run, Batch, Accounted, SellablePercent;
    if SellablePercent(l.steps, l.totalShares, |l.steps|) <= 100.0 {
      forall rounds: seq<Round> | InFull(l, rounds)
        ensures Accounted(Run(l, rounds)) == l.totalShares
      {
        ConservedWhileSellable(l, rounds);
      }
    } else {
      OverfullLosesCount(l);
    }
  }

  lemma {:induction false} SellableWithin(steps: seq<Step>, total: real, n: nat)
    requires n <= |steps|
    ensures SellablePercent(steps, total, n) <= PercentUpTo(steps, n)
  {
    if n > 0 {
      SellableWithin(steps, total, n - 1);
    }
  }

  /** In particular whenever the positive percentages of all steps add up to at most 100, whatever the shares. */
  lemma Conservation(l: LadderExit, rounds: seq<Round>)
    requires Unstarted(l) && InFull(l, rounds) && PercentUpTo(l.steps, |l.steps|) <= 100.0
    ensures var r := Run(l, rounds);
            && 0.0 <= r.remainingShares <= l.totalShares
            && r.remainingShares + ExecutedShares(r.steps) == l.totalShares
            && SamePercents(l, r)
  {
    SellableWithin(l.steps, l.totalShares, |l.steps|);
    ConservedWhileSellable(l, rounds);
  }

  // ---------------------------------------------------------------- steps execute bottom-up

  /** The steps generated by default: rising triggers and one percentage. */
  predicate Uniform(steps: seq<Step>) {
    forall i, j :: 0 <= i <= j < |steps| ==>
      steps[i].triggerPrice <= steps[j].triggerPrice && steps[i].sellPercent == steps[j].sellPercent
  }

  lemma DefaultStepsUniform(c: Config, entry: real)
    requires c.stepSpread >= 0.0
    ensures Uniform(StepsFor(c, entry, []))
  {
    forall i, j | 0 <= i <= j < c.stepCount
      ensures DefaultTrigger(c, entry, i) <= DefaultTrigger(c, entry, j)
    {
      assert (j - i) as real * c.stepSpread >= 0.0;
      assert j as real * c.stepSpread - i as real * c.stepSpread == (j - i) as real * c.stepSpread;
    }
  }

  /** The default steps sell 100 percent in all, so default ladders conserve their shares. */
  lemma DefaultStepsSellAll(entry: real)
    ensures var steps := StepsFor(DEFAULT_CONFIG, entry, []); PercentUpTo(steps, |steps|) == 100.0
  {
    var steps := StepsFor(DEFAULT_CONFIG, entry, []);
    assert |steps| == 4 && forall i :: 0 <= i < 4 ==> steps[i].sellPercent == 25.0;
    assert PercentUpTo(steps, 1) == 25.0;
    assert PercentUpTo(steps, 2) == 50.0;
    assert PercentUpTo(steps, 3) == 75.0;
  }

  predicate Prefix(steps: seq<Step>) {
    forall i, j :: 0 <= i <= j < |steps| && steps[j].executed ==> steps[i].executed
  }

  lemma DueTogether(l: LadderExit, price: real, i: nat, j: nat)
    requires i <= j < |l.steps| && Uniform(l.steps) && Due(l, price, j) && !l.steps[i].executed
    ensures Due(l, price, i)
  {
    assert l.steps[i].sellPercent == l.steps[j].sellPercent;
  }

  lemma StepInBatch(sales: seq<Sale>, i: int)
    ensures InBatch(sales, i) <==> exists s :: s in sales && s.step == i
  {
  }

  /** A round executes exactly the due steps of an active ladder. */
  lemma RoundExecutes(l: LadderExit, price: real, order: seq<Sale>, i: nat)
    requires l.remainingShares >= 0.0 && multiset(order) == multiset(Batch(l, price)) && i < |l.steps|
    ensures |MarkAll(l, price, order).steps| == |l.steps|
    ensures MarkAll(l, price, order).steps[i].executed <==> l.steps[i].executed || (l.active && Due(l, price, i))
  {
    RoundKeepsPercents(l, price, order);
    DueMarkable(l, price, |l.steps|);
    var r := MarkAll(l, price, order);
    assert StepMarked(l, price, order, r, i);
    StepInBatch(order, i);
    if l.active && Due(l, price, i) {
      assert Sale(i, SharesFor(l, i)) in order;
    }
  }

  /** In numbers: a check of an active ladder executes exactly the steps not yet executed whose trigger the price has
      reached and that sell at least 0.01 shares, each for its percentage of the shares that remained before. */
  lemma RoundInNumbers(l: LadderExit, price: real, order: seq<Sale>, i: nat)
    requires l.remainingShares >= 0.0 && multiset(order) == multiset(Batch(l, price)) && i < |l.steps|
    ensures var r := MarkAll(l, price, order);
            var shares := l.remainingShares * l.steps[i].sellPercent / 100.0;
            && |r.steps| == |l.steps|
            && (if l.active && !l.steps[i].executed && l.steps[i].triggerPrice <= price && shares >= 0.01
                then r.steps[i] == l.steps[i].(executed := true, executedPrice := price, executedShares := shares)
                else r.steps[i] == l.steps[i])
  {
    hide MarkAll, Batch, Due, SharesFor, InBatch;
    RoundKeepsPercents(l, price, order);
    SaleOf(l, price, order, i);
    DueIs(l, price, i);
    var r := MarkAll(l, price, order);
    assert StepMarked(l, price, order, r, i);
  }

  lemma SaleOf(l: LadderExit, price: real, order: seq<Sale>, i: nat)
    requires multiset(order) == multiset(Batch(l, price)) && i < |l.steps|
    ensures InBatch(order, i) <==> l.active && Due(l, price, i)
    ensures l.active && Due(l, price, i) ==> Sale(i, SharesFor(l, i)) in order
  {
    DueMarkable(l, price, |l.steps|);
    BatchMarkable(l, price, order);
    StepInBatch(order, i);
    hide Due, SharesFor, MarkAll;
  }

  lemma DueIs(l: LadderExit, price: real, i: nat)
    requires i < |l.steps|
    ensures var shares := l.remainingShares * l.steps[i].sellPercent / 100.0;
            && SharesFor(l, i) == shares
            && (Due(l, price, i) <==> !l.steps[i].executed && l.steps[i].triggerPrice <= price && shares >= 0.01)
  {
    PortionIs(l.remainingShares, l.steps[i].sellPercent);
    hide Portion;
  }

  lemma PortionIs(shares: real, percent: real)
    ensures Portion(shares, percent) == shares * percent / 100.0
  {
    PerCent(shares, percent, percent / 100.0);
  }

  /** A check emits exactly the sales of the batches of the ladders whose token has a price. */
  lemma {:induction false} CheckExactly(ladders: seq<LadderExit>, prices: map<string, real>, t: Trigger)
    ensures t in Check(ladders, prices)
            <==> t.ladder in ladders && t.ladder.tokenId in prices
                 && t.sale in Batch(t.ladder, prices[t.ladder.tokenId])
  {
    hide Batch;
    if ladders != [] {
      var init, last := ladders[..|ladders| - 1], ladders[|ladders| - 1];
      CheckExactly(init, prices, t);
      assert ladders == init + [last];
      if last.tokenId in prices {
        TaggedMembers(last, Batch(last, prices[last.tokenId]), t);
      }
    }
  }

  lemma TaggedMembers(l: LadderExit, sales: seq<Sale>, t: Trigger)
    ensures t in Tagged(l, sales) <==> t.ladder == l && t.sale in sales
  {
    if t.ladder == l && t.sale in sales {
      var i :| 0 <= i < |sales| && sales[i] == t.sale;
      assert Tagged(l, sales)[i] == t;
    }
  }

  /** A cancelled ladder sells nothing more, and the others sell what they would have sold. */
  lemma CancelledSellsNothing(ladders: seq<LadderExit>, id: string, prices: map<string, real>, t: Trigger)
    requires forall i, j :: 0 <= i < j < |ladders| ==> ladders[i].id != ladders[j].id
    ensures t in Check(Cancelled(ladders, id), prices) <==> t in Check(ladders, prices) && t.ladder.id != id
  {
    var left := Cancelled(ladders, id);
    CheckExactly(ladders, prices, t);
    CheckExactly(left, prices, t);
    hide Check, DueAmong;
    if t.ladder in ladders && t.ladder.id != id {
      var k :| 0 <= k < |ladders| && ladders[k] == t.ladder;
      assert left[k] == t.ladder;
    }
    if t.ladder in left && t.ladder.active {
      var k :| 0 <= k < |left| && left[k] == t.ladder;
      assert ladders[k] == t.ladder;
    }
  }

  /** The steps of a ladder created without settings or steps of its own: four, each for 25 percent, at 0.10, 0.20, 0.30
      and 0.40 above entry, but not above 0.99. A step of the caller's lacks nothing but a trigger of 0 and those 25
      percent. */
  lemma StepsInNumbers(entry: real, custom: seq<CustomStep>, i: nat)
    ensures var steps := StepsFor(DEFAULT_CONFIG, entry, custom);
            && |steps| == (if custom == [] then 4 else |custom|)
            && (i < |steps| ==>
                  && !steps[i].executed
                  && (if custom == [] then
                        && steps[i].sellPercent == 25.0
                        && (entry + 0.1 * (i + 1) as real <= 0.99 ==>
                              steps[i].triggerPrice == entry + 0.1 * (i + 1) as real)
                        && (entry + 0.1 * (i + 1) as real > 0.99 ==> steps[i].triggerPrice == 0.99)
                      else
                        && steps[i].triggerPrice == (match custom[i].triggerPrice case Some(p) => p case None => 0.0)
                        && steps[i].sellPercent == (match custom[i].sellPercent case Some(p) => p case None => 25.0)))
  {
    assert (10.0 + i as real * 10.0) / 100.0 == 0.1 * (i + 1) as real;
  }

  lemma RoundKeepsPrefix(l: LadderExit, price: real, order: seq<Sale>)
    requires l.remainingShares >= 0.0 && multiset(order) == multiset(Batch(l, price))
    requires Uniform(l.steps) && Prefix(l.steps)
    ensures Prefix(MarkAll(l, price, order).steps)
  {
    RoundKeepsPercents(l, price, order);
    var r := MarkAll(l, price, order);
    forall i, j | 0 <= i <= j < |l.steps| && r.steps[j].executed
      ensures r.steps[i].executed
    {
      RoundExecutes(l, price, order, i);
      RoundExecutes(l, price, order, j);
      if !l.steps[j].executed && !l.steps[i].executed {
        DueTogether(l, price, i, j);
      }
    }
  }

  /** The executed steps of a default ladder are always its lowest ones. */
  lemma {:induction false} ExecutedStepsFormPrefix(l: LadderExit, rounds: seq<Round>)
    requires Unstarted(l) && InFull(l, rounds) && Uniform(l.steps)
    ensures Prefix(Run(l, rounds).steps) && Uniform(Run(l, rounds).steps)
    ensures Run(l, rounds).remainingShares >= 0.0
  {
    if rounds != [] {
      var n := |rounds| - 1;
      var init, last := rounds[..n], rounds[n];
      assert InFull(l, init) by {
        assert forall i :: 0 <= i < n ==> init[..i] == rounds[..i];
      }
      ExecutedStepsFormPrefix(l, init);
      RoundKeepsPrefix(Run(l, init), last.price, last.order);
      RoundKeepsPercents(Run(l, init), last.price, last.order);
    }
  }

  lemma TwoDue(l: LadderExit)
    requires l.remainingShares == 100.0 && l.steps == [NewStep(0.6, 60.0), NewStep(0.6, 60.0)]
    ensures DueAmong(l, 0.6, 2) == [Sale(0, 60.0), Sale(1, 60.0)]
  {
    assert Portion(100.0, 60.0) == 60.0;
    hide Portion;
    assert Due(l, 0.6, 0) && Due(l, 0.6, 1);
    assert DueAmong(l, 0.6, 0) == [];
    assert DueAmong(l, 0.6, 1) == [Sale(0, 60.0)];
  }

  /** Two steps of 60 percent in one check: 120 shares are executed of 100. */
  lemma OverfullBatchLosesCount()
    ensures var l := LadderExit("l", "t", 0.5, 100.0, 100.0, [NewStep(0.6, 60.0), NewStep(0.6, 60.0)], true);
            var r := MarkAll(l, 0.6, Batch(l, 0.6));
            r.remainingShares == 0.0 && ExecutedShares(r.steps) == 120.0
  {
    hide DueAmong, Portion, MarkAll, Due;
    var l := LadderExit("l", "t", 0.5, 100.0, 100.0, [NewStep(0.6, 60.0), NewStep(0.6, 60.0)], true);
    var first, second := Sale(0, 60.0), Sale(1, 60.0);
    TwoDue(l);
    DueMarkable(l, 0.6, 2);
    NothingExecuted(l.steps);
    SumOfOne(first);
    assert [first, second][..1] == [first];
    BatchExecutes(l, 0.6, [first, second]);
    MarkAllMarks(l, 0.6, [first, second]);
  }
}
