/**
 * Ladder exits: steps that each sell a share of the remaining position once the price reaches
 * them (src/ladderExitManager.ts).
 */
module Ladder {
  import opened Lists
  import opened Options
  import opened Rounding

  datatype Step = Step(triggerPrice: real, sellPercent: real, executed: bool, executedPrice: real, executedShares: real)

  datatype LadderExit = LadderExit(
    id: string,
    tokenId: string,
    entryPrice: real,
    totalShares: real,
    remainingShares: real,
    steps: seq<Step>,
    active: bool
  )

  datatype Config = Config(stepCount: nat, startPercent: real, stepSpread: real, sellPercent: real)

  const DEFAULT_CONFIG := Config(4, 10.0, 10.0, 25.0)

  /** A caller's step; missing parts take the defaults. */
  datatype CustomStep = CustomStep(triggerPrice: Option<real>, sellPercent: Option<real>)

  function NewStep(trigger: real, percent: real): Step {
    Step(trigger, percent, false, 0.0, 0.0)
  }

  function DefaultTrigger(c: Config, entry: real, i: nat): real {
    Min(0.99, entry + (c.startPercent + i as real * c.stepSpread) / 100.0)
  }

  function StepsFor(c: Config, entry: real, custom: seq<CustomStep>): seq<Step> {
    if custom != [] then
      seq(|custom|, i requires 0 <= i < |custom| =>
        NewStep(custom[i].triggerPrice.GetOr(0.0), custom[i].sellPercent.GetOr(c.sellPercent)))
    else
      seq(c.stepCount, i requires 0 <= i < c.stepCount => NewStep(DefaultTrigger(c, entry, i), c.sellPercent))
  }

  // ---------------------------------------------------------------- checking and marking

  datatype Sale = Sale(step: nat, shares: real)

  function Portion(shares: real, percent: real): real {
    shares * (percent / 100.0)
  }

  function SharesFor(l: LadderExit, i: nat): real
    requires i < |l.steps|
  {
    Portion(l.remainingShares, l.steps[i].sellPercent)
  }

  predicate Due(l: LadderExit, price: real, i: nat)
    requires i < |l.steps|
  {
    !l.steps[i].executed && price >= l.steps[i].triggerPrice && SharesFor(l, i) >= 0.01
  }

  function DueAmong(l: LadderExit, price: real, n: nat): seq<Sale>
    requires n <= |l.steps|
  {
    if n == 0 then []
    else DueAmong(l, price, n - 1) + if Due(l, price, n - 1) then [Sale(n - 1, SharesFor(l, n - 1))] else []
  }

  /** What one check emits for a ladder: every due step, each sized from the same remaining shares. */
  function Batch(l: LadderExit, price: real): seq<Sale> {
    if l.active then DueAmong(l, price, |l.steps|) else []
  }

  predicate AllExecuted(steps: seq<Step>) {
    forall i :: 0 <= i < |steps| ==> steps[i].executed
  }

  function Mark(l: LadderExit, index: int, price: real, shares: real): LadderExit {
    if !(0 <= index < |l.steps|) then l
    else
      var steps := l.steps[index := l.steps[index].(executed := true, executedPrice := price,
                                                    executedShares := shares)];
      var remaining := Max(0.0, l.remainingShares - shares);
      l.(steps := steps, remainingShares := remaining,
         active := l.active && !AllExecuted(steps) && remaining > 0.0)
  }

  function MarkAll(l: LadderExit, price: real, sales: seq<Sale>): LadderExit {
    if sales == [] then l
    else
      var last := sales[|sales| - 1];
      Mark(MarkAll(l, price, sales[..|sales| - 1]), last.step, price, last.shares)
  }

  // ---------------------------------------------------------------- the manager

  datatype Trigger = Trigger(ladder: LadderExit, sale: Sale)

  function Tagged(l: LadderExit, sales: seq<Sale>): seq<Trigger> {
    seq(|sales|, i requires 0 <= i < |sales| => Trigger(l, sales[i]))
  }

  function Check(ladders: seq<LadderExit>, prices: map<string, real>): seq<Trigger> {
    if ladders == [] then []
    else
      var last := ladders[|ladders| - 1];
      Check(ladders[..|ladders| - 1], prices) +
      if last.tokenId in prices then Tagged(last, Batch(last, prices[last.tokenId])) else []
  }

  function HasId(id: string): LadderExit -> bool {
    (l: LadderExit) => l.id == id
  }

  /** The first ladder with the id is switched off. */
  function Cancelled(ladders: seq<LadderExit>, id: string): seq<LadderExit> {
    var i := FindFirst(ladders, HasId(id));
    if i < |ladders| then ladders[i := ladders[i].(active := false)] else ladders
  }

  class LadderExitManager {
    var ladders: seq<LadderExit>
    var config: Config

    constructor ()
      ensures ladders == [] && config == DEFAULT_CONFIG
    {
      ladders, config := [], DEFAULT_CONFIG;
    }

    /** Lines 94-144. */
    method CreateLadder(id: string, tokenId: string, entryPrice: real, totalShares: real, customSteps: seq<CustomStep>)
      returns (ladder: LadderExit)
      modifies this`ladders
      ensures ladders == old(ladders) + [ladder] && ladder.id == id && ladder.tokenId == tokenId
      ensures ladder.steps == StepsFor(config, entryPrice, customSteps) && ladder.active
      ensures ladder.totalShares == ladder.remainingShares == totalShares && ladder.entryPrice == entryPrice
    {
      var steps := [];
      if |customSteps| > 0 {
        for i := 0 to |customSteps|
          invariant steps == StepsFor(config, entryPrice, customSteps)[..i]
        {
          var s := customSteps[i];
          steps := steps + [NewStep(s.triggerPrice.GetOr(0.0), s.sellPercent.GetOr(config.sellPercent))];
        }
      } else {
        for i := 0 to config.stepCount
          invariant |steps| == i
          invariant forall k :: 0 <= k < i ==>
                      steps[k] == NewStep(DefaultTrigger(config, entryPrice, k), config.sellPercent)
        {
          var triggerPrice := Min(0.99, entryPrice + (config.startPercent + i as real * config.stepSpread) / 100.0);
          steps := steps + [NewStep(triggerPrice, config.sellPercent)];
        }
      }
      ladder := LadderExit(id, tokenId, entryPrice, totalShares, totalShares, steps, true);
      ladders := ladders + [ladder];
    }

    /** Lines 149-172. */
    method CheckLadders(priceMap: map<string, real>) returns (toExecute: seq<Trigger>)
      ensures toExecute == Check(ladders, priceMap)
    {
      toExecute := [];
      for i := 0 to |ladders|
        invariant toExecute == Check(ladders[..i], priceMap)
      {
        var ladder := ladders[i];
        assert ladders[..i + 1][..i] == ladders[..i];
        if ladder.active && ladder.tokenId in priceMap {
          var currentPrice := priceMap[ladder.tokenId];
          ghost var before := toExecute;
          for j := 0 to |ladder.steps|
            invariant toExecute == before + Tagged(ladder, DueAmong(ladder, currentPrice, j))
          {
            var step := ladder.steps[j];
            ghost var soFar := DueAmong(ladder, currentPrice, j);
            if !step.executed && !(currentPrice < step.triggerPrice) {
              var sharesToSell := Portion(ladder.remainingShares, step.sellPercent);
              if !(sharesToSell < 0.01) {
                toExecute := toExecute + [Trigger(ladder, Sale(j, sharesToSell))];
                assert sharesToSell == SharesFor(ladder, j);
                assert Due(ladder, currentPrice, j);
                assert DueAmong(ladder, currentPrice, j + 1) == soFar + [Sale(j, sharesToSell)];
                assert Tagged(ladder, soFar + [Sale(j, sharesToSell)])
                       == Tagged(ladder, soFar) + [Trigger(ladder, Sale(j, sharesToSell))];
              }
            }
            assert !Due(ladder, currentPrice, j) ==> DueAmong(ladder, currentPrice, j + 1) == soFar + [] == soFar;
          }
        }
      }
      assert ladders[..|ladders|] == ladders;
    }

    /** Lines 177-197. */
    method MarkStepExecuted(ladderId: string, stepIndex: int, executedPrice: real, executedShares: real)
      modifies this`ladders
      ensures var i := FindFirst(old(ladders), HasId(ladderId));
              ladders == if i < |old(ladders)|
                         then old(ladders)[i := Mark(old(ladders)[i], stepIndex, executedPrice, executedShares)]
                         else old(ladders)
    {
      var i := Find(ladderId);
      if i == |ladders| {
        return;
      }
      var ladder := ladders[i];
      if !(0 <= stepIndex < |ladder.steps|) {
        assert ladders == ladders[i := ladder];
        return;
      }
      var step := ladder.steps[stepIndex].(executed := true, executedPrice := executedPrice,
                                           executedShares := executedShares);
      ladder := ladder.(steps := ladder.steps[stepIndex := step]);
      ladder := ladder.(remainingShares := Max(0.0, ladder.remainingShares - executedShares));
      var every := true;
      for j := 0 to |ladder.steps|
        invariant every <==> forall k :: 0 <= k < j ==> ladder.steps[k].executed
      {
        every := every && ladder.steps[j].executed;
      }
      if every || ladder.remainingShares <= 0.0 {
        ladder := ladder.(active := false);
      }
      ladders := ladders[i := ladder];
    }

    /** Lines 202-209. */
    method CancelLadder(ladderId: string)
      modifies this`ladders
      ensures ladders == Cancelled(old(ladders), ladderId)
    {
      var i := Find(ladderId);
      if i < |ladders| {
        ladders := ladders[i := ladders[i].(active := false)];
      }
    }

    method Find(ladderId: string) returns (i: nat)
      ensures i == FindFirst(ladders, HasId(ladderId))
    {
      i := 0;
      while i < |ladders| && ladders[i].id != ladderId
        invariant i <= |ladders| && forall j :: 0 <= j < i ==> !HasId(ladderId)(ladders[j])
      {
        i := i + 1;
      }
    }
  }
}
