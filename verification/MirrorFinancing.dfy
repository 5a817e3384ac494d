/**
 * The buys of a mirror preview pay for themselves: the balance shortfall is bounded by the
 * holdings above target that the preview does not sell, plus half a cent a selected trade.
 */
module MirrorFinancing {
  import opened Lists
  import opened Options
  import opened Rounding
  import opened Mirror
  import opened MirrorIdempotence

  // ---------------------------------------------------------------- gaps between target and holding

  predicate Considered(their: Position, g: Setting) {
    g.weight > 0.0 && !their.redeemable
  }

  /** Value of the target of a position of theirs; 0 when the preview skips it. */
  function TargetValue(their: Position, g: Setting): real {
    if Considered(their, g) then Worth(TargetShares(their, g), their.curPrice) else 0.0
  }

  /** What reaching the target would cost, negative when you hold more than it. */
  function Gap(their: Position, yours: real, g: Setting): real {
    TargetValue(their, g) - Worth(yours, their.curPrice)
  }

  function SignedCost(t: Trade): real {
    if t.selected then t.estimatedCost else 0.0
  }

  /** Value held above target that the preview leaves unsold. */
  function LeftByMatching(theirs: seq<Position>, yours: seq<Position>, g: Setting): real {
    if theirs == [] then 0.0
    else
      var had := SharesOf(yours, Last(theirs).asset);
      LeftByMatching(Init(theirs), yours, g) +
      if TradeForPosition(Last(theirs), had, g).selected then 0.0 else Max(0.0, -Gap(Last(theirs), had, g))
  }

  function LeftByClosing(yours: seq<Position>, theirs: seq<Position>, g: Setting): real {
    if yours == [] then 0.0
    else
      LeftByClosing(Init(yours), theirs, g) +
      var t := SellToClose(Last(yours), g);
      if Holds(theirs, Last(yours).asset) || (t.Some? && t.value.selected) then 0.0
      else Worth(Last(yours).size, Last(yours).curPrice)
  }

  function LeftUnsold(theirs: seq<Position>, yours: seq<Position>, g: Setting): real {
    LeftByMatching(theirs, yours, g) + LeftByClosing(yours, theirs, g)
  }

  // ---------------------------------------------------------------- one trade

  lemma GapIs(their: Position, yours: real, g: Setting)
    requires Considered(their, g)
    ensures Gap(their, yours, g) == Worth(TargetShares(their, g) - yours, their.curPrice)
  {
  }

  /** The cost of a selected trade is its rounded gap. */
  lemma SelectedMatching(their: Position, yours: real, g: Setting) returns (value: real)
    requires their.curPrice >= 0.0 && TradeForPosition(their, yours, g).selected
    ensures var t := TradeForPosition(their, yours, g);
            && value == Gap(their, yours, g) && t.estimatedCost == Fixed2(value)
            && (t.action == Buy ==> value >= 0.0) && (t.action == Sell ==> value <= 0.0)
  {
    hide TargetShares, Gap, Fixed2, Fixed4, Percent, Deviation, Worth;
    var delta := TargetShares(their, g) - yours;
    value := Worth(delta, their.curPrice);
    WorthSign(delta, their.curPrice);
    WorthAdds(delta, delta, their.curPrice);
    GapIs(their, yours, g);
  }

  /** A selected trade costs its gap up to rounding; an unselected one costs nothing. */
  lemma CostOfMatching(their: Position, yours: real, g: Setting)
    requires their.curPrice >= 0.0
    ensures var t := TradeForPosition(their, yours, g);
            && (t.selected ==> SignedCost(t) <= Gap(their, yours, g) + 0.005)
            && (!t.selected ==> SignedCost(t) <= Gap(their, yours, g) + Max(0.0, -Gap(their, yours, g)))
            && (t.selected && t.action == Buy ==> t.estimatedCost >= 0.0)
            && (t.selected && t.action == Sell ==> t.estimatedCost <= 0.0)
  {
    hide TradeForPosition, Gap, Fixed2;
    if TradeForPosition(their, yours, g).selected {
      var value := SelectedMatching(their, yours, g);
      Fixed2Near(value);
    }
  }

  lemma CostOfClosing(p: Position, t: Trade, g: Setting)
    requires p.size >= 0.0 && p.curPrice >= 0.0
    requires SellToClose(p, g) == Some(t) && t.selected
    ensures t.action == Sell && t.estimatedCost <= 0.0
    ensures t.estimatedCost <= -Worth(p.size, p.curPrice) + 0.005
  {
  }

  // ---------------------------------------------------------------- sums

  function SumTargets(theirs: seq<Position>, g: Setting): real {
    if theirs == [] then 0.0 else SumTargets(Init(theirs), g) + TargetValue(Last(theirs), g)
  }

  /** Your value in the assets they list, at their prices. */
  function SharedValue(theirs: seq<Position>, yours: seq<Position>): real {
    if theirs == [] then 0.0
    else SharedValue(Init(theirs), yours) + Worth(SharesOf(yours, Last(theirs).asset), Last(theirs).curPrice)
  }

  /** Your value in the other assets. */
  function OwnValue(yours: seq<Position>, theirs: seq<Position>): real {
    if yours == [] then 0.0
    else
      OwnValue(Init(yours), theirs) +
      if Holds(theirs, Last(yours).asset) then 0.0 else Worth(Last(yours).size, Last(yours).curPrice)
  }

  function SumSigned(ts: seq<Trade>): real {
    if ts == [] then 0.0 else SumSigned(Init(ts)) + SignedCost(Last(ts))
  }

  lemma {:induction false} SignedAppend(ts: seq<Trade>, us: seq<Trade>)
    ensures SumSigned(ts + us) == SumSigned(ts) + SumSigned(us)
    ensures SelectedCount(ts + us) == SelectedCount(ts) + SelectedCount(us)
  {
    if us == [] {
      assert ts + us == ts;
    } else {
      SignedAppend(ts, Init(us));
      assert Init(ts + us) == ts + Init(us);
    }
  }

  lemma {:induction false} MatchingCost(theirs: seq<Position>, yours: seq<Position>, g: Setting)
    requires forall p :: p in theirs ==> p.curPrice >= 0.0
    ensures var ts := Matching(theirs, yours, g);
            SumSigned(ts) <= SumTargets(theirs, g) - SharedValue(theirs, yours)
                             + LeftByMatching(theirs, yours, g) + 0.005 * SelectedCount(ts) as real
  {
    hide TradeForPosition, TargetValue, Worth;
    if theirs != [] {
      MatchingCost(Init(theirs), yours, g);
      CostOfMatching(Last(theirs), SharesOf(yours, Last(theirs).asset), g);
      assert Init(Matching(theirs, yours, g)) == Matching(Init(theirs), yours, g);
    }
  }

  lemma {:induction false} ClosingCost(yours: seq<Position>, theirs: seq<Position>, g: Setting)
    requires forall p :: p in yours ==> p.size >= 0.0 && p.curPrice >= 0.0
    ensures var ts := Closing(yours, theirs, g);
            SumSigned(ts)
              <= -OwnValue(yours, theirs) + LeftByClosing(yours, theirs, g) + 0.005 * SelectedCount(ts) as real
  {
    hide SellToClose, Worth;
    if yours != [] {
      ClosingCost(Init(yours), theirs, g);
      var p := Last(yours);
      var last := if Holds(theirs, p.asset) then [] else AsList(SellToClose(p, g));
      SignedAppend(Closing(Init(yours), theirs, g), last);
      if last != [] {
        assert Init(last) == [];
        if last[0].selected {
          CostOfClosing(p, last[0], g);
        }
      }
    }
  }

  /** Joining the two lists by asset loses and repeats nothing. */
  lemma {:induction false} JoinSum(theirs: seq<Position>, yours: seq<Position>)
    requires Distinct(theirs) && Distinct(yours) && PricesAgree(theirs, yours)
    ensures PositionsValue(yours) == SharedValue(theirs, yours) + OwnValue(yours, theirs)
  {
    if yours == [] {
      NothingShared(theirs);
    } else {
      JoinSum(theirs, Init(yours));
      assert Last(yours) in yours;
      OneMore(theirs, yours);
    }
  }

  lemma {:induction false} NothingShared(theirs: seq<Position>)
    ensures SharedValue(theirs, []) == 0.0
  {
    if theirs != [] {
      NothingShared(Init(theirs));
    }
  }

  lemma SharedStep(their: Position, yours: seq<Position>)
    requires yours != [] && Distinct(yours)
    requires their.asset == Last(yours).asset ==> their.curPrice == Last(yours).curPrice
    ensures Worth(SharesOf(yours, their.asset), their.curPrice) ==
            Worth(SharesOf(Init(yours), their.asset), their.curPrice)
            + if their.asset == Last(yours).asset then Worth(Last(yours).size, Last(yours).curPrice) else 0.0
  {
    if their.asset == Last(yours).asset {
      assert !Holds(Init(yours), their.asset) by {
        assert forall i :: 0 <= i < |yours| - 1 ==> Init(yours)[i] == yours[i];
      }
      SharesAbsent(Init(yours), their.asset);
    }
  }

  /** The last of your positions adds its value on exactly one side of the join. */
  lemma {:induction false} OneMore(theirs: seq<Position>, yours: seq<Position>)
    requires yours != [] && Distinct(theirs) && Distinct(yours)
    requires forall p :: p in theirs && p.asset == Last(yours).asset ==> p.curPrice == Last(yours).curPrice
    ensures SharedValue(theirs, yours) ==
            SharedValue(theirs, Init(yours)) +
            if Holds(theirs, Last(yours).asset) then Worth(Last(yours).size, Last(yours).curPrice) else 0.0
  {
    if theirs != [] {
      OneMore(Init(theirs), yours);
      HoldsNext(theirs, |theirs| - 1);
      assert theirs[..|theirs|] == theirs;
      assert Last(theirs) in theirs;
      SharedStep(Last(theirs), yours);
      assert Last(theirs).asset == Last(yours).asset ==> !Holds(Init(theirs), Last(yours).asset);
    }
  }

  // ---------------------------------------------------------------- targets fit in the portfolio

  lemma TargetIsShare(p: Position, g: Setting, budget: real)
    requires g.theirTotal > 0.0 && g.weight > 0.0 && p.curPrice >= 0.0 && p.size >= 0.0
    requires budget == g.yourTotal * g.weight && budget >= 0.0
    ensures TargetValue(p, g) <= Worth(p.size, p.curPrice) / g.theirTotal * budget
  {
  }

  lemma SharesAdd(x: real, y: real, total: real, budget: real)
    requires total > 0.0
    ensures x / total * budget + y / total * budget == (x + y) / total * budget
  {
    assert x / total + y / total == (x + y) / total;
  }

  lemma {:induction false} TargetsAreShares(theirs: seq<Position>, g: Setting, budget: real)
    requires g.theirTotal > 0.0 && g.weight > 0.0 && budget == g.yourTotal * g.weight && budget >= 0.0
    requires forall p :: p in theirs ==> p.size >= 0.0 && p.curPrice >= 0.0
    ensures SumTargets(theirs, g) <= PositionsValue(theirs) / g.theirTotal * budget
  {
    hide TargetValue;
    if theirs != [] {
      TargetsAreShares(Init(theirs), g, budget);
      var p := Last(theirs);
      assert p in theirs;
      TargetIsShare(p, g, budget);
      SharesAdd(PositionsValue(Init(theirs)), Worth(p.size, p.curPrice), g.theirTotal, budget);
    }
  }

  lemma {:induction false} NoTargets(theirs: seq<Position>, g: Setting)
    requires g.theirTotal <= 0.0 || g.weight <= 0.0
    ensures SumTargets(theirs, g) == 0.0
  {
    if theirs != [] {
      NoTargets(Init(theirs), g);
      if Considered(Last(theirs), g) {
        assert Percent(Worth(Last(theirs).size, Last(theirs).curPrice), g.theirTotal) / 100.0 == 0.0;
      }
    }
  }

  lemma AtMostWhole(part: real, whole: real)
    requires 0.0 <= part <= 1.0 && whole >= 0.0
    ensures 0.0 <= part * whole <= whole
  {
  }

  lemma ShareOfBudget(value: real, total: real, budget: real)
    requires 0.0 <= value <= total && total > 0.0 && budget >= 0.0
    ensures value / total * budget <= budget
  {
  }

  lemma {:induction false} ValueNonnegative(ps: seq<Position>)
    requires forall p :: p in ps ==> p.size >= 0.0 && p.curPrice >= 0.0
    ensures PositionsValue(ps) >= 0.0
  {
    if ps != [] {
      ValueNonnegative(Init(ps));
      WorthSign(Last(ps).size, Last(ps).curPrice);
    }
  }

  lemma TargetsWithin(theirs: seq<Position>, g: Setting, budget: real)
    requires g.theirTotal > 0.0 && g.weight > 0.0 && budget == g.yourTotal * g.weight && budget >= 0.0
    requires 0.0 <= PositionsValue(theirs) <= g.theirTotal
    requires forall p :: p in theirs ==> p.size >= 0.0 && p.curPrice >= 0.0
    ensures SumTargets(theirs, g) <= budget
  {
    TargetsAreShares(theirs, g, budget);
    ShareOfBudget(PositionsValue(theirs), g.theirTotal, budget);
  }

  lemma TargetsFit(theirs: seq<Position>, g: Setting)
    requires g.weight <= 1.0 && g.yourTotal >= 0.0 && PositionsValue(theirs) <= g.theirTotal
    requires forall p :: p in theirs ==> p.size >= 0.0 && p.curPrice >= 0.0
    ensures SumTargets(theirs, g) <= g.yourTotal
  {
    if g.theirTotal > 0.0 && g.weight > 0.0 {
      assert 0.0 <= PositionsValue(theirs) by {
        ValueNonnegative(theirs);
      }
      var budget := g.yourTotal * g.weight;
      assert 0.0 <= budget <= g.yourTotal by {
        AtMostWhole(g.weight, g.yourTotal);
      }
      TargetsWithin(theirs, g, budget);
    } else {
      NoTargets(theirs, g);
    }
  }

  // ---------------------------------------------------------------- the main results

  /** Buys cost nothing negative, sells bring nothing negative. */
  ghost predicate CostSigns(ts: seq<Trade>) {
    forall t :: t in ts && t.selected ==>
      && (t.action == Buy ==> t.estimatedCost >= 0.0)
      && (t.action == Sell ==> t.estimatedCost <= 0.0)
      && t.action != Skip
  }

  lemma {:induction false} CostsBySide(ts: seq<Trade>)
    requires CostSigns(ts)
    ensures SelectedCost(ts, Sell) <= 0.0 <= SelectedCost(ts, Buy)
    ensures SelectedCost(ts, Buy) + SelectedCost(ts, Sell) == SumSigned(ts)
  {
    if ts != [] {
      assert Last(ts) in ts;
      CostsBySide(Init(ts));
    }
  }

  lemma PreviewSigns(theirs: seq<Position>, yours: seq<Position>, g: Setting)
    requires forall p :: p in theirs ==> p.curPrice >= 0.0
    requires forall p :: p in yours ==> p.size >= 0.0 && p.curPrice >= 0.0
    ensures CostSigns(Preview(theirs, yours, g))
  {
    forall t | t in Preview(theirs, yours, g) && t.selected
      ensures (t.action == Buy ==> t.estimatedCost >= 0.0) && (t.action == Sell ==> t.estimatedCost <= 0.0)
              && t.action != Skip
    {
      PreviewTrades(theirs, yours, g, t);
      if t in Matching(theirs, yours, g) {
        MatchingTrades(theirs, yours, g);
        var i :| 0 <= i < |theirs| && Matching(theirs, yours, g)[i] == t;
        assert theirs[i] in theirs;
        CostOfMatching(theirs[i], SharesOf(yours, theirs[i].asset), g);
      } else {
        ClosingTrades(yours, theirs, g, t);
        var i :| 0 <= i < |yours| && !Holds(theirs, yours[i].asset) && SellToClose(yours[i], g) == Some(t);
        assert yours[i] in yours;
        CostOfClosing(yours[i], t, g);
      }
    }
  }

  /** The shortfall is at most the value above target left unsold plus half a cent a selected trade. */
  lemma SelfFinancing(theirs: seq<Position>, theirTotal: real, yours: seq<Position>, usdc: real, slippage: real,
                      weight: real)
    requires Distinct(theirs) && Distinct(yours) && PricesAgree(theirs, yours)
    requires forall p :: p in theirs + yours ==> p.size >= 0.0 && p.curPrice >= 0.0
    requires usdc >= 0.0 && weight <= 1.0 && PositionsValue(theirs) <= theirTotal
    ensures var g := SettingFor(yours, usdc, theirTotal, slippage, weight);
            var ts := Preview(theirs, yours, g);
            Shortfall(ts, usdc) <= LeftUnsold(theirs, yours, g) + 0.005 * SelectedCount(ts) as real
  {
    var g := SettingFor(yours, usdc, theirTotal, slippage, weight);
    assert forall p :: p in theirs ==> p in theirs + yours;
    assert forall p :: p in yours ==> p in theirs + yours;
    ValueNonnegative(yours);
    TargetsFit(theirs, g);
    JoinSum(theirs, yours);
    MatchingCost(theirs, yours, g);
    ClosingCost(yours, theirs, g);
    SignedAppend(Matching(theirs, yours, g), Closing(yours, theirs, g));
    PreviewSigns(theirs, yours, g);
    CostsBySide(Preview(theirs, yours, g));
  }

  // ---------------------------------------------------------------- sells first

  /** The balance after the first trades of an order, at the estimated costs. */
  function Balance(usdc: real, ts: seq<Trade>): real {
    if ts == [] then usdc else Balance(usdc, Init(ts)) - Last(ts).estimatedCost
  }

  lemma {:induction false} BalanceAppend(usdc: real, ts: seq<Trade>, us: seq<Trade>)
    ensures Balance(usdc, ts + us) == Balance(Balance(usdc, ts), us)
  {
    if us == [] {
      assert ts + us == ts;
    } else {
      BalanceAppend(usdc, ts, Init(us));
      assert Init(ts + us) == ts + Init(us);
    }
  }

  /** Down a run of buys the balance only falls, along sells it only rises. */
  lemma {:induction false} BalanceMoves(usdc: real, ts: seq<Trade>, k: nat)
    requires k <= |ts|
    ensures (forall t :: t in ts ==> t.estimatedCost >= 0.0) ==> Balance(usdc, ts) <= Balance(usdc, ts[..k]) <= usdc
    ensures (forall t :: t in ts ==> t.estimatedCost <= 0.0) ==> Balance(usdc, ts) >= Balance(usdc, ts[..k]) >= usdc
  {
    if ts != [] {
      assert Last(ts) in ts;
      if k < |ts| {
        BalanceMoves(usdc, Init(ts), k);
        assert Init(ts)[..k] == ts[..k];
      } else {
        assert ts[..k] == ts;
        BalanceMoves(usdc, Init(ts), |ts| - 1);
        assert Init(ts)[..|ts| - 1] == Init(ts);
      }
    } else {
      assert ts[..k] == [];
    }
  }

  lemma {:induction false} SideBalance(usdc: real, ts: seq<Trade>, action: Action)
    requires action != Skip && Executable(ts)
    ensures Balance(usdc, Only(Active(ts), action)) == usdc - SelectedCost(ts, action)
  {
    if ts != [] {
      assert Last(ts) in ts;
      SideBalance(usdc, Init(ts), action);
      var active := Active(Init(ts));
      if Last(ts).selected {
        assert Active(ts) == active + [Last(ts)];
        assert Init(Active(ts)) == active && Last(Active(ts)) == Last(ts);
        var only := Only(active, action);
        if Last(ts).action == action {
          assert Only(Active(ts), action) == only + [Last(ts)];
          assert Init(only + [Last(ts)]) == only;
        } else {
          assert Only(Active(ts), action) == only + [] == only;
        }
      } else {
        assert Active(ts) == active + [] == active;
      }
    }
  }

  /** Every sell of the execution order brings money, every buy costs some. */
  lemma SideSigns(ts: seq<Trade>)
    requires CostSigns(ts) && Executable(ts)
    ensures forall t :: t in Only(Active(ts), Sell) ==> t.estimatedCost <= 0.0
    ensures forall t :: t in Only(Active(ts), Buy) ==> t.estimatedCost >= 0.0
  {
    ActiveNet(ts, "");
    OnlyMembers(Active(ts), Sell);
    OnlyMembers(Active(ts), Buy);
    hide Only, Active;
  }

  /** With the sells first, the balance stays non-negative throughout the execution exactly when the preview
      gives no balance warning. */
  lemma NeverOverdrawn(ts: seq<Trade>, usdc: real)
    requires usdc >= 0.0 && CostSigns(ts) && Executable(ts)
    ensures (forall k :: 0 <= k <= |ExecutionOrder(ts)| ==> Balance(usdc, ExecutionOrder(ts)[..k]) >= 0.0)
            <==> Shortfall(ts, usdc) <= 0.0
  {
    hide Only, Active, SelectedCost, CostSigns, Executable;
    var sells, buys, order := Only(Active(ts), Sell), Only(Active(ts), Buy), ExecutionOrder(ts);
    SideSigns(ts);
    CostsBySide(ts);
    SideBalance(usdc, ts, Sell);
    var mid := Balance(usdc, sells);
    SideBalance(mid, ts, Buy);
    BalanceAppend(usdc, sells, buys);
    assert Balance(usdc, order) == -Shortfall(ts, usdc);
    assert order[..|order|] == order;
    forall k | 0 <= k <= |order| && Shortfall(ts, usdc) <= 0.0
      ensures Balance(usdc, order[..k]) >= 0.0
    {
      PrefixBalance(usdc, sells, buys, k);
    }
  }

  lemma PrefixBalance(usdc: real, sells: seq<Trade>, buys: seq<Trade>, k: nat)
    requires k <= |sells + buys|
    requires forall t :: t in sells ==> t.estimatedCost <= 0.0
    requires forall t :: t in buys ==> t.estimatedCost >= 0.0
    ensures Balance(usdc, (sells + buys)[..k]) >= usdc
            || Balance(usdc, (sells + buys)[..k]) >= Balance(usdc, sells + buys)
  {
    var order, mid := sells + buys, Balance(usdc, sells);
    if k <= |sells| {
      assert order[..k] == sells[..k];
      BalanceMoves(usdc, sells, k);
    } else {
      assert order[..k] == sells + buys[..k - |sells|];
      BalanceAppend(usdc, sells, buys[..k - |sells|]);
      BalanceAppend(usdc, sells, buys);
      BalanceMoves(mid, buys, k - |sells|);
    }
  }
}
