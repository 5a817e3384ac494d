/**
 * Executing exactly the selected trades at the current prices leaves the portfolio value
 * unchanged, and a second preview then selects nothing.
 */
module MirrorIdempotence {
  import opened Lists
  import opened Options
  import opened Rounding
  import opened Mirror

  ghost predicate Distinct(ps: seq<Position>) {
    forall i, j :: 0 <= i < j < |ps| ==> ps[i].asset != ps[j].asset
  }

  /** An asset has one listed price. */
  ghost predicate PricesAgree(ps: seq<Position>, qs: seq<Position>) {
    forall p, q :: p in ps && q in qs && p.asset == q.asset ==> p.curPrice == q.curPrice
  }

  ghost predicate TradedAt(ps: seq<Position>, ts: seq<Trade>) {
    && (forall p, t :: p in ps && t in ts && p.asset == t.tokenId ==> p.curPrice == t.currentPrice)
    && (forall t, u :: t in ts && u in ts && t.tokenId == u.tokenId ==> t.currentPrice == u.currentPrice)
  }

  // ---------------------------------------------------------------- what filling trades does

  function Net(ts: seq<Trade>, asset: string): real {
    if ts == [] then 0.0 else Net(Init(ts), asset) + if Last(ts).tokenId == asset then Signed(Last(ts)) else 0.0
  }

  lemma {:induction false} SharesAfterUpdate(ps: seq<Position>, asset: string, size: real, b: string)
    requires PlaceOf(ps, asset) < |ps|
    ensures var i := PlaceOf(ps, asset);
            && SharesOf(ps, asset) == ps[i].size
            && SharesOf(ps[i := ps[i].(size := size)], b) == if b == asset then size else SharesOf(ps, b)
  {
    var i := PlaceOf(ps, asset);
    var qs := ps[i := ps[i].(size := size)];
    if Last(ps).asset == asset {
      assert Init(qs) == Init(ps);
    } else {
      SharesAfterUpdate(Init(ps), asset, size, b);
      assert Init(qs) == Init(ps)[i := ps[i].(size := size)];
    }
  }

  lemma {:induction false} SharesAbsent(ps: seq<Position>, asset: string)
    requires !Holds(ps, asset)
    ensures SharesOf(ps, asset) == 0.0
  {
    if ps != [] {
      assert Last(ps).asset != asset;
      assert forall i :: 0 <= i < |ps| - 1 ==> Init(ps)[i] == ps[i];
      SharesAbsent(Init(ps), asset);
    }
  }

  lemma {:induction false} ValueAfterUpdate(ps: seq<Position>, i: nat, size: real)
    requires i < |ps|
    ensures PositionsValue(ps[i := ps[i].(size := size)])
            == PositionsValue(ps) + Worth(size - ps[i].size, ps[i].curPrice)
  {
    var qs := ps[i := ps[i].(size := size)];
    WorthAdds(ps[i].size, size - ps[i].size, ps[i].curPrice);
    hide Worth;
    if i == |ps| - 1 {
      assert Init(qs) == Init(ps);
    } else {
      ValueAfterUpdate(Init(ps), i, size);
      assert Init(qs) == Init(ps)[i := ps[i].(size := size)];
    }
  }

  lemma FilledShares(a: Account, t: Trade, asset: string)
    ensures SharesOf(Filled(a, t).positions, asset)
            == SharesOf(a.positions, asset) + if t.tokenId == asset then Signed(t) else 0.0
  {
    var i := PlaceOf(a.positions, t.tokenId);
    if i < |a.positions| {
      SharesAfterUpdate(a.positions, t.tokenId, a.positions[i].size + Signed(t), asset);
    } else {
      SharesAbsent(a.positions, t.tokenId);
      assert Init(Filled(a, t).positions) == a.positions;
    }
  }

  lemma FilledValue(a: Account, t: Trade)
    requires forall p :: p in a.positions && p.asset == t.tokenId ==> p.curPrice == t.currentPrice
    ensures PositionsValue(Filled(a, t).positions) + Filled(a, t).usdc == PositionsValue(a.positions) + a.usdc
  {
    var i := PlaceOf(a.positions, t.tokenId);
    if i < |a.positions| {
      assert a.positions[i] in a.positions;
      ValueAfterUpdate(a.positions, i, a.positions[i].size + Signed(t));
    } else {
      assert Init(Filled(a, t).positions) == a.positions;
    }
  }

  /** Positions keep their place, asset, price and redeemability; new ones come from trades in assets not held. */
  ghost predicate Grown(before: seq<Position>, after: seq<Position>, ts: seq<Trade>) {
    && |before| <= |after|
    && (forall i :: 0 <= i < |before| ==> after[i] == before[i].(size := after[i].size))
    && (forall i :: |before| <= i < |after| ==>
          exists t :: t in ts && t.tokenId == after[i].asset && t.currentPrice == after[i].curPrice
            && !Holds(before, t.tokenId))
    && (Distinct(before) ==> Distinct(after))
  }

  lemma FilledGrown(a: Account, ts: seq<Trade>, us: seq<Trade>, t: Trade)
    requires us == ts + [t]
    requires Grown(a.positions, FilledAll(a, ts).positions, ts)
    ensures Grown(a.positions, Filled(FilledAll(a, ts), t).positions, us)
  {
    var before, mid := a.positions, FilledAll(a, ts).positions;
    var after := Filled(FilledAll(a, ts), t).positions;
    var i := PlaceOf(mid, t.tokenId);
    hide FilledAll;
    forall j | |before| <= j < |after|
      ensures exists u ::
                u in us && u.tokenId == after[j].asset && u.currentPrice == after[j].curPrice &&
                !Holds(before, u.tokenId)
    {
      if j < |mid| {
        var u :| u in ts && u.tokenId == mid[j].asset && u.currentPrice == mid[j].curPrice && !Holds(before, u.tokenId);
        assert u in us;
      } else {
        assert forall k :: 0 <= k < |before| ==> mid[k].asset == before[k].asset;
        assert t in us;
      }
    }
  }

  lemma {:induction false} FilledAllKeeps(a: Account, ts: seq<Trade>, asset: string)
    requires TradedAt(a.positions, ts)
    ensures var b := FilledAll(a, ts);
            && SharesOf(b.positions, asset) == SharesOf(a.positions, asset) + Net(ts, asset)
            && PositionsValue(b.positions) + b.usdc == PositionsValue(a.positions) + a.usdc
            && Grown(a.positions, b.positions, ts)
  {
    hide Filled, Signed;
    if ts != [] {
      var t, b := Last(ts), FilledAll(a, Init(ts));
      FilledAllKeeps(a, Init(ts), asset);
      forall p | p in b.positions && p.asset == t.tokenId
        ensures p.curPrice == t.currentPrice
      {
        var i :| 0 <= i < |b.positions| && b.positions[i] == p;
        if i < |a.positions| {
          assert a.positions[i] in a.positions;
        }
      }
      FilledShares(b, t, asset);
      FilledValue(b, t);
      FilledGrown(a, Init(ts), ts, t);
    }
  }

  // ---------------------------------------------------------------- what is executed

  /** A preview selects only trades that can be executed. */
  ghost predicate Executable(ts: seq<Trade>) {
    forall t :: t in ts && t.selected ==> t.action != Skip && t.status == Ready
  }

  function NetSelected(ts: seq<Trade>, asset: string): real {
    if ts == [] then 0.0
    else NetSelected(Init(ts), asset) + if Last(ts).selected && Last(ts).tokenId == asset then Signed(Last(ts)) else 0.0
  }

  lemma {:induction false} NetAppend(ts: seq<Trade>, us: seq<Trade>, asset: string)
    ensures Net(ts + us, asset) == Net(ts, asset) + Net(us, asset)
    ensures NetSelected(ts + us, asset) == NetSelected(ts, asset) + NetSelected(us, asset)
  {
    if us == [] {
      assert ts + us == ts;
    } else {
      NetAppend(ts, Init(us), asset);
      assert Init(ts + us) == ts + Init(us);
    }
  }

  lemma NetSnoc(ts: seq<Trade>, us: seq<Trade>, asset: string)
    requires |us| <= 1
    ensures Net(ts + us, asset) == Net(ts, asset) + if us != [] && us[0].tokenId == asset then Signed(us[0]) else 0.0
  {
    NetAppend(ts, us, asset);
  }

  lemma {:induction false} OnlyNet(ts: seq<Trade>, asset: string)
    requires forall t :: t in ts ==> t.action != Skip
    ensures Net(Only(ts, Sell), asset) + Net(Only(ts, Buy), asset) == Net(ts, asset)
  {
    if ts != [] {
      OnlyNet(Init(ts), asset);
      var t := [Last(ts)];
      NetSnoc(Only(Init(ts), Sell), if Last(ts).action == Sell then t else [], asset);
      NetSnoc(Only(Init(ts), Buy), if Last(ts).action == Buy then t else [], asset);
    }
  }

  lemma {:induction false} ActiveNet(ts: seq<Trade>, asset: string)
    requires Executable(ts)
    ensures Net(Active(ts), asset) == NetSelected(ts, asset)
    ensures forall t :: t in Active(ts) ==> t in ts && t.selected && t.action != Skip
  {
    if ts != [] {
      ActiveNet(Init(ts), asset);
      assert Last(ts) in ts;
      NetSnoc(Active(Init(ts)), if Last(ts).selected then [Last(ts)] else [], asset);
    }
  }

  lemma {:induction false} OnlyMembers(ts: seq<Trade>, action: Action)
    ensures forall t :: t in Only(ts, action) <==> t in ts && t.action == action
  {
    if ts != [] {
      OnlyMembers(Init(ts), action);
      assert ts == Init(ts) + [Last(ts)];
    }
  }

  /** Selling first moves the same shares as filling the selected trades in the order listed. */
  lemma OrderNet(ts: seq<Trade>, asset: string)
    requires Executable(ts)
    ensures Net(ExecutionOrder(ts), asset) == NetSelected(ts, asset)
    ensures forall t :: t in ExecutionOrder(ts) ==> t in ts
  {
    ActiveNet(ts, asset);
    OnlyNet(Active(ts), asset);
    NetAppend(Only(Active(ts), Sell), Only(Active(ts), Buy), asset);
    OnlyMembers(Active(ts), Sell);
    OnlyMembers(Active(ts), Buy);
  }

  // ---------------------------------------------------------------- the selected trades of a preview

  lemma {:induction false} MatchingTrades(theirs: seq<Position>, yours: seq<Position>, g: Setting)
    ensures |Matching(theirs, yours, g)| == |theirs|
    ensures forall i :: 0 <= i < |theirs| ==>
              Matching(theirs, yours, g)[i] == TradeForPosition(theirs[i], SharesOf(yours, theirs[i].asset), g)
  {
    if theirs != [] {
      MatchingTrades(Init(theirs), yours, g);
    }
  }

  lemma {:induction false} ClosingTrades(yours: seq<Position>, theirs: seq<Position>, g: Setting, t: Trade)
    ensures t in Closing(yours, theirs, g) <==>
            exists i :: 0 <= i < |yours| && !Holds(theirs, yours[i].asset) && SellToClose(yours[i], g) == Some(t)
  {
    if yours != [] {
      ClosingTrades(Init(yours), theirs, g, t);
      if t in Closing(Init(yours), theirs, g) {
        var i :| 0 <= i < |yours| - 1 && !Holds(theirs, Init(yours)[i].asset)
          && SellToClose(Init(yours)[i], g) == Some(t);
        assert SellToClose(yours[i], g) == Some(t);
      }
      if i :| 0 <= i < |yours| && !Holds(theirs, yours[i].asset) && SellToClose(yours[i], g) == Some(t) {
        if i < |yours| - 1 {
          assert SellToClose(Init(yours)[i], g) == Some(t);
        }
      }
    }
  }

  /** Every trade of a preview is for a listed position of either side, at its listed price. */
  lemma PreviewTrades(theirs: seq<Position>, yours: seq<Position>, g: Setting, t: Trade)
    requires t in Preview(theirs, yours, g)
    ensures exists p :: p in theirs + yours && p.asset == t.tokenId && p.curPrice == t.currentPrice
    ensures Holds(theirs, t.tokenId) || Holds(yours, t.tokenId)
    ensures t.selected ==> t.action != Skip && t.status == Ready
  {
    if t in Matching(theirs, yours, g) {
      MatchingTrades(theirs, yours, g);
      var i :| 0 <= i < |theirs| && Matching(theirs, yours, g)[i] == t;
      assert theirs[i] in theirs + yours;
    } else {
      ClosingTrades(yours, theirs, g, t);
      var i :| 0 <= i < |yours| && !Holds(theirs, yours[i].asset) && SellToClose(yours[i], g) == Some(t);
      assert yours[i] in theirs + yours;
    }
  }

  function MoveOf(t: Trade): real {
    if t.selected then Signed(t) else 0.0
  }

  function CloseMove(p: Position, g: Setting): real {
    match SellToClose(p, g) case Some(t) => MoveOf(t) case None => 0.0
  }

  lemma HoldsAt(ps: seq<Position>, i: nat)
    requires i < |ps|
    ensures Holds(ps, ps[i].asset)
  {
  }

  lemma HoldsSnoc(ps: seq<Position>, asset: string)
    requires ps != []
    ensures Holds(ps, asset) <==> Holds(Init(ps), asset) || Last(ps).asset == asset
  {
  }

  lemma LastIsNew(ps: seq<Position>)
    requires ps != [] && Distinct(ps)
    ensures !Holds(Init(ps), Last(ps).asset) && Distinct(Init(ps))
  {
  }

  lemma MatchingSnoc(theirs: seq<Position>, yours: seq<Position>, g: Setting, asset: string)
    requires theirs != []
    ensures NetSelected(Matching(theirs, yours, g), asset) == NetSelected(Matching(Init(theirs), yours, g), asset)
              + if Last(theirs).asset == asset
                then MoveOf(TradeForPosition(Last(theirs), SharesOf(yours, asset), g)) else 0.0
  {
  }

  lemma {:induction false} MatchingAbsent(theirs: seq<Position>, yours: seq<Position>, g: Setting, asset: string)
    requires !Holds(theirs, asset)
    ensures NetSelected(Matching(theirs, yours, g), asset) == 0.0
  {
    hide MoveOf, TradeForPosition;
    if theirs != [] {
      HoldsSnoc(theirs, asset);
      MatchingAbsent(Init(theirs), yours, g, asset);
      MatchingSnoc(theirs, yours, g, asset);
    }
  }

  lemma {:induction false} MatchingAt(theirs: seq<Position>, yours: seq<Position>, g: Setting, i: nat)
    requires Distinct(theirs) && i < |theirs|
    ensures NetSelected(Matching(theirs, yours, g), theirs[i].asset)
            == MoveOf(TradeForPosition(theirs[i], SharesOf(yours, theirs[i].asset), g))
  {
    hide MoveOf, TradeForPosition;
    LastIsNew(theirs);
    MatchingSnoc(theirs, yours, g, theirs[i].asset);
    if i < |theirs| - 1 {
      MatchingAt(Init(theirs), yours, g, i);
    } else {
      MatchingAbsent(Init(theirs), yours, g, theirs[i].asset);
    }
  }

  lemma NetOfOption(t: Option<Trade>, asset: string)
    ensures NetSelected(AsList(t), asset) == if t.Some? && t.value.tokenId == asset then MoveOf(t.value) else 0.0
  {
  }

  lemma ClosingSnoc(yours: seq<Position>, theirs: seq<Position>, g: Setting, asset: string)
    requires yours != []
    ensures NetSelected(Closing(yours, theirs, g), asset) == NetSelected(Closing(Init(yours), theirs, g), asset)
              + if Last(yours).asset == asset && !Holds(theirs, asset) then CloseMove(Last(yours), g) else 0.0
  {
    hide SellToClose, Signed, Holds;
    var p := Last(yours);
    if Holds(theirs, p.asset) {
      assert Closing(Init(yours), theirs, g) + [] == Closing(Init(yours), theirs, g);
    } else {
      NetAppend(Closing(Init(yours), theirs, g), AsList(SellToClose(p, g)), asset);
      NetOfOption(SellToClose(p, g), asset);
    }
  }

  lemma {:induction false} ClosingAbsent(yours: seq<Position>, theirs: seq<Position>, g: Setting, asset: string)
    requires Holds(theirs, asset) || !Holds(yours, asset)
    ensures NetSelected(Closing(yours, theirs, g), asset) == 0.0
  {
    hide CloseMove, Holds;
    if yours != [] {
      HoldsSnoc(yours, asset);
      ClosingAbsent(Init(yours), theirs, g, asset);
      ClosingSnoc(yours, theirs, g, asset);
    }
  }

  lemma {:induction false} ClosingAt(yours: seq<Position>, theirs: seq<Position>, g: Setting, i: nat)
    requires Distinct(yours) && i < |yours| && !Holds(theirs, yours[i].asset)
    ensures NetSelected(Closing(yours, theirs, g), yours[i].asset) == CloseMove(yours[i], g)
  {
    hide CloseMove, Holds;
    LastIsNew(yours);
    ClosingSnoc(yours, theirs, g, yours[i].asset);
    if i < |yours| - 1 {
      ClosingAt(Init(yours), theirs, g, i);
    } else {
      ClosingAbsent(Init(yours), theirs, g, yours[i].asset);
    }
  }

  // ---------------------------------------------------------------- idempotence

  lemma {:induction false} SharesOfDistinct(ps: seq<Position>, i: nat)
    requires Distinct(ps) && i < |ps|
    ensures SharesOf(ps, ps[i].asset) == ps[i].size
  {
    if i < |ps| - 1 {
      SharesOfDistinct(Init(ps), i);
    }
  }

  /** A selected trade lands within half a cent-share of the target, which is below the 0.5-share cut-off. */
  lemma SettledMatching(their: Position, yours: real, g: Setting)
    ensures var t := TradeForPosition(their, yours, g);
            var after := yours + MoveOf(t);
            && !TradeForPosition(their, after, g).selected
            && (t.selected ==> Abs(TargetShares(their, g) - after) <= 0.005)
  {
    Fixed2Near(Abs(TargetShares(their, g) - yours));
  }

  lemma SettledClosing(p: Position, g: Setting)
    ensures var q := p.(size := p.size + CloseMove(p, g));
            SellToClose(q, g).None? || !SellToClose(q, g).value.selected
  {
    Fixed2Near(p.size);
  }

  /** Shares and value after executing the selected trades of a preview, sells first. */
  lemma ExecutionKeeps(theirs: seq<Position>, yours: seq<Position>, usdc: real, g: Setting, asset: string)
    requires Distinct(theirs) && Distinct(yours) && PricesAgree(theirs, yours)
    ensures var order := ExecutionOrder(Preview(theirs, yours, g));
            var b := FilledAll(Account(yours, usdc), order);
            && SharesOf(b.positions, asset) == SharesOf(yours, asset)
                 + NetSelected(Matching(theirs, yours, g), asset) + NetSelected(Closing(yours, theirs, g), asset)
            && PositionsValue(b.positions) + b.usdc == PositionsValue(yours) + usdc
            && Grown(yours, b.positions, order)
            && (forall t :: t in order ==> t in Preview(theirs, yours, g))
  {
    var ts := Preview(theirs, yours, g);
    forall t | t in ts
      ensures exists p :: p in theirs + yours && p.asset == t.tokenId && p.curPrice == t.currentPrice
      ensures t.selected ==> t.action != Skip && t.status == Ready
    {
      PreviewTrades(theirs, yours, g, t);
    }
    OrderNet(ts, asset);
    NetAppend(Matching(theirs, yours, g), Closing(yours, theirs, g), asset);
    assert TradedAt(yours, ExecutionOrder(ts)) by {
      OnePrice(theirs, yours);
    }
    FilledAllKeeps(Account(yours, usdc), ExecutionOrder(ts), asset);
  }

  lemma OnePrice(theirs: seq<Position>, yours: seq<Position>)
    requires Distinct(theirs) && Distinct(yours) && PricesAgree(theirs, yours)
    ensures forall p, q :: p in theirs + yours && q in theirs + yours && p.asset == q.asset ==> p.curPrice == q.curPrice
  {
  }

  /** The main result. */
  lemma MirrorIdempotent(theirs: seq<Position>, theirTotal: real, yours: seq<Position>, usdc: real, slippage: real,
                         weight: real)
    requires Distinct(theirs) && Distinct(yours) && PricesAgree(theirs, yours)
    ensures var g := SettingFor(yours, usdc, theirTotal, slippage, weight);
            var b := FilledAll(Account(yours, usdc), ExecutionOrder(Preview(theirs, yours, g)));
            var g' := SettingFor(b.positions, b.usdc, theirTotal, slippage, weight);
            && g'.yourTotal == g.yourTotal
            && forall t :: t in Preview(theirs, b.positions, g') ==> !t.selected
  {
    var g := SettingFor(yours, usdc, theirTotal, slippage, weight);
    var order := ExecutionOrder(Preview(theirs, yours, g));
    var b := FilledAll(Account(yours, usdc), order);
    ExecutionKeeps(theirs, yours, usdc, g, "");
    forall t | t in Preview(theirs, b.positions, g)
      ensures !t.selected
    {
      if t in Matching(theirs, b.positions, g) {
        MatchingTrades(theirs, b.positions, g);
        var i :| 0 <= i < |theirs| && Matching(theirs, b.positions, g)[i] == t;
        SettledTheirs(theirs, yours, usdc, g, i);
      } else {
        ClosingTrades(b.positions, theirs, g, t);
        var i :| 0 <= i < |b.positions| && !Holds(theirs, b.positions[i].asset)
          && SellToClose(b.positions[i], g) == Some(t);
        SettledYours(theirs, yours, usdc, g, i);
      }
    }
  }

  lemma SharesMoved(theirs: seq<Position>, yours: seq<Position>, usdc: real, g: Setting, i: nat)
    requires Distinct(theirs) && Distinct(yours) && PricesAgree(theirs, yours) && i < |theirs|
    ensures var b := FilledAll(Account(yours, usdc), ExecutionOrder(Preview(theirs, yours, g)));
            var had := SharesOf(yours, theirs[i].asset);
            SharesOf(b.positions, theirs[i].asset) == had + MoveOf(TradeForPosition(theirs[i], had, g))
  {
    var asset := theirs[i].asset;
    HoldsAt(theirs, i);
    ExecutionKeeps(theirs, yours, usdc, g, asset);
    MatchingAt(theirs, yours, g, i);
    ClosingAbsent(yours, theirs, g, asset);
  }

  /** Every selected trade for a position of theirs brings you within 0.005 shares of its target. */
  lemma SettledTheirs(theirs: seq<Position>, yours: seq<Position>, usdc: real, g: Setting, i: nat)
    requires Distinct(theirs) && Distinct(yours) && PricesAgree(theirs, yours) && i < |theirs|
    ensures var b := FilledAll(Account(yours, usdc), ExecutionOrder(Preview(theirs, yours, g)));
            var asset := theirs[i].asset;
            && !TradeForPosition(theirs[i], SharesOf(b.positions, asset), g).selected
            && (TradeForPosition(theirs[i], SharesOf(yours, asset), g).selected ==>
                  Abs(TargetShares(theirs[i], g) - SharesOf(b.positions, asset)) <= 0.005)
  {
    hide TradeForPosition, TargetShares, Distinct, PricesAgree, FilledAll, ExecutionOrder, Preview;
    var asset := theirs[i].asset;
    SharesMoved(theirs, yours, usdc, g, i);
    SettledMatching(theirs[i], SharesOf(yours, asset), g);
  }

  lemma Widened(d: real, price: real)
    requires price > 0.0 && -0.005 <= d <= 0.005
    ensures -0.005 * price <= Worth(d, price) <= 0.005 * price
  {
    WorthIs(0.005, price);
    WorthSign(0.005 - d, price);
    WorthSign(d + 0.005, price);
    WorthAdds(0.005, d, price);
    WorthAdds(0.005, -d, price);
    WorthAdds(d, 0.0, price);
    hide Worth;
  }

  lemma NearInWorth(target: real, held: real, price: real)
    requires price > 0.0 && Abs(target - held) <= 0.005
    ensures -0.005 * price <= Worth(held, price) - Worth(target, price) <= 0.005 * price
  {
    Widened(held - target, price);
    WorthAdds(held, -target, price);
    WorthAdds(target, 0.0, price);
    hide Worth;
  }

  lemma SameQuotient(x: real, y: real, total: real)
    requires total > 0.0 && x * total == y * total
    ensures x == y
  {
    assert (x - y) * total == 0.0;
  }

  lemma TargetIsAllocation(p: Position, g: Setting, allocation: real)
    requires p.curPrice > 0.0 && g.theirTotal > 0.0
    requires allocation * g.theirTotal == p.size * p.curPrice * g.yourTotal * g.weight
    ensures Worth(TargetShares(p, g), p.curPrice) == allocation
  {
    TargetInNumbers(p, g);
    WorthIs(TargetShares(p, g), p.curPrice);
    hide TargetShares, Worth;
    SameQuotient(Worth(TargetShares(p, g), p.curPrice), allocation, g.theirTotal);
  }

  lemma SettledWorth(theirs: seq<Position>, yours: seq<Position>, usdc: real, g: Setting, i: nat, allocation: real)
    requires Distinct(theirs) && Distinct(yours) && PricesAgree(theirs, yours) && i < |theirs|
    requires theirs[i].curPrice > 0.0 && g.theirTotal > 0.0
    requires allocation * g.theirTotal == theirs[i].size * theirs[i].curPrice * g.yourTotal * g.weight
    ensures var b := FilledAll(Account(yours, usdc), ExecutionOrder(Preview(theirs, yours, g)));
            var p := theirs[i];
            TradeForPosition(p, SharesOf(yours, p.asset), g).selected ==>
              -0.005 * p.curPrice <= Worth(SharesOf(b.positions, p.asset), p.curPrice) - allocation
                <= 0.005 * p.curPrice
  {
    hide *;
    SettledTheirs(theirs, yours, usdc, g, i);
    TargetIsAllocation(theirs[i], g, allocation);
    var b := FilledAll(Account(yours, usdc), ExecutionOrder(Preview(theirs, yours, g)));
    var held := SharesOf(b.positions, theirs[i].asset);
    if TradeForPosition(theirs[i], SharesOf(yours, theirs[i].asset), g).selected {
      NearInWorth(TargetShares(theirs[i], g), held, theirs[i].curPrice);
    }
  }

  /** In numbers: the execution of a selected trade brings your worth in the asset within 0.005 shares of your
      allocation, which is to your portfolio, scaled by the weight, as their worth in it is to their total. */
  lemma AllocationReached(theirs: seq<Position>, theirTotal: real, yours: seq<Position>, usdc: real, slippage: real,
                          weight: real, i: nat, allocation: real)
    requires Distinct(theirs) && Distinct(yours) && PricesAgree(theirs, yours) && i < |theirs|
    requires theirTotal > 0.0 && theirs[i].curPrice > 0.0
    requires allocation * theirTotal
             == theirs[i].size * theirs[i].curPrice * (usdc + PositionsValue(yours)) * weight
    ensures var g := SettingFor(yours, usdc, theirTotal, slippage, weight);
            var b := FilledAll(Account(yours, usdc), ExecutionOrder(Preview(theirs, yours, g)));
            var p := theirs[i];
            TradeForPosition(p, SharesOf(yours, p.asset), g).selected ==>
              -0.005 * p.curPrice <= SharesOf(b.positions, p.asset) * p.curPrice - allocation <= 0.005 * p.curPrice
  {
    hide TradeForPosition, Distinct, PricesAgree, FilledAll, ExecutionOrder, Preview, SharesOf, PositionsValue, Worth;
    var g := SettingFor(yours, usdc, theirTotal, slippage, weight);
    SettledWorth(theirs, yours, usdc, g, i, allocation);
    var b := FilledAll(Account(yours, usdc), ExecutionOrder(Preview(theirs, yours, g)));
    WorthIs(SharesOf(b.positions, theirs[i].asset), theirs[i].curPrice);
  }

  lemma SettledYours(theirs: seq<Position>, yours: seq<Position>, usdc: real, g: Setting, i: nat)
    requires Distinct(theirs) && Distinct(yours) && PricesAgree(theirs, yours)
    requires var b := FilledAll(Account(yours, usdc), ExecutionOrder(Preview(theirs, yours, g)));
             i < |b.positions| && !Holds(theirs, b.positions[i].asset)
    ensures var b := FilledAll(Account(yours, usdc), ExecutionOrder(Preview(theirs, yours, g)));
            SellToClose(b.positions[i], g).None? || !SellToClose(b.positions[i], g).value.selected
  {
    var order := ExecutionOrder(Preview(theirs, yours, g));
    var b := FilledAll(Account(yours, usdc), order);
    var asset := b.positions[i].asset;
    ExecutionKeeps(theirs, yours, usdc, g, asset);
    if i >= |yours| {
      var t :| t in order && t.tokenId == asset && !Holds(yours, t.tokenId);
      PreviewTrades(theirs, yours, g, t);
      assert false;
    }
    MatchingAbsent(theirs, yours, g, asset);
    ClosingAt(yours, theirs, g, i);
    SharesOfDistinct(yours, i);
    SharesOfDistinct(b.positions, i);
    SettledClosing(yours[i], g);
  }
}
