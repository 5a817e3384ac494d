/**
 * The position mirror: which trades bring your holdings to the tracked wallet's allocation
 * (src/positionMirror.ts). Listed numbers are exact rationals.
 */
module Mirror {
  import opened Lists
  import opened Options
  import opened Rounding

  datatype Action = Buy | Sell | Skip
  datatype Status = Ready | Warning | Skipped

  datatype Position = Position(asset: string, size: real, avgPrice: real, curPrice: real, redeemable: bool)

  datatype Trade = Trade(
    tokenId: string,
    theirShares: real,
    theirPercent: real,
    yourShares: real,
    yourPercent: real,
    action: Action,
    sharesToTrade: real,
    estimatedCost: real,                                  // negative for a sell
    currentPrice: real,
    status: Status,
    selected: bool
  )

  /** What the two calculators are told besides the positions. */
  datatype Setting = Setting(theirTotal: real, yourTotal: real, slippage: real, weight: real)

  // ---------------------------------------------------------------- one position

  function Worth(shares: real, price: real): real {
    shares * price
  }

  lemma WorthAdds(x: real, y: real, price: real)
    ensures Worth(x, price) + Worth(y, price) == Worth(x + y, price)
    ensures Worth(-x, price) == -Worth(x, price)
  {
  }

  lemma WorthSign(x: real, price: real)
    requires price >= 0.0
    ensures x >= 0.0 ==> Worth(x, price) >= 0.0
    ensures x <= 0.0 ==> Worth(x, price) <= 0.0
  {
    assert x <= 0.0 ==> -x * price >= 0.0;
  }

  function Percent(value: real, total: real): real {
    if total > 0.0 then value / total * 100.0 else 0.0
  }

  /** The shares that give you their allocation, scaled by the weight. */
  function TargetShares(their: Position, g: Setting): real {
    var targetValue := Percent(Worth(their.size, their.curPrice), g.theirTotal) / 100.0 * g.yourTotal * g.weight;
    if their.curPrice > 0.0 then targetValue / their.curPrice else 0.0
  }

  function Deviation(their: Position): real {
    if their.avgPrice > 0.0 then Abs((their.curPrice - their.avgPrice) / their.avgPrice) * 100.0 else 0.0
  }

  /** Lines 274-425; `yours` is your size in the same asset, 0 when you hold none. */
  function TradeForPosition(their: Position, yours: real, g: Setting): (t: Trade)
    ensures t.tokenId == their.asset && t.currentPrice == their.curPrice
    ensures t.selected ==> t.status == Ready && t.action != Skip
  {
    var price := their.curPrice;
    var percent := Percent(Worth(their.size, price), g.theirTotal);
    var yourPercent := Percent(Worth(yours, price), g.yourTotal);
    var delta := TargetShares(their, g) - yours;
    var shares := Abs(delta);
    if g.weight <= 0.0 then
      Trade(their.asset, their.size, 0.0, yours, 0.0, Skip, 0.0, 0.0, price, Skipped, false)
    else if their.redeemable then
      Trade(their.asset, their.size, 0.0, 0.0, 0.0, Skip, 0.0, 0.0, price, Skipped, false)
    else if shares < 0.5 then
      Trade(their.asset, their.size, percent, yours, yourPercent, Buy,
            Fixed4(shares), Fixed4(Worth(shares, price)), price,
            Skipped, false)
    else
      var action := if delta > 0.0 then Buy else Sell;
      var cost := if action == Buy then Worth(shares, price) else -Worth(shares, price);
      var status := if shares < 5.0 then Skipped else if Deviation(their) > g.slippage then Warning else Ready;
      Trade(their.asset, their.size, percent, yours, yourPercent, action, Fixed2(shares), Fixed2(cost), price,
            status, status == Ready)
  }

  /** The target in numbers: its value is to your portfolio, scaled by the weight, as the position is to theirs. Without
      a price or a total of theirs there is no target. */
  lemma TargetInNumbers(their: Position, g: Setting)
    ensures their.curPrice > 0.0 && g.theirTotal > 0.0 ==>
              && TargetShares(their, g) * g.theirTotal == their.size * g.yourTotal * g.weight
              && TargetShares(their, g) * their.curPrice * g.theirTotal
                 == their.size * their.curPrice * g.yourTotal * g.weight
    ensures their.curPrice <= 0.0 || g.theirTotal <= 0.0 ==> TargetShares(their, g) == 0.0
  {
    if their.curPrice > 0.0 && g.theirTotal > 0.0 {
      TargetScales(their.size, their.curPrice, g.theirTotal, g.yourTotal * g.weight);
      assert Worth(their.size, their.curPrice) / g.theirTotal * 100.0 / 100.0 * g.yourTotal * g.weight
             == Worth(their.size, their.curPrice) / g.theirTotal * (g.yourTotal * g.weight);
    }
  }

  lemma TargetScales(size: real, price: real, total: real, share: real)
    requires price > 0.0 && total > 0.0
    ensures var shares := Worth(size, price) / total * share / price;
            shares * total == size * share && shares * price * total == size * price * share
  {
    var value := Worth(size, price) / total * share;
    var shares := value / price;
    assert shares * price == value;
    assert Worth(size, price) / total * total == size * price;
    assert value * total == size * price * share;
    assert shares * total * price == size * share * price;
  }

  /** What is shown for a position of theirs, in numbers: both allocations in percent, the shares missing or in excess
      and their cost, and why it is or is not ready. */
  lemma TradeInNumbers(their: Position, yours: real, g: Setting)
    requires g.weight > 0.0 && !their.redeemable
    ensures var t, delta := TradeForPosition(their, yours, g), TargetShares(their, g) - yours;
            && t.theirShares == their.size && t.yourShares == yours
            && (g.theirTotal > 0.0 ==> t.theirPercent * g.theirTotal == 100.0 * (their.size * their.curPrice))
            && (g.yourTotal > 0.0 ==> t.yourPercent * g.yourTotal == 100.0 * (yours * their.curPrice))
            && (if -0.5 < delta < 0.5 then t.status == Skipped
                else
                  && t.action == (if delta > 0.0 then Buy else Sell)
                  && Abs(delta) - 0.005 <= t.sharesToTrade <= Abs(delta) + 0.005
                  && delta * their.curPrice - 0.005 <= t.estimatedCost <= delta * their.curPrice + 0.005
                  && (t.status == Skipped <==> -5.0 < delta < 5.0))
  {
    hide TargetShares, Percent, Fixed2, Worth, TradeForPosition;
    var delta := TargetShares(their, g) - yours;
    TradeShape(their, yours, g);
    PercentScales(Worth(their.size, their.curPrice), g.theirTotal);
    PercentScales(Worth(yours, their.curPrice), g.yourTotal);
    Fixed2Near(Abs(delta));
    Fixed2Near(Worth(delta, their.curPrice));
    WorthIs(delta, their.curPrice);
    WorthIs(their.size, their.curPrice);
    WorthIs(yours, their.curPrice);
  }

  lemma TradeShape(their: Position, yours: real, g: Setting)
    requires g.weight > 0.0 && !their.redeemable
    ensures var t, delta := TradeForPosition(their, yours, g), TargetShares(their, g) - yours;
            && t.theirShares == their.size && t.yourShares == yours
            && t.theirPercent == Percent(Worth(their.size, their.curPrice), g.theirTotal)
            && t.yourPercent == Percent(Worth(yours, their.curPrice), g.yourTotal)
            && (-0.5 < delta < 0.5 ==> t.status == Skipped)
            && (delta <= -0.5 || delta >= 0.5 ==>
                  && t.action == (if delta > 0.0 then Buy else Sell)
                  && t.sharesToTrade == Fixed2(Abs(delta))
                  && t.estimatedCost == Fixed2(Worth(delta, their.curPrice))
                  && (t.status == Skipped <==> -5.0 < delta < 5.0))
  {
    hide TargetShares, Deviation, Percent, Fixed2, Fixed4, Worth;
    WorthAdds(TargetShares(their, g) - yours, 0.0, their.curPrice);
  }

  lemma WorthIs(shares: real, price: real)
    ensures Worth(shares, price) == shares * price
  {
  }

  lemma PercentScales(value: real, total: real)
    ensures total > 0.0 ==> Percent(value, total) * total == 100.0 * value
  {
  }

  /** A trade is selected exactly if the wallet is followed, the market is open, at least 5 shares are missing or
      in excess, and the price is within the tolerance of their entry; it then moves towards the target. */
  lemma SelectedExactly(their: Position, yours: real, g: Setting)
    ensures var t, delta := TradeForPosition(their, yours, g), TargetShares(their, g) - yours;
            && (t.selected <==>
                  && g.weight > 0.0 && !their.redeemable && (delta >= 5.0 || delta <= -5.0)
                  && (if their.avgPrice > 0.0
                      then Abs(their.curPrice - their.avgPrice) * 100.0 <= g.slippage * their.avgPrice
                      else g.slippage >= 0.0))
            && (t.selected ==> t.action == if delta >= 5.0 then Buy else Sell)
  {
    DeviationExactly(their, g.slippage);
    hide Deviation, TargetShares, Worth, Fixed2, Fixed4, Percent;
  }

  lemma DeviationExactly(their: Position, slippage: real)
    ensures Deviation(their) <= slippage <==>
            if their.avgPrice > 0.0 then Abs(their.curPrice - their.avgPrice) * 100.0 <= slippage * their.avgPrice
            else slippage >= 0.0
  {
    if their.avgPrice > 0.0 {
      var d, a := their.curPrice - their.avgPrice, their.avgPrice;
      var q := Abs(d / a);
      assert q * a == Abs(d);
      if q * 100.0 <= slippage {
        assert (slippage - q * 100.0) * a >= 0.0;
      } else {
        assert (q * 100.0 - slippage) * a > 0.0;
      }
    }
  }

  /** Lines 431-503: selling what they do not hold. */
  function SellToClose(your: Position, g: Setting): (t: Option<Trade>)
    ensures t.Some? ==> t.value.tokenId == your.asset && t.value.currentPrice == your.curPrice
    ensures t.Some? && t.value.selected ==> t.value.status == Ready && t.value.action == Sell
  {
    var percent := Percent(Worth(your.size, your.curPrice), g.yourTotal);
    if your.size < 0.5 then None
    else if your.redeemable then
      Some(Trade(your.asset, 0.0, 0.0, your.size, percent, Skip, 0.0, 0.0, your.curPrice, Skipped, false))
    else
      var status := if your.size < 5.0 then Skipped else Ready;
      Some(Trade(your.asset, 0.0, 0.0, your.size, percent, Sell,
                 Fixed2(your.size), Fixed2(-Worth(your.size, your.curPrice)),
                 your.curPrice, status, status == Ready))
  }

  /** A position that they do not hold is sold whole: nothing below half a share, not ready below 5 shares. */
  lemma CloseInNumbers(your: Position, g: Setting)
    ensures var t := SellToClose(your, g);
            && (t.None? <==> your.size < 0.5)
            && (t.Some? && !your.redeemable ==>
                  && t.value.yourShares == your.size && t.value.action == Sell
                  && your.size - 0.005 <= t.value.sharesToTrade <= your.size + 0.005
                  && -(your.size * your.curPrice) - 0.005 <= t.value.estimatedCost
                       <= -(your.size * your.curPrice) + 0.005
                  && (g.yourTotal > 0.0 ==> t.value.yourPercent * g.yourTotal == 100.0 * (your.size * your.curPrice))
                  && (t.value.selected <==> your.size >= 5.0))
            && (t.Some? && your.redeemable ==> !t.value.selected)
  {
    PercentScales(Worth(your.size, your.curPrice), g.yourTotal);
    Fixed2Near(your.size);
    Fixed2Near(-Worth(your.size, your.curPrice));
    hide Fixed2, Percent;
  }

  // ---------------------------------------------------------------- the preview

  predicate Holds(ps: seq<Position>, asset: string) {
    exists i :: 0 <= i < |ps| && ps[i].asset == asset
  }

  /** The look-up map keeps the last position listed for an asset. */
  function SharesOf(ps: seq<Position>, asset: string): real {
    if ps == [] then 0.0
    else if Last(ps).asset == asset then Last(ps).size
    else SharesOf(Init(ps), asset)
  }

  lemma {:induction false} SharesAreLast(ps: seq<Position>, asset: string, i: nat)
    requires i < |ps| && ps[i].asset == asset && (forall j :: i < j < |ps| ==> ps[j].asset != asset)
    ensures SharesOf(ps, asset) == ps[i].size
  {
    if i < |ps| - 1 {
      SharesAreLast(Init(ps), asset, i);
    }
  }

  function PositionsValue(ps: seq<Position>): real {
    if ps == [] then 0.0 else PositionsValue(Init(ps)) + Worth(Last(ps).size, Last(ps).curPrice)
  }

  function Matching(theirs: seq<Position>, yours: seq<Position>, g: Setting): seq<Trade> {
    if theirs == [] then []
    else Matching(Init(theirs), yours, g) + [TradeForPosition(Last(theirs), SharesOf(yours, Last(theirs).asset), g)]
  }

  function AsList<T>(x: Option<T>): seq<T> {
    match x case None => [] case Some(v) => [v]
  }

  function Closing(yours: seq<Position>, theirs: seq<Position>, g: Setting): seq<Trade> {
    if yours == [] then []
    else
      Closing(Init(yours), theirs, g) +
      if Holds(theirs, Last(yours).asset) then [] else AsList(SellToClose(Last(yours), g))
  }

  function Preview(theirs: seq<Position>, yours: seq<Position>, g: Setting): seq<Trade> {
    Matching(theirs, yours, g) + Closing(yours, theirs, g)
  }

  /** Your portfolio is the stablecoin balance plus the positions at their listed prices. */
  function SettingFor(yours: seq<Position>, usdc: real, theirTotal: real, slippage: real, weight: real): Setting {
    Setting(theirTotal, usdc + PositionsValue(yours), slippage, weight)
  }

  function SelectedCost(ts: seq<Trade>, action: Action): real {
    if ts == [] then 0.0
    else
      SelectedCost(Init(ts), action) +
      if Last(ts).action == action && Last(ts).selected then Last(ts).estimatedCost else 0.0
  }

  function SelectedCount(ts: seq<Trade>): nat {
    if ts == [] then 0 else SelectedCount(Init(ts)) + if Last(ts).selected then 1 else 0
  }

  /** Cost of the selected buys less the balance and the proceeds of the selected sells. */
  function Shortfall(ts: seq<Trade>, usdc: real): real {
    SelectedCost(ts, Buy) - (usdc + Abs(SelectedCost(ts, Sell)))
  }

  method ValueOf(ps: seq<Position>) returns (value: real)
    ensures value == PositionsValue(ps)
  {
    value := 0.0;
    for i := 0 to |ps|
      invariant value == PositionsValue(ps[..i])
    {
      value := value + Worth(ps[i].size, ps[i].curPrice);
      assert Init(ps[..i + 1]) == ps[..i];
    }
    assert ps[..|ps|] == ps;
  }

  /** The two look-up maps, as far as they are read: your sizes, and the assets they list. */
  method LookUps(theirs: seq<Position>, yours: seq<Position>) returns (sizes: map<string, real>, listed: set<string>)
    ensures forall a :: (if a in sizes then sizes[a] else 0.0) == SharesOf(yours, a)
    ensures forall a :: a in listed <==> Holds(theirs, a)
  {
    sizes, listed := map[], {};
    for i := 0 to |yours|
      invariant forall a :: (if a in sizes then sizes[a] else 0.0) == SharesOf(yours[..i], a)
    {
      sizes := sizes[yours[i].asset := yours[i].size];
      assert Init(yours[..i + 1]) == yours[..i];
    }
    assert yours[..|yours|] == yours;
    for i := 0 to |theirs|
      invariant forall a :: a in listed <==> Holds(theirs[..i], a)
    {
      listed := listed + {theirs[i].asset};
      HoldsNext(theirs, i);
    }
    assert theirs[..|theirs|] == theirs;
  }

  method SelectedCosts(trades: seq<Trade>) returns (buyCost: real, sellCost: real)
    ensures buyCost == SelectedCost(trades, Buy) && sellCost == SelectedCost(trades, Sell)
  {
    buyCost, sellCost := 0.0, 0.0;
    for i := 0 to |trades|
      invariant buyCost == SelectedCost(trades[..i], Buy) && sellCost == SelectedCost(trades[..i], Sell)
    {
      if trades[i].selected {
        if trades[i].action == Buy {
          buyCost := buyCost + trades[i].estimatedCost;
        } else if trades[i].action == Sell {
          sellCost := sellCost + trades[i].estimatedCost;
        }
      }
      assert Init(trades[..i + 1]) == trades[..i];
    }
    assert trades[..|trades|] == trades;
  }

  /** Lines 174-271; the balance warning carries the shortfall when there is one. */
  method CalculateMirrorPreview(theirs: seq<Position>, theirTotal: real, yours: seq<Position>, usdc: real,
                                slippage: real, weight: real)
    returns (trades: seq<Trade>, warning: Option<real>)
    ensures trades == Preview(theirs, yours, SettingFor(yours, usdc, theirTotal, slippage, weight))
    ensures warning == if Shortfall(trades, usdc) > 0.0 then Some(Shortfall(trades, usdc)) else None
  {
    hide TradeForPosition, SellToClose, Holds, PositionsValue, SharesOf;
    var yourPositionsValue := ValueOf(yours);
    var g := Setting(theirTotal, usdc + yourPositionsValue, slippage, weight);
    var sizes, listed := LookUps(theirs, yours);
    trades := [];
    for i := 0 to |theirs|
      invariant trades == Matching(theirs[..i], yours, g)
    {
      var asset := theirs[i].asset;
      trades := trades + [TradeForPosition(theirs[i], if asset in sizes then sizes[asset] else 0.0, g)];
      assert Init(theirs[..i + 1]) == theirs[..i];
    }
    assert theirs[..|theirs|] == theirs;
    for i := 0 to |yours|
      invariant trades == Matching(theirs, yours, g) + Closing(yours[..i], theirs, g)
    {
      assert Init(yours[..i + 1]) == yours[..i];
      if yours[i].asset !in listed {
        var trade := SellToClose(yours[i], g);
        if trade.Some? {
          trades := trades + [trade.value];
        }
      }
    }
    assert yours[..|yours|] == yours;
    var buyCost, sellCost := SelectedCosts(trades);
    var shortfall := buyCost - (usdc + Abs(sellCost));
    warning := if shortfall > 0.0 then Some(shortfall) else None;
  }

  lemma HoldsNext(ps: seq<Position>, n: nat)
    requires n < |ps|
    ensures forall a :: Holds(ps[..n + 1], a) <==> Holds(ps[..n], a) || a == ps[n].asset
  {
  }

  // ---------------------------------------------------------------- execution

  function Active(ts: seq<Trade>): seq<Trade> {
    if ts == [] then []
    else
      Active(Init(ts)) +
      if Last(ts).selected && Last(ts).action != Skip && Last(ts).status != Skipped then [Last(ts)] else []
  }

  function Only(ts: seq<Trade>, action: Action): seq<Trade> {
    if ts == [] then [] else Only(Init(ts), action) + if Last(ts).action == action then [Last(ts)] else []
  }

  /** Lines 514-530: the selected trades, sells before buys, each side in the order listed. */
  function ExecutionOrder(ts: seq<Trade>): seq<Trade> {
    Only(Active(ts), Sell) + Only(Active(ts), Buy)
  }

  /** One posted order and whether it got an order id. */
  datatype Attempt = Attempt(trade: Trade, success: bool)

  function Attempts(ts: seq<Trade>, accepted: Trade -> bool): seq<Attempt> {
    if ts == [] then [] else Attempts(Init(ts), accepted) + [Attempt(Last(ts), accepted(Last(ts)))]
  }

  function Failures(attempts: seq<Attempt>): nat {
    if attempts == [] then 0 else Failures(Init(attempts)) + if Last(attempts).success then 0 else 1
  }

  /** Lines 514-530; a stable sort by side, read off side by side. */
  method Arrange(trades: seq<Trade>) returns (sells: seq<Trade>, buys: seq<Trade>)
    ensures sells == Only(Active(trades), Sell) && buys == Only(Active(trades), Buy)
  {
    var active := [];
    for i := 0 to |trades|
      invariant active == Active(trades[..i])
    {
      assert Init(trades[..i + 1]) == trades[..i];
      if trades[i].selected && trades[i].action != Skip && trades[i].status != Skipped {
        active := active + [trades[i]];
      }
    }
    assert trades[..|trades|] == trades;
    hide Active;
    sells, buys := [], [];
    for i := 0 to |active|
      invariant sells == Only(active[..i], Sell) && buys == Only(active[..i], Buy)
    {
      assert Init(active[..i + 1]) == active[..i];
      if active[i].action == Sell {
        sells := sells + [active[i]];
      } else if active[i].action == Buy {
        buys := buys + [active[i]];
      }
    }
    assert active[..|active|] == active;
  }

  lemma {:induction false} AttemptsAppend(ts: seq<Trade>, us: seq<Trade>, accepted: Trade -> bool)
    ensures Attempts(ts + us, accepted) == Attempts(ts, accepted) + Attempts(us, accepted)
  {
    if us == [] {
      assert ts + us == ts;
    } else {
      AttemptsAppend(ts, Init(us), accepted);
      assert Init(ts + us) == ts + Init(us);
    }
  }

  lemma {:induction false} FailuresAppend(xs: seq<Attempt>, ys: seq<Attempt>)
    ensures Failures(xs + ys) == Failures(xs) + Failures(ys)
  {
    if ys == [] {
      assert xs + ys == xs;
    } else {
      FailuresAppend(xs, Init(ys));
      assert Init(xs + ys) == xs + Init(ys);
    }
  }

  /** One phase of the execution: a failure stops nothing. */
  method Post(ts: seq<Trade>, accepted: Trade -> bool) returns (results: seq<Attempt>, executed: nat, failed: nat)
    ensures results == Attempts(ts, accepted)
    ensures failed == Failures(results) && executed + failed == |ts| == |results|
  {
    results, executed, failed := [], 0, 0;
    for i := 0 to |ts|
      invariant results == Attempts(ts[..i], accepted) && |results| == i
      invariant failed == Failures(results) && executed + failed == i
    {
      var success := accepted(ts[i]);
      assert Init(ts[..i + 1]) == ts[..i];
      ghost var before := results;
      results := results + [Attempt(ts[i], success)];
      assert Init(results) == before;
      if success {
        executed := executed + 1;
      } else {
        failed := failed + 1;
      }
    }
    assert ts[..|ts|] == ts;
  }

  /** Lines 510-606: every sell is attempted before any buy. */
  method ExecuteMirrorTrades(trades: seq<Trade>, accepted: Trade -> bool)
    returns (results: seq<Attempt>, executed: nat, failed: nat)
    ensures results == Attempts(ExecutionOrder(trades), accepted)
    ensures failed == Failures(results) && executed + failed == |ExecutionOrder(trades)| == |results|
  {
    hide Only, Active;
    var sells, buys := Arrange(trades);
    var first, sold, unsold := Post(sells, accepted);
    var second, bought, unbought := Post(buys, accepted);
    AttemptsAppend(sells, buys, accepted);
    FailuresAppend(first, second);
    results, executed, failed := first + second, sold + bought, unsold + unbought;
  }

  // ---------------------------------------------------------------- what the execution attempts

  lemma {:induction false} OnlyCounts(ts: seq<Trade>, action: Action)
    ensures forall t :: multiset(Only(ts, action))[t] == if t.action == action then multiset(ts)[t] else 0
  {
    if ts != [] {
      OnlyCounts(Init(ts), action);
      assert ts == Init(ts) + [Last(ts)];
    }
  }

  lemma {:induction false} ActiveCounts(ts: seq<Trade>)
    ensures forall t :: multiset(Active(ts))[t]
                        == if t.selected && t.action != Skip && t.status != Skipped then multiset(ts)[t] else 0
  {
    if ts != [] {
      ActiveCounts(Init(ts));
      assert ts == Init(ts) + [Last(ts)];
    }
  }

  /** Every selected trade is attempted, as often as it is listed, and nothing else is. */
  lemma OrderExactly(ts: seq<Trade>, t: Trade)
    requires t.selected ==> t.action != Skip && t.status != Skipped
    ensures multiset(ExecutionOrder(ts))[t] == if t.selected then multiset(ts)[t] else 0
  {
    ActiveCounts(ts);
    OnlyCounts(Active(ts), Sell);
    OnlyCounts(Active(ts), Buy);
    hide Active, Only;
  }

  /** No sell comes after a buy. */
  lemma SellsFirst(ts: seq<Trade>, i: nat, j: nat)
    requires i <= j < |ExecutionOrder(ts)| && ExecutionOrder(ts)[j].action == Sell
    ensures ExecutionOrder(ts)[i].action == Sell
  {
    var sells, buys := Only(Active(ts), Sell), Only(Active(ts), Buy);
    OnlyHas(Active(ts), Sell);
    OnlyHas(Active(ts), Buy);
    hide Active, Only;
    var order := ExecutionOrder(ts);
    assert forall x :: 0 <= x < |sells| ==> order[x] == sells[x];
    assert forall x :: |sells| <= x < |order| ==> order[x] == buys[x - |sells|];
  }

  lemma {:induction false} OnlyHas(ts: seq<Trade>, action: Action)
    ensures forall i :: 0 <= i < |Only(ts, action)| ==> Only(ts, action)[i].action == action
  {
    if ts != [] {
      OnlyHas(Init(ts), action);
    }
  }

  lemma {:induction false} AttemptsAre(ts: seq<Trade>, accepted: Trade -> bool, i: nat)
    requires i < |ts|
    ensures |Attempts(ts, accepted)| == |ts| && Attempts(ts, accepted)[i] == Attempt(ts[i], accepted(ts[i]))
  {
    if i < |ts| - 1 {
      AttemptsAre(Init(ts), accepted, i);
    } else if i > 0 {
      AttemptsAre(Init(ts), accepted, i - 1);
    }
  }

  lemma {:induction false} FailuresCounted(attempts: seq<Attempt>)
    ensures Failures(attempts) == |set i: nat | i < |attempts| && !attempts[i].success|
  {
    var failed := set i: nat | i < |attempts| && !attempts[i].success;
    if attempts != [] {
      var n := |attempts| - 1;
      FailuresCounted(Init(attempts));
      var before := set i: nat | i < n && !Init(attempts)[i].success;
      assert failed == before + if attempts[n].success then {} else {n};
    }
  }

  function Signed(t: Trade): real {
    if t.action == Buy then t.sharesToTrade else -t.sharesToTrade
  }

  /** The place of the position that the look-up of an asset finds, or the length. */
  function PlaceOf(ps: seq<Position>, asset: string): (i: nat)
    ensures i <= |ps|
    ensures i < |ps| ==> ps[i].asset == asset
    ensures i == |ps| <==> !Holds(ps, asset)
  {
    if ps == [] then 0
    else if Last(ps).asset == asset then |ps| - 1
    else
      HoldsNext(ps, |ps| - 1);
      assert ps[..|ps|] == ps;
      var i := PlaceOf(Init(ps), asset);
      if i < |ps| - 1 then i else |ps|
  }

  /** A trade filled in full at its current price. */
  datatype Account = Account(positions: seq<Position>, usdc: real)

  function Filled(a: Account, t: Trade): Account {
    var i := PlaceOf(a.positions, t.tokenId);
    var paid := Worth(Signed(t), t.currentPrice);
    if i < |a.positions| then
      Account(a.positions[i := a.positions[i].(size := a.positions[i].size + Signed(t))], a.usdc - paid)
    else
      Account(a.positions + [Position(t.tokenId, Signed(t), t.currentPrice, t.currentPrice, false)], a.usdc - paid)
  }

  function FilledAll(a: Account, ts: seq<Trade>): Account {
    if ts == [] then a else Filled(FilledAll(a, Init(ts)), Last(ts))
  }
}
