/**
 * From a trade size in USDC to a posted limit order: allocation weight, safety cap, collateral
 * clamp, share rounding, slippage and tick alignment (src/copyTrader.ts, src/tradeExecutor.ts,
 * src/clobClient.ts), over exact rationals.
 */
module OrderCost {
  import opened Options
  import opened Rounding
  import opened Sides

  /** `baseSize` is what the sizing mode proposes, `slippage` the percentage in force. */
  datatype Request = Request(
    side: Side,
    price: real,
    baseSize: real,
    weight: real,
    configuredSize: real,
    proportional: bool,
    slippage: real
  )

  /** Answers of the exchange; None where the look-up failed. `owned` is None also when nothing is owned. */
  datatype Market = Market(collateral: Option<real>, owned: Option<real>, minShares: real, minOrderSize: real,
                           tick: Option<real>)

  datatype Order = Order(size: real, price: real)

  // ---------------------------------------------------------------- allocation gate

  datatype Allocation = Allocation(paused: bool, targetWeight: real)
  datatype Permission = Permission(allowed: bool, weight: real)

  function EvaluateAllocationGate(discoveryTracked: bool, state: Option<Allocation>): (g: Permission)
    ensures 0.0 <= g.weight <= 2.0 && (g.allowed <==> g.weight > 0.0)
    ensures g.allowed
            <==> (state.None? && !discoveryTracked)
                 || (state.Some? && !state.value.paused && state.value.targetWeight > 0.0)
    ensures state.None? && !discoveryTracked ==> g == Permission(true, 1.0)
    ensures state.Some? && !state.value.paused && 0.0 < state.value.targetWeight <= 2.0
            ==> g == Permission(true, state.value.targetWeight)
    ensures state.Some? && !state.value.paused && state.value.targetWeight > 2.0 ==> g == Permission(true, 2.0)
  {
    match state
    case None => if discoveryTracked then Permission(false, 0.0) else Permission(true, 1.0)
    case Some(s) =>
      var weight := Max(0.0, Min(2.0, s.targetWeight));
      if s.paused || weight <= 0.0 then Permission(false, 0.0) else Permission(true, weight)
  }

  // ---------------------------------------------------------------- sizing

  function Times(x: real, y: real): real {
    x * y
  }

  function Weighted(r: Request): real {
    if r.weight != 1.0 then Fixed2(Times(r.baseSize, r.weight)) else r.baseSize
  }

  function Cap(r: Request): real {
    if r.proportional then Max(r.configuredSize * 2.0, 500.0) else r.configuredSize * 2.0
  }

  function Spendable(collateral: real): real {
    Max(0.0, collateral - 0.5)
  }

  /** The USDC size of the order, None when it is rejected. */
  function SizeOf(r: Request, collateral: Option<real>): Option<real> {
    var size := Weighted(r);
    if size <= 0.0 || size > Cap(r) then None
    else if r.side == Sell || collateral.None? then Some(size)
    else if Spendable(collateral.value) <= 0.0 then None
    else Some(if size > Spendable(collateral.value) then Fixed2(Spendable(collateral.value)) else size)
  }

  /** Lines 1027-1114. */
  method SizeTrade(r: Request, collateral: Option<real>) returns (result: Option<real>)
    ensures result == SizeOf(r, collateral)
  {
    hide Weighted, Cap;
    var tradeSizeUsdcNum := Weighted(r);
    if tradeSizeUsdcNum <= 0.0 {
      return None;
    }
    var maxAllowedUsd := Cap(r);
    if tradeSizeUsdcNum > maxAllowedUsd {
      return None;
    }
    if r.side == Buy && collateral.Some? {
      var maxSpendableUsdc := Max(0.0, collateral.value - 0.5);
      if maxSpendableUsdc <= 0.0 {
        return None;
      }
      if tradeSizeUsdcNum > maxSpendableUsdc {
        tradeSizeUsdcNum := Fixed2(maxSpendableUsdc);
      }
    }
    result := Some(tradeSizeUsdcNum);
  }

  // ---------------------------------------------------------------- price

  function Slipped(side: Side, price: real, slippage: real): real {
    if side == Buy then Min(price * (1.0 + slippage / 100.0), 0.99) else Max(price * (1.0 - slippage / 100.0), 0.01)
  }

  function OnTick(price: real, tick: real): real
    requires tick > 0.0
  {
    Times(MathRound(price / tick) as real, tick)
  }

  /** The nearest tick, unless that is 0 or 1. */
  function Aligned(price: real, tick: Option<real>): real {
    if tick.Some? && tick.value > 0.0 && 0.0 < OnTick(price, tick.value) < 1.0 then OnTick(price, tick.value) else price
  }

  function TickSize(tick: Option<real>): real {
    if tick.Some? && tick.value > 0.0 then tick.value else 0.0
  }

  /** src/clobClient.ts, lines 209-231. */
  method AlignPrice(price: real, tick: Option<real>) returns (finalPrice: Option<real>)
    ensures finalPrice == if 0.0 < Aligned(price, tick) <= 1.0 then Some(Aligned(price, tick)) else None
  {
    var final := price;
    if tick.Some? && tick.value > 0.0 {
      var roundedPrice := MathRound(price / tick.value) as real * tick.value;
      if roundedPrice > 0.0 && roundedPrice < 1.0 {
        final := roundedPrice;
      }
    }
    if final <= 0.0 || final > 1.0 {
      return None;
    }
    finalPrice := Some(final);
  }

  // ---------------------------------------------------------------- the order

  function SharesFor(r: Request, size: real): real
    requires r.price > 0.0
  {
    Fixed2(size / r.price)
  }

  /** A sell is capped to the shares owned. */
  function Capped(r: Request, shares: real, owned: Option<real>): Option<real> {
    if r.side == Buy then Some(shares)
    else if owned.None? || owned.value <= 0.0 then None
    else Some(if shares > owned.value then Fixed2(owned.value) else shares)
  }

  /** The amount passes through two decimals twice more on its way to the order. */
  function Execute(side: Side, price: real, amount: real, slippage: real, m: Market): Option<Order> {
    var size := Fixed2(amount);
    var slipped := Slipped(side, price, slippage);
    if price <= 0.0 || price > 1.0 || amount <= 0.0 || slipped < 0.01 || slipped > 0.99 || size < m.minOrderSize
      then None
    else if 0.0 < Aligned(slipped, m.tick) <= 1.0 then Some(Order(size, Aligned(slipped, m.tick)))
    else None
  }

  function Placed(r: Request, m: Market): Option<Order> {
    if r.price <= 0.0 || r.price > 1.0 then None
    else
      match SizeOf(r, m.collateral)
      case None => None
      case Some(usdc) =>
        var shares := SharesFor(r, usdc);
        if shares < m.minShares then None
        else
          match Capped(r, shares, m.owned)
          case None => None
          case Some(amount) => Execute(r.side, r.price, Fixed2(amount), r.slippage, m)
  }

  /** src/tradeExecutor.ts, lines 163-230, and the alignment. */
  method ExecuteTrade(side: Side, orderPrice: real, amount: real, slippage: real, m: Market)
    returns (order: Option<Order>)
    ensures order == Execute(side, orderPrice, amount, slippage, m)
  {
    var price, size := orderPrice, amount;
    if price <= 0.0 || price > 1.0 {
      return None;
    }
    if size <= 0.0 {
      return None;
    }
    if side == Buy {
      price := Min(price * (1.0 + slippage / 100.0), 0.99);
    } else {
      price := Max(price * (1.0 - slippage / 100.0), 0.01);
    }
    if price < 0.01 || price > 0.99 {
      return None;
    }
    size := Fixed2(size);
    if size < m.minOrderSize {
      return None;
    }
    var finalPrice := AlignPrice(price, m.tick);
    order := if finalPrice.Some? then Some(Order(size, finalPrice.value)) else None;
  }

  /** src/copyTrader.ts, lines 592 and 1027-1296, for one execution target. */
  method ProcessTarget(r: Request, m: Market) returns (order: Option<Order>)
    ensures order == Placed(r, m)
  {
    if r.price <= 0.0 || r.price > 1.0 {
      return None;
    }
    var usdc := SizeTrade(r, m.collateral);
    if usdc.None? {
      return None;
    }
    var finalSharesAmount := SharesFor(r, usdc.value);
    if finalSharesAmount < m.minShares {
      return None;
    }
    if r.side == Sell {
      if m.owned.None? || m.owned.value <= 0.0 {
        return None;
      }
      if finalSharesAmount > m.owned.value {
        finalSharesAmount := Fixed2(m.owned.value);
      }
    }
    order := ExecuteTrade(r.side, r.price, Fixed2(finalSharesAmount), r.slippage, m);
  }

  // ---------------------------------------------------------------- bounds on the pieces

  lemma Scaled(x: real, y: real, unit: real)
    requires x <= y && unit >= 0.0
    ensures x * unit <= y * unit
  {
    assert (y - x) * unit >= 0.0;
  }

  lemma TimesHalf(d: real, tick: real)
    requires tick > 0.0 && d <= 0.5
    ensures Times(d, tick) <= tick / 2.0
  {
    assert (0.5 - d) * tick >= 0.0;
  }

  lemma TimesApart(n: real, q: real, tick: real)
    ensures Times(n - q, tick) == Times(n, tick) - Times(q, tick)
  {
  }

  /** Multiples of tick whose factors are at most a half apart. */
  lemma TimesNear(n: real, q: real, tick: real)
    requires tick > 0.0 && n - 0.5 <= q
    ensures Times(n, tick) - Times(q, tick) <= tick / 2.0
  {
    TimesHalf(n - q, tick);
    TimesApart(n, q, tick);
    hide Times;
  }

  lemma TimesBack(price: real, tick: real)
    requires tick > 0.0
    ensures Times(price / tick, tick) == price
  {
  }

  lemma OnTickNear(price: real, tick: real)
    requires tick > 0.0
    ensures price - tick / 2.0 <= OnTick(price, tick) <= price + tick / 2.0
  {
    var q, n := price / tick, MathRound(price / tick) as real;
    TimesNear(n, q, tick);
    TimesNear(q, n, tick);
    TimesBack(price, tick);
    hide Times, MathRound;
  }

  /** Alignment moves a price by at most half a tick. */
  lemma AlignedNear(price: real, tick: Option<real>)
    ensures price - TickSize(tick) / 2.0 <= Aligned(price, tick) <= price + TickSize(tick) / 2.0
  {
    if tick.Some? && tick.value > 0.0 {
      OnTickNear(price, tick.value);
    }
  }

  lemma Fixed2Monotone(x: real, y: real)
    requires 0.0 <= x <= y
    ensures Fixed2(x) <= Fixed2(y)
  {
    assert x * 100.0 <= y * 100.0;
    assert MathRound(x * 100.0) <= MathRound(y * 100.0);
  }

  /** The size never exceeds the cap by more than half a cent, nor the collateral less 0.495, and it is no less
      than the weighted size or the collateral less 0.505. */
  lemma SizeBounds(r: Request, collateral: Option<real>)
    requires SizeOf(r, collateral).Some?
    ensures var size := SizeOf(r, collateral).value;
            && 0.0 <= size <= Cap(r) + 0.005
            && (r.side == Sell || collateral.None? ==> size == Weighted(r) <= Cap(r))
            && (r.side == Buy && collateral.Some? ==>
                  Min(Weighted(r), collateral.value - 0.505) <= size
                    <= Min(Weighted(r) + 0.005, collateral.value - 0.495))
  {
    if r.side == Buy && collateral.Some? {
      Fixed2Near(Spendable(collateral.value));
      hide Fixed2;
    }
  }

  /** In numbers: the weighted size is the base size for weight 1, and else their product to the cent. */
  lemma WeightedInNumbers(r: Request, product: real)
    requires product == r.baseSize * r.weight
    ensures r.weight == 1.0 ==> Weighted(r) == r.baseSize
    ensures r.weight != 1.0 ==>
              && product - 0.005 <= Weighted(r) <= product + 0.005
              && (Weighted(r) * 100.0).Floor as real == Weighted(r) * 100.0
  {
    assert product == Times(r.baseSize, r.weight);
    hide Times, Fixed2;
    Fixed2Near(product);
  }

  /** In numbers: a weighted size is rejected if it is not positive, above twice the configured size (or above 500 when
      sizes are proportional and that is more), or for a buy with at most 0.50 of collateral. A buy that the collateral
      less 0.50 does not cover gets that, to the cent; everything else goes through as it is. */
  lemma SizeInNumbers(r: Request, collateral: Option<real>)
    ensures var size, weighted := SizeOf(r, collateral), Weighted(r);
            var cap := if r.proportional && r.configuredSize < 250.0 then 500.0 else 2.0 * r.configuredSize;
            && (size.None? <==> weighted <= 0.0 || weighted > cap
                                || (r.side == Buy && collateral.Some? && collateral.value <= 0.5))
            && (size.Some? ==>
                  if r.side == Sell || collateral.None? || weighted <= collateral.value - 0.5
                  then size.value == weighted
                  else collateral.value - 0.505 <= size.value <= collateral.value - 0.495)
  {
    hide Weighted, Fixed2;
    if collateral.Some? {
      Fixed2Near(Spendable(collateral.value));
    }
  }

  /** In numbers: a buy gives way upwards by the percentage, a sell downwards, but not past 0.99 and 0.01. */
  lemma SlippedInNumbers(side: Side, price: real, slippage: real)
    ensures var up, down := price * (100.0 + slippage), price * (100.0 - slippage);
            && (side == Buy ==> Slipped(side, price, slippage) * 100.0 == if up < 99.0 then up else 99.0)
            && (side == Sell ==> Slipped(side, price, slippage) * 100.0 == if down > 1.0 then down else 1.0)
  {
    PerCent(price, 100.0 + slippage, 1.0 + slippage / 100.0);
    PerCent(price, 100.0 - slippage, 1.0 - slippage / 100.0);
  }

  /** A price that is not within half a tick of 0 or 1 becomes a whole number of ticks. */
  lemma AlignedOnGrid(price: real, tick: real) returns (ticks: int)
    requires tick > 0.0 && tick / 2.0 < price < 1.0 - tick / 2.0
    ensures Aligned(price, Some(tick)) == ticks as real * tick
  {
    OnTickNear(price, tick);
    ticks := MathRound(price / tick);
  }

  /** Rounding up to the cap's own cents cannot pass the cap. */
  predicate CapOnGrid(cap: real) {
    Fixed2(cap) <= cap || Fixed2(cap) == cap + 0.005
  }

  /** The clamp to collateral keeps every buy within the safety cap exactly when the cap does not round up to
      the cent, except from an exact half cent. */
  lemma CapHeldExactly(cap: real)
    requires cap > 0.0
    ensures (forall r: Request, collateral: Option<real> ::
               Cap(r) == cap && SizeOf(r, collateral).Some? ==> SizeOf(r, collateral).value <= cap)
            <==> CapOnGrid(cap)
  {
    if CapOnGrid(cap) {
      forall r: Request, collateral: Option<real> | Cap(r) == cap && SizeOf(r, collateral).Some?
        ensures SizeOf(r, collateral).value <= cap
      {
        if r.side == Buy && collateral.Some? && Weighted(r) > Spendable(collateral.value) {
          ClampWithin(Spendable(collateral.value), cap);
        }
      }
    } else {
      var cents := Fixed2(cap);
      Fixed2Near(cap);
      var spendable := (cap + (cents - 0.005)) / 2.0;
      RoundsTo(spendable, cap);
      var r := Request(Buy, 0.5, cap, 1.0, cap / 2.0, false, 0.0);
      assert Cap(r) == cap;
      assert SizeOf(r, Some(spendable + 0.5)) == Some(cents);
    }
  }

  /** For one: 20.01 USDC under a cap of 20.006. */
  lemma ClampPassesCap()
    ensures var r := Request(Buy, 0.5, 20.006, 1.0, 10.003, false, 0.0);
            Cap(r) == 20.006 && SizeOf(r, Some(20.5055)) == Some(20.01)
  {
    assert 20.0055 * 100.0 == 2000.55;
    assert MathRound(2000.55) == 2001;
  }

  lemma ClampWithin(spendable: real, cap: real)
    requires 0.0 < spendable < cap && CapOnGrid(cap)
    ensures Fixed2(spendable) <= cap
  {
    Fixed2Monotone(spendable, cap);
    if Fixed2(cap) > cap {
      Fixed2Near(spendable);
      var a, b := MathRound(spendable * 100.0), MathRound(cap * 100.0);
      assert b as real == cap * 100.0 + 0.5;
      assert a < b;
    }
  }

  lemma RoundIs(y: real, n: int)
    requires n as real - 0.5 <= y < n as real + 0.5
    ensures MathRound(y) == n
  {
    assert n as real - 1.0 < MathRound(y) as real < n as real + 1.0;
  }

  /** Just below a cap that rounds up, a size rounds up as well. */
  lemma RoundsTo(spendable: real, cap: real)
    requires cap > 0.0 && cap < Fixed2(cap) < cap + 0.005
    requires spendable == (cap + (Fixed2(cap) - 0.005)) / 2.0
    ensures 0.0 < spendable < cap && Fixed2(spendable) == Fixed2(cap)
  {
    var n := MathRound(cap * 100.0);
    var cents := n as real;
    assert Fixed2(cap) == cents / 100.0;
    assert n >= 1;
    assert cents - 0.5 < cap * 100.0 < cents;
    RoundIs(spendable * 100.0, n);
  }

  // ---------------------------------------------------------------- the cost of a buy

  lemma ProductBound(a: real, b: real, x: real, y: real)
    requires 0.0 <= a <= x && 0.0 <= b <= y
    ensures a * b <= x * y
  {
  }

  /** `usdc` is the size and `o` the order that a request leads to. */
  ghost predicate Leads(r: Request, m: Market, usdc: real, o: Order) {
    Placed(r, m) == Some(o) && SizeOf(r, m.collateral) == Some(usdc)
  }

  lemma LeadsSomewhere(r: Request, m: Market)
    requires Placed(r, m).Some?
    ensures SizeOf(r, m.collateral).Some? && Leads(r, m, SizeOf(r, m.collateral).value, Placed(r, m).value)
    ensures 0.0 < r.price <= 1.0
  {
  }

  /** A placed order has a positive price at most 1 and the rounded shares as its size. */
  lemma PlacedParts(r: Request, m: Market, usdc: real, o: Order)
    requires Leads(r, m, usdc, o)
    ensures 0.0 < r.price <= 1.0
    ensures 0.0 < o.price <= 1.0 && o.price == Aligned(Slipped(r.side, r.price, r.slippage), m.tick)
    ensures Capped(r, SharesFor(r, usdc), m.owned) == Some(o.size)
  {
    var amount := Capped(r, SharesFor(r, usdc), m.owned).value;
    Fixed2Idempotent(usdc / r.price);
    if r.side == Sell && SharesFor(r, usdc) > m.owned.value {
      Fixed2Idempotent(m.owned.value);
    }
    assert Fixed2(amount) == amount;
  }

  /** What keeps a request from becoming an order. */
  lemma PlacedExactly(r: Request, m: Market)
    ensures Placed(r, m).Some? <==>
              && 0.0 < r.price <= 1.0 && SizeOf(r, m.collateral).Some?
              && var shares := Fixed2(SizeOf(r, m.collateral).value / r.price);
                 var amount := if r.side == Sell && m.owned.Some? && shares > m.owned.value then Fixed2(m.owned.value)
                               else shares;
                 && shares >= m.minShares
                 && (r.side == Sell ==> m.owned.Some? && m.owned.value > 0.0)
                 && amount > 0.0 && amount >= m.minOrderSize
                 && 0.01 <= Slipped(r.side, r.price, r.slippage) <= 0.99
                 && 0.0 < Aligned(Slipped(r.side, r.price, r.slippage), m.tick) <= 1.0
  {
    hide SizeOf, Slipped, Aligned, Fixed2;
    if 0.0 < r.price <= 1.0 && SizeOf(r, m.collateral).Some? {
      var shares := SizeOf(r, m.collateral).value / r.price;
      Fixed2Idempotent(shares);
      if m.owned.Some? {
        Fixed2Idempotent(m.owned.value);
      }
    }
  }

  /** A sell is for its size at the quoted price or for what is owned, whichever is less, to a hundredth of a share. */
  lemma SellSize(r: Request, m: Market, usdc: real, o: Order)
    requires r.side == Sell && Leads(r, m, usdc, o)
    ensures r.price > 0.0 && m.owned.Some?
    ensures var wanted := Min(usdc / r.price, m.owned.value); wanted - 0.005 <= o.size <= wanted + 0.01
  {
    PlacedParts(r, m, usdc, o);
    Fixed2Near(usdc / r.price);
    Fixed2Near(m.owned.value);
    hide Leads, Fixed2;
  }

  /** A buy is for its size at the quoted price, to half a hundredth of a share. */
  lemma BuySize(r: Request, m: Market, usdc: real, o: Order)
    requires r.side == Buy && Leads(r, m, usdc, o)
    ensures r.price > 0.0 && 0.0 <= usdc
    ensures 0.0 <= o.size && usdc / r.price - 0.005 <= o.size <= usdc / r.price + 0.005
  {
    assert usdc >= 0.0 by {
      SizeBounds(r, m.collateral);
    }
    PlacedParts(r, m, usdc, o);
    hide Leads;
    QuotientBound(0.0, usdc, r.price);
    Fixed2Near(usdc / r.price);
  }

  lemma PlacedPrice(r: Request, m: Market, usdc: real, o: Order)
    requires Leads(r, m, usdc, o)
    ensures 0.0 < r.price <= 1.0
    ensures 0.0 < o.price <= 1.0 && o.price == Aligned(Slipped(r.side, r.price, r.slippage), m.tick)
  {
    PlacedParts(r, m, usdc, o);
  }

  /** The most that one share can cost, slippage and alignment included. */
  function UnitCost(r: Request, m: Market): real {
    r.price * (1.0 + r.slippage / 100.0) + TickSize(m.tick) / 2.0
  }

  lemma SlippedUp(price: real, slippage: real)
    ensures Slipped(Buy, price, slippage) <= price * (1.0 + slippage / 100.0)
  {
  }

  lemma BuyPrice(r: Request, m: Market, usdc: real, o: Order)
    requires r.side == Buy && Leads(r, m, usdc, o)
    ensures 0.0 < o.price <= UnitCost(r, m)
    ensures o.price == FinalPrice(r.price, r.slippage, m.tick)
  {
    hide Leads, Aligned, Slipped, TickSize;
    PlacedPrice(r, m, usdc, o);
    AlignedNear(Slipped(Buy, r.price, r.slippage), m.tick);
    SlippedUp(r.price, r.slippage);
  }

  /** What a buy costs, in terms of its size. */
  lemma BuyCostBound(r: Request, m: Market, usdc: real, o: Order)
    requires r.side == Buy && Leads(r, m, usdc, o)
    ensures r.price > 0.0
    ensures o.size * o.price
            <= (usdc / r.price + 0.005) * (r.price * (1.0 + r.slippage / 100.0) + TickSize(m.tick) / 2.0)
  {
    hide Leads;
    BuySize(r, m, usdc, o);
    BuyPrice(r, m, usdc, o);
    ProductBound(o.size, o.price, usdc / r.price + 0.005, UnitCost(r, m));
  }

  /** The size that the cap and the collateral allow. */
  function MostUsdc(r: Request, collateral: real): real {
    Min(if CapOnGrid(Cap(r)) then Cap(r) else Cap(r) + 0.005, collateral - 0.495)
  }

  lemma BuyWithinMost(r: Request, collateral: real)
    requires r.side == Buy && SizeOf(r, Some(collateral)).Some?
    ensures 0.0 <= SizeOf(r, Some(collateral)).value <= MostUsdc(r, collateral)
  {
    SizeBounds(r, Some(collateral));
    if CapOnGrid(Cap(r)) && Weighted(r) > Spendable(collateral) {
      ClampWithin(Spendable(collateral), Cap(r));
    }
  }

  lemma UsdcBounds(r: Request, m: Market, usdc: real, o: Order)
    requires r.side == Buy && m.collateral.Some? && Leads(r, m, usdc, o)
    ensures 0.0 <= usdc <= MostUsdc(r, m.collateral.value)
    ensures usdc <= m.collateral.value - 0.495
  {
    BuyWithinMost(r, m.collateral.value);
    SizeBounds(r, m.collateral);
  }

  /** With the collateral check, the same bound from the cap and the collateral alone. */
  lemma BuyCostWithinCollateral(r: Request, m: Market, usdc: real, o: Order)
    requires r.side == Buy && m.collateral.Some? && Leads(r, m, usdc, o)
    ensures r.price > 0.0
    ensures o.size * o.price <= (MostUsdc(r, m.collateral.value) / r.price + 0.005)
                                * (r.price * (1.0 + r.slippage / 100.0) + TickSize(m.tick) / 2.0)
  {
    hide Leads, MostUsdc;
    var most := MostUsdc(r, m.collateral.value);
    UsdcBounds(r, m, usdc, o);
    BuySize(r, m, usdc, o);
    BuyPrice(r, m, usdc, o);
    QuotientBound(usdc, most, r.price);
    ProductBound(o.size, o.price, most / r.price + 0.005, UnitCost(r, m));
  }

  lemma QuotientBound(x: real, y: real, d: real)
    requires 0.0 <= x <= y && d > 0.0
    ensures 0.0 <= x / d <= y / d
  {
  }

  /** A sell never exceeds the shares owned by more than half a hundredth. */
  lemma SellWithinHoldings(r: Request, m: Market)
    requires r.side == Sell && Placed(r, m).Some?
    ensures m.owned.Some? && Placed(r, m).value.size <= m.owned.value + 0.005
  {
    LeadsSomewhere(r, m);
    PlacedParts(r, m, SizeOf(r, m.collateral).value, Placed(r, m).value);
    Fixed2Near(m.owned.value);
  }

  // ---------------------------------------------------------------- does the reserve cover the order?

  function FinalPrice(price: real, slippage: real, tick: Option<real>): real {
    Aligned(Slipped(Buy, price, slippage), tick)
  }

  lemma CoveredAtOrBelow(r: Request, m: Market, usdc: real, o: Order)
    requires r.side == Buy && m.collateral.Some? && Leads(r, m, usdc, o)
    requires FinalPrice(r.price, r.slippage, m.tick) <= r.price
    ensures o.size * o.price <= m.collateral.value
  {
    hide Leads, FinalPrice, MostUsdc, Aligned, Slipped, TickSize, UnitCost;
    UsdcBounds(r, m, usdc, o);
    PlacedPrice(r, m, usdc, o);
    BuySize(r, m, usdc, o);
    BuyPrice(r, m, usdc, o);
    ProductBound(o.size, o.price, usdc / r.price + 0.005, r.price);
    BackToUsdc(usdc, r.price);
  }

  lemma BackToUsdc(usdc: real, price: real)
    requires 0.0 < price <= 1.0
    ensures (usdc / price + 0.005) * price <= usdc + 0.005
  {
    assert usdc / price * price == usdc;
  }

  /** Whether every buy at a price with a slippage and tick costs at most the collateral it was sized by. */
  ghost predicate AlwaysCovered(price: real, slippage: real, tick: Option<real>, minShares: real, minOrderSize: real) {
    forall r: Request, m: Market ::
      r.side == Buy && r.price == price && r.slippage == slippage && m.tick == tick
      && m.minShares == minShares && m.minOrderSize == minOrderSize && m.collateral.Some? && Placed(r, m).Some?
      ==> Placed(r, m).value.size * Placed(r, m).value.price <= m.collateral.value
  }

  /** A buy of `n` USDC from a collateral that just allows it. */
  lemma LargeBuy(price: real, slippage: real, tick: Option<real>, minShares: real, minOrderSize: real, n: int)
    returns (r: Request, m: Market)
    requires 0.0 < price <= 1.0 && n >= 1 && n as real >= minShares + 1.0 && n as real >= minOrderSize + 1.0
    requires 0.01 <= Slipped(Buy, price, slippage) && 0.0 < FinalPrice(price, slippage, tick) <= 1.0
    ensures r.side == Buy && r.price == price && r.slippage == slippage && m.tick == tick
    ensures m.minShares == minShares && m.minOrderSize == minOrderSize && m.collateral == Some(n as real + 0.5)
    ensures Placed(r, m).Some? && Placed(r, m).value.price == FinalPrice(price, slippage, tick)
    ensures Placed(r, m).value.size >= n as real / price - 0.005
  {
    var usdc := n as real;
    r := Request(Buy, price, usdc, 1.0, usdc, false, slippage);
    m := Market(Some(usdc + 0.5), None, minShares, minOrderSize, tick);
    assert SizeOf(r, m.collateral) == Some(usdc);
    var shares := usdc / price;
    assert shares >= usdc by {
      Scaled(price, 1.0, shares);
    }
    Fixed2Near(shares);
    Fixed2Idempotent(shares);
  }

  /** The collateral always covers the order exactly when the final price is not above the quoted one. */
  lemma ReserveCoversExactly(price: real, slippage: real, tick: Option<real>, minShares: real, minOrderSize: real)
    requires 0.0 < price <= 1.0 && 0.01 <= Slipped(Buy, price, slippage)
             && 0.0 < FinalPrice(price, slippage, tick) <= 1.0
    ensures AlwaysCovered(price, slippage, tick, minShares, minOrderSize)
            <==> FinalPrice(price, slippage, tick) <= price
  {
    hide Placed, FinalPrice;
    var final := FinalPrice(price, slippage, tick);
    if final <= price {
      forall r: Request, m: Market |
        r.side == Buy && r.price == price && r.slippage == slippage && m.tick == tick
        && m.minShares == minShares && m.minOrderSize == minOrderSize && m.collateral.Some? && Placed(r, m).Some?
        ensures Placed(r, m).value.size * Placed(r, m).value.price <= m.collateral.value
      {
        LeadsSomewhere(r, m);
        CoveredAtOrBelow(r, m, SizeOf(r, m.collateral).value, Placed(r, m).value);
      }
    } else {
      var n := LargeEnough(price, final, Max(minShares, minOrderSize));
      var r, m := LargeBuy(price, slippage, tick, minShares, minOrderSize, n);
      Scaled(n as real / price - 0.005, Placed(r, m).value.size, final);
      assert Placed(r, m).value.size * Placed(r, m).value.price > m.collateral.value;
    }
  }

  /** For one: with 2 percent slippage 200 shares quoted at 0.50 are ordered at 0.51, for 102 USDC out of 100.50. */
  lemma ReserveTooSmall()
    ensures var r := Request(Buy, 0.5, 100.0, 1.0, 100.0, false, 2.0);
            var m := Market(Some(100.5), None, 5.0, 5.0, Some(0.01));
            && Placed(r, m) == Some(Order(200.0, 0.51))
            && Placed(r, m).value.size * Placed(r, m).value.price == 102.0 > 100.5
  {
    assert 0.5 * (1.0 + 2.0 / 100.0) == 0.51;
    assert 0.51 / 0.01 == 51.0 && MathRound(51.0) == 51;
    assert OnTick(0.51, 0.01) == 0.51;
    assert MathRound(20000.0) == 20000 && Fixed2(200.0) == 200.0;
  }

  lemma LargeEnough(price: real, final: real, min: real) returns (n: int)
    requires 0.0 < price < final <= 1.0
    ensures n as real > 1.0 && n as real > min + 1.0
    ensures (n as real / price - 0.005) * final > n as real + 0.5
  {
    var gain, need := Gain(price, final);
    n := IntegerAbove(1.0, min + 1.0, need);
    var x := n as real;
    assert x * gain > 0.505 by {
      NeedMet(need, gain, x);
    }
    Resale(x, price, final, gain);
  }

  lemma IntegerAbove(a: real, b: real, c: real) returns (n: int)
    ensures n as real > a && n as real > b && n as real > c
  {
    n := Max(Max(a, b), c).Floor + 1;
  }

  lemma Gain(price: real, final: real) returns (gain: real, need: real)
    requires 0.0 < price < final
    ensures gain == final / price - 1.0 && gain > 0.0 && need * gain == 0.505
  {
    gain := final / price - 1.0;
    need := 0.505 / gain;
  }

  lemma NeedMet(need: real, gain: real, x: real)
    requires gain > 0.0 && need * gain == 0.505 && x > need
    ensures x * gain > 0.505
  {
    var product := need * gain;
    assert product == 0.505;
    var more := (x - need) * gain;
    assert more > 0.0;
    assert x * gain == product + more;
  }

  lemma Resale(x: real, price: real, final: real, gain: real)
    requires 0.0 < price && 0.0 < final <= 1.0 && gain == final / price - 1.0 && x * gain > 0.505
    ensures (x / price - 0.005) * final > x + 0.5
  {
    var shares, ratio := x / price, final / price;
    assert shares * final == x * ratio;
    var profit := x * gain;
    assert x * ratio == x + profit;
    var proceeds := (shares - 0.005) * final;
    assert proceeds == shares * final - 0.005 * final;
    assert 0.005 * final <= 0.005;
    assert proceeds > x + 0.5;
  }
}
