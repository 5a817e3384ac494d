/**
 * Trailing stop-loss orders with a profit lock (src/smartStopLoss.ts). The manager updates its
 * list in place; a closed form says what the stop is after any stream of prices.
 */
module StopLoss {
  import opened Lists
  import opened Options
  import opened Rounding

  datatype Order = Order(
    id: string,
    tokenId: string,
    entryPrice: real,
    initialStop: real,
    currentStop: real,
    trailingPercent: real,
    lockEnabled: bool,
    lockThreshold: real,
    lockLevel: real,
    locked: bool,
    highWater: real,
    active: bool,
    triggeredPrice: Option<real>,
    cancelled: bool
  )

  datatype Config = Config(trailingPercent: real, initialStopPercent: real, lockEnabled: bool, lockThreshold: real)

  const DEFAULT_CONFIG := Config(15.0, 25.0, true, 0.15)

  /** A new order; the overrides are optional. */
  function Created(id: string, tokenId: string, entry: real, c: Config,
                   stop: Option<real>, trailing: Option<real>, threshold: Option<real>): Order {
    var initial := stop.GetOr(Max(0.01, entry * (1.0 - c.initialStopPercent / 100.0)));
    Order(id, tokenId, entry, initial, initial, trailing.GetOr(c.trailingPercent), c.lockEnabled,
          threshold.GetOr(c.lockThreshold), entry, false, entry, true, None, false)
  }

  ghost predicate Fresh(o: Order) {
    && o.currentStop == o.initialStop && o.lockLevel == o.entryPrice == o.highWater
    && !o.locked && o.active && o.triggeredPrice == None
  }

  // ---------------------------------------------------------------- one price

  function Trail(o: Order, price: real): real {
    price * (1.0 - o.trailingPercent / 100.0)
  }

  function Trailed(o: Order, price: real): Order {
    if price > o.highWater then o.(highWater := price, currentStop := Max(o.currentStop, Trail(o, price)))
    else o
  }

  predicate Locks(o: Order, price: real) {
    o.lockEnabled && !o.locked && price >= o.entryPrice + o.lockThreshold
  }

  /** The order after trailing and locking, before the trigger test. */
  function Raised(o: Order, price: real): Order {
    var t := Trailed(o, price);
    if Locks(t, price) then t.(locked := true, currentStop := Max(t.currentStop, t.lockLevel)) else t
  }

  /** One price seen by an active order; a tick that has just locked the profit never triggers. */
  function Tick(o: Order, price: real): Order {
    var r := Raised(o, price);
    if !Locks(o, price) && price <= r.currentStop then r.(active := false, triggeredPrice := Some(price)) else r
  }

  function Run(o: Order, prices: seq<real>): Order {
    if prices == [] then o
    else
      var before := Run(o, prices[..|prices| - 1]);
      if before.active then Tick(before, prices[|prices| - 1]) else before
  }

  // ---------------------------------------------------------------- the manager

  function Feed(o: Order, prices: map<string, real>): Order {
    if o.active && o.tokenId in prices then Tick(o, prices[o.tokenId]) else o
  }

  function FeedAll(orders: seq<Order>, prices: map<string, real>): seq<Order> {
    seq(|orders|, i requires 0 <= i < |orders| => Feed(orders[i], prices))
  }

  /** The orders that a round of prices has just triggered. */
  function Triggered(orders: seq<Order>, prices: map<string, real>): seq<Order> {
    if orders == [] then []
    else
      var last := orders[|orders| - 1];
      Triggered(orders[..|orders| - 1], prices) +
      if last.active && !Feed(last, prices).active then [Feed(last, prices)] else []
  }

  function HasId(id: string): Order -> bool {
    (o: Order) => o.id == id
  }

  /** The first order with the id is switched off. */
  function Cancelled(orders: seq<Order>, id: string): seq<Order> {
    var i := FindFirst(orders, HasId(id));
    if i < |orders| then orders[i := orders[i].(active := false, cancelled := true)] else orders
  }

  class StopLossManager {
    var orders: seq<Order>
    var config: Config

    constructor ()
      ensures orders == [] && config == DEFAULT_CONFIG
    {
      orders, config := [], DEFAULT_CONFIG;
    }

    method CreateStopLoss(id: string, tokenId: string, entryPrice: real,
                          stop: Option<real>, trailing: Option<real>, threshold: Option<real>)
      returns (order: Order)
      modifies this`orders
      ensures orders == old(orders) + [order] && Fresh(order) && order.tokenId == tokenId && order.id == id
      ensures order == Created(id, tokenId, entryPrice, config, stop, trailing, threshold)
    {
      order := Created(id, tokenId, entryPrice, config, stop, trailing, threshold);
      orders := orders + [order];
    }

    /** Lines 148-189, for one active order. */
    static method UpdateOrder(o: Order, currentPrice: real) returns (order: Order)
      requires o.active
      ensures order == Tick(o, currentPrice)
    {
      order := o;
      if currentPrice > order.highWater {
        order := order.(highWater := currentPrice);
        var newTrailingStop := Trail(o, currentPrice);
        if newTrailingStop > order.currentStop {
          order := order.(currentStop := newTrailingStop);
        }
      }
      var justLocked := false;
      if order.lockEnabled && !order.locked && currentPrice >= order.entryPrice + order.lockThreshold {
        order := order.(locked := true);
        justLocked := true;
        if order.currentStop < order.lockLevel {
          order := order.(currentStop := order.lockLevel);
        }
      }
      if !justLocked && currentPrice <= order.currentStop {
        order := order.(active := false, triggeredPrice := Some(currentPrice));
      }
    }

    /** Lines 139-197. */
    method UpdatePrices(priceMap: map<string, real>) returns (triggered: seq<Order>)
      modifies this`orders
      ensures orders == FeedAll(old(orders), priceMap)
      ensures triggered == Triggered(old(orders), priceMap)
    {
      hide Tick;
      triggered := [];
      for i := 0 to |orders|
        invariant |orders| == |old(orders)|
        invariant forall j :: 0 <= j < i ==> orders[j] == Feed(old(orders)[j], priceMap)
        invariant forall j :: i <= j < |orders| ==> orders[j] == old(orders)[j]
        invariant triggered == Triggered(old(orders)[..i], priceMap)
      {
        var order := orders[i];
        assert order == old(orders)[i];
        assert old(orders)[..i + 1][..i] == old(orders)[..i];
        if order.active && order.tokenId in priceMap {
          order := UpdateOrder(order, priceMap[order.tokenId]);
          if !order.active {
            triggered := triggered + [order];
          }
        }
        orders := orders[i := order];
      }
      assert old(orders)[..|old(orders)|] == old(orders);
    }

    /** Lines 202-209: the first order with the id. */
    method CancelStopLoss(orderId: string)
      modifies this`orders
      ensures orders == Cancelled(old(orders), orderId)
    {
      var i := 0;
      while i < |orders| && orders[i].id != orderId
        invariant i <= |orders| && forall j :: 0 <= j < i ==> !HasId(orderId)(orders[j])
      {
        i := i + 1;
      }
      if i < |orders| {
        orders := orders[i := orders[i].(active := false, cancelled := true)];
      }
    }
  }

  // ---------------------------------------------------------------- the closed form

  /** The running maximum, entry included. */
  function Highest(entry: real, prices: seq<real>): real {
    if prices == [] then entry else Max(Highest(entry, prices[..|prices| - 1]), prices[|prices| - 1])
  }

  ghost predicate LockReached(o: Order, prices: seq<real>) {
    o.lockEnabled && exists i :: 0 <= i < |prices| && prices[i] >= o.entryPrice + o.lockThreshold
  }

  /** The initial stop, the trail below the running maximum once it exceeds entry, and entry once the profit
      is locked: whichever is highest. */
  ghost function Form(o: Order, prices: seq<real>): real {
    var top := Highest(o.entryPrice, prices);
    var trail := if top > o.entryPrice then top * (100.0 - o.trailingPercent) / 100.0 else o.initialStop;
    Max(o.initialStop, Max(trail, if LockReached(o, prices) then o.entryPrice else o.initialStop))
  }

  /** The form by way of the program's trail. */
  ghost function FormByTrail(o: Order, prices: seq<real>): real {
    var top := Highest(o.entryPrice, prices);
    var trail := if top > o.entryPrice then Trail(o, top) else o.initialStop;
    Max(o.initialStop, Max(trail, if LockReached(o, prices) then o.entryPrice else o.initialStop))
  }

  lemma FormIsByTrail(o: Order, prices: seq<real>)
    ensures Form(o, prices) == FormByTrail(o, prices)
  {
    TrailIs(o, Highest(o.entryPrice, prices));
    hide Trail;
  }

  lemma TrailIs(o: Order, top: real)
    ensures Trail(o, top) == top * (100.0 - o.trailingPercent) / 100.0
  {
    PerCent(top, 100.0 - o.trailingPercent, 1.0 - o.trailingPercent / 100.0);
  }

  /** A trail of more than 100 percent is below zero, so it only matters when prices or stops are negative. */
  ghost predicate Trailable(o: Order) {
    o.trailingPercent <= 100.0 || (o.entryPrice >= 0.0 && o.initialStop >= 0.0)
  }

  lemma TrailMonotone(keep: real, low: real, high: real)
    requires keep >= 0.0 && low <= high
    ensures low * keep <= high * keep
  {
    assert (high - low) * keep >= 0.0;
  }

  /** A trail of at most 100 percent rises with the price; a wider one is not above zero. */
  lemma TrailOrder(o: Order, top: real, price: real)
    requires top < price
    ensures o.trailingPercent <= 100.0 ==> Trail(o, top) <= Trail(o, price)
    ensures o.trailingPercent > 100.0 && top >= 0.0 ==> Trail(o, top) <= 0.0 && Trail(o, price) <= 0.0
  {
    var keep := 1.0 - o.trailingPercent / 100.0;
    if keep >= 0.0 {
      TrailMonotone(keep, top, price);
    } else if top >= 0.0 {
      TrailMonotone(-keep, 0.0, top);
      TrailMonotone(-keep, 0.0, price);
    }
  }

  /** A new maximum never lowers the higher of the trail and the initial stop. */
  lemma TrailRises(o: Order, top: real, price: real)
    requires Trailable(o) && o.entryPrice <= top < price
    ensures Max(o.initialStop, Trail(o, top)) <= Max(o.initialStop, Trail(o, price))
  {
    hide Trail;
    TrailOrder(o, top, price);
  }

  lemma LockStep(o: Order, prices: seq<real>, price: real)
    ensures LockReached(o, prices + [price])
            <==> LockReached(o, prices) || (o.lockEnabled && price >= o.entryPrice + o.lockThreshold)
  {
    var all := prices + [price];
    assert forall i :: 0 <= i < |prices| ==> all[i] == prices[i];
    if LockReached(o, prices) {
      var i :| 0 <= i < |prices| && prices[i] >= o.entryPrice + o.lockThreshold;
      assert all[i] >= o.entryPrice + o.lockThreshold;
    }
    if o.lockEnabled && price >= o.entryPrice + o.lockThreshold {
      assert all[|prices|] >= o.entryPrice + o.lockThreshold;
    }
  }

  /** How one more price moves the form. */
  lemma FormStep(o: Order, prices: seq<real>, price: real)
    requires Trailable(o)
    ensures var top := Highest(o.entryPrice, prices);
            var all := prices + [price];
            && top >= o.entryPrice
            && Highest(o.entryPrice, all) == Max(top, price)
            && (LockReached(o, all)
                <==> LockReached(o, prices) || (o.lockEnabled && price >= o.entryPrice + o.lockThreshold))
            && Form(o, all) == Max(Form(o, prices),
                 Max(if price > top then Trail(o, price) else o.initialStop,
                     if LockReached(o, all) then o.entryPrice else o.initialStop))
  {
    var all, top := prices + [price], Highest(o.entryPrice, prices);
    assert all[..|all| - 1] == prices;
    HighestAboveEntry(o.entryPrice, prices);
    LockStep(o, prices, price);
    FormIsByTrail(o, prices);
    FormIsByTrail(o, all);
    hide Form;
    if price > top {
      TrailRises(o, top, price);
    }
  }

  lemma {:induction false} HighestAboveEntry(entry: real, prices: seq<real>)
    ensures Highest(entry, prices) >= entry
  {
    if prices != [] {
      HighestAboveEntry(entry, prices[..|prices| - 1]);
    }
  }

  /** What a run never changes. */
  predicate SamePlan(o: Order, r: Order) {
    && r.entryPrice == o.entryPrice && r.initialStop == o.initialStop && r.trailingPercent == o.trailingPercent
    && r.lockEnabled == o.lockEnabled && r.lockThreshold == o.lockThreshold && r.lockLevel == o.lockLevel
    && r.tokenId == o.tokenId && r.id == o.id
  }

  /** An active order carries the running maximum, the lock and the closed form of the prices seen. */
  ghost predicate Tracks(o: Order, prices: seq<real>, r: Order) {
    && r.currentStop == Form(o, prices)
    && r.highWater == Highest(o.entryPrice, prices)
    && (r.locked <==> LockReached(o, prices))
    && r.triggeredPrice == None
  }

  /** What raising does to the three fields, without the trail's arithmetic. */
  lemma RaisedFields(r: Order, price: real, trail: real)
    requires trail == Trail(r, price) && r.lockLevel == r.entryPrice
    ensures var q := Raised(r, price);
            var trailed := if price > r.highWater then Max(r.currentStop, trail) else r.currentStop;
            && q.highWater == Max(r.highWater, price) && q.triggeredPrice == r.triggeredPrice
            && (q.locked <==> r.locked || Locks(r, price))
            && q.currentStop == if Locks(r, price) then Max(trailed, r.entryPrice) else trailed
  {
  }

  lemma RaisedPlan(o: Order, r: Order, price: real)
    requires SamePlan(o, r)
    ensures SamePlan(o, Raised(r, price))
  {
  }

  lemma RaisedTracks(o: Order, prices: seq<real>, r: Order, price: real)
    requires Fresh(o) && Trailable(o) && SamePlan(o, r) && Tracks(o, prices, r)
    ensures Tracks(o, prices + [price], Raised(r, price))
  {
    hide Form, Highest, LockReached, Raised, Trailable;
    var trail := Trail(o, price);
    assert Trail(r, price) == trail;
    hide Trail;
    FormStep(o, prices, price);
    RaisedFields(r, price, trail);
    StepsAgree(o, prices, r, price, trail);
  }

  lemma StepsAgree(o: Order, prices: seq<real>, r: Order, price: real, trail: real)
    requires Fresh(o) && SamePlan(o, r) && Tracks(o, prices, r)
    ensures var top := Highest(o.entryPrice, prices);
            var locked := LockReached(o, prices) || (o.lockEnabled && price >= o.entryPrice + o.lockThreshold);
            var trailed := if price > r.highWater then Max(r.currentStop, trail) else r.currentStop;
            (if Locks(r, price) then Max(trailed, r.entryPrice) else trailed)
            == Max(Form(o, prices),
                   Max(if price > top then trail else o.initialStop, if locked then o.entryPrice else o.initialStop))
  {
  }

  /** While the order is active its stop is the closed form, whatever the prices. */
  lemma {:induction false} StopIsForm(o: Order, prices: seq<real>)
    requires Fresh(o) && Trailable(o)
    ensures var r := Run(o, prices);
            && SamePlan(o, r)
            && (r.active ==>
                 && r.currentStop == Form(o, prices)
                 && r.highWater == Highest(o.entryPrice, prices)
                 && (r.locked <==> LockReached(o, prices))
                 && r.triggeredPrice == None)
  {
    if prices == [] {
      return;
    }
    var init, price := prices[..|prices| - 1], prices[|prices| - 1];
    StopIsForm(o, init);
    hide Form, Highest, LockReached, Raised, Trailable;
    var before := Run(o, init);
    if before.active {
      assert prices == init + [price];
      RaisedTracks(o, init, before, price);
      RaisedPlan(o, before, price);
    }
  }

  /** The stop never falls, and an order that is no longer active never changes again. */
  lemma {:induction false} StopNeverFalls(o: Order, prices: seq<real>, more: seq<real>)
    ensures Run(o, prices + more).currentStop >= Run(o, prices).currentStop
    ensures !Run(o, prices).active ==> Run(o, prices + more) == Run(o, prices)
  {
    hide Tick;
    if more == [] {
      assert prices + more == prices;
    } else {
      var init := more[..|more| - 1];
      StopNeverFalls(o, prices, init);
      assert (prices + more)[..|prices + more| - 1] == prices + init;
      TickRises(Run(o, prices + init), more[|more| - 1]);
    }
  }

  lemma TickRises(o: Order, price: real)
    ensures Tick(o, price).currentStop >= o.currentStop
  {
    hide Trail;
  }

  // ---------------------------------------------------------------- the exemption

  /** The tick locks the profit and would otherwise have triggered. */
  predicate Suppressed(o: Order, price: real) {
    o.active && Locks(o, price) && price <= Raised(o, price).currentStop
  }

  predicate LockAboveStops(o: Order) {
    o.lockThreshold > 0.0 && o.trailingPercent > 0.0 && o.initialStop < o.entryPrice + o.lockThreshold
  }

  lemma TrailBelow(o: Order, price: real)
    requires price >= 0.0
    ensures o.trailingPercent > 0.0 && price > 0.0 ==> Trail(o, price) < price
    ensures o.trailingPercent <= 0.0 ==> Trail(o, price) >= price
  {
  }

  /** Until the lock, the high-water mark and the stop are both below the lock price. */
  lemma {:induction false} BelowLock(o: Order, prices: seq<real>)
    requires Fresh(o) && o.lockEnabled && o.entryPrice >= 0.0 && LockAboveStops(o)
    ensures var r := Run(o, prices);
            && SamePlan(o, r)
            && r.highWater >= o.entryPrice
            && (!r.locked
                ==> r.highWater < o.entryPrice + o.lockThreshold && r.currentStop < o.entryPrice + o.lockThreshold)
  {
    if prices == [] {
      return;
    }
    BelowLock(o, prices[..|prices| - 1]);
    var r, price := Run(o, prices[..|prices| - 1]), prices[|prices| - 1];
    RaisedFields(r, price, Trail(r, price));
    RaisedPlan(o, r, price);
    assert Trail(r, price) == Trail(o, price);
    if price > 0.0 {
      TrailBelow(o, price);
    }
    hide Raised, Trail;
  }

  /** The exemption suppresses no trigger, on any stream of prices, exactly when the lock price is above entry,
      the trail is below the price, and the initial stop is below the lock price. */
  lemma ExemptionHarmlessExactly(o: Order)
    requires Fresh(o) && o.lockEnabled && o.entryPrice >= 0.0
    ensures (forall prices: seq<real>, price: real :: !Suppressed(Run(o, prices), price)) <==> LockAboveStops(o)
  {
    if LockAboveStops(o) {
      forall prices: seq<real>, price: real
        ensures !Suppressed(Run(o, prices), price)
      {
        var r := Run(o, prices);
        BelowLock(o, prices);
        if price > 0.0 {
          TrailBelow(r, price);
        }
      }
    } else {
      var price := o.entryPrice + o.lockThreshold;
      if o.lockThreshold > 0.0 {
        TrailBelow(o, price);
      }
      var none: seq<real> := [];
      assert Run(o, none) == o;
      assert Suppressed(Run(o, none), price);
    }
  }

  /** For one: an order with a stop of 0.70 above its entry of 0.50 locks at 0.66 and stays active there. */
  lemma LockingTickSuppresses()
    ensures var o := Created("s", "t", 0.5, DEFAULT_CONFIG, Some(0.7), None, None);
            Suppressed(o, 0.66) && Tick(o, 0.66).active && Tick(o, 0.66).currentStop == 0.7
  {
    assert 0.66 * (1.0 - 15.0 / 100.0) == 0.561;
  }

  /** An order created without settings of its own stops at three quarters of its entry, but not below 0.01, trails by
      15 percent and locks 0.15 above its entry; what the caller gives is taken. */
  lemma CreatedInNumbers(id: string, tokenId: string, entry: real, stop: Option<real>, trailing: Option<real>,
                         threshold: Option<real>)
    ensures var o := Created(id, tokenId, entry, DEFAULT_CONFIG, stop, trailing, threshold);
            && o.id == id && o.tokenId == tokenId && o.entryPrice == entry && o.lockEnabled && Fresh(o)
            && (stop.Some? ==> o.initialStop == stop.value)
            && (stop.None? ==> 100.0 * o.initialStop == Max(1.0, 75.0 * entry))
            && o.trailingPercent == (if trailing.Some? then trailing.value else 15.0)
            && o.lockThreshold == (if threshold.Some? then threshold.value else 0.15)
  {
    assert entry * (1.0 - 25.0 / 100.0) == 0.75 * entry;
  }

  /** An order that the round deactivates, as it is afterwards. */
  ghost predicate Returned(orders: seq<Order>, prices: map<string, real>, r: Order) {
    exists i: nat :: i < |orders| && orders[i].active && !FeedAll(orders, prices)[i].active
                     && r == FeedAll(orders, prices)[i]
  }

  lemma ReturnedNext(orders: seq<Order>, prices: map<string, real>, r: Order)
    requires orders != []
    ensures var n := |orders| - 1;
            Returned(orders, prices, r) <==>
              Returned(orders[..n], prices, r)
              || (orders[n].active && !Feed(orders[n], prices).active && r == Feed(orders[n], prices))
  {
    hide Feed;
    var n := |orders| - 1;
    if Returned(orders[..n], prices, r) {
      var i: nat :| i < n && orders[..n][i].active && !FeedAll(orders[..n], prices)[i].active
                    && r == FeedAll(orders[..n], prices)[i];
      assert orders[i].active && r == FeedAll(orders, prices)[i];
    }
    if Returned(orders, prices, r) {
      var i: nat :| i < |orders| && orders[i].active && !FeedAll(orders, prices)[i].active
                    && r == FeedAll(orders, prices)[i];
      assert i < n ==> orders[..n][i].active && r == FeedAll(orders[..n], prices)[i];
    }
    assert r == Feed(orders[n], prices) ==> r == FeedAll(orders, prices)[n];
  }

  /** The places of the orders that a round deactivates. */
  ghost function Deactivated(orders: seq<Order>, prices: map<string, real>, n: nat): set<nat>
    requires n <= |orders|
  {
    set i: nat | i < n && Fires(orders[i], prices)
  }

  ghost predicate Fires(o: Order, prices: map<string, real>) {
    o.active && !Feed(o, prices).active
  }

  lemma TriggeredNext(orders: seq<Order>, prices: map<string, real>)
    requires orders != []
    ensures var n := |orders| - 1;
            Triggered(orders, prices) == Triggered(orders[..n], prices) +
              if orders[n].active && !Feed(orders[n], prices).active then [Feed(orders[n], prices)] else []
  {
  }

  /** A round returns exactly the orders that it deactivates, as they are afterwards. */
  lemma {:induction false} TriggeredExactly(orders: seq<Order>, prices: map<string, real>, r: Order)
    ensures r in Triggered(orders, prices) <==> Returned(orders, prices, r)
  {
    if orders == [] {
      return;
    }
    TriggeredExactly(orders[..|orders| - 1], prices, r);
    TriggeredNext(orders, prices);
    ReturnedNext(orders, prices, r);
    hide Feed, Returned, Triggered;
  }

  /** Each once. */
  lemma {:induction false} TriggeredCount(orders: seq<Order>, prices: map<string, real>)
    ensures |Triggered(orders, prices)| == |Deactivated(orders, prices, |orders|)|
  {
    if orders == [] {
      return;
    }
    hide Feed, Triggered, Deactivated;
    TriggeredCount(orders[..|orders| - 1], prices);
    TriggeredNext(orders, prices);
    DeactivatedNext(orders, prices);
  }

  lemma DeactivatedNext(orders: seq<Order>, prices: map<string, real>)
    requires orders != []
    ensures var n := |orders| - 1;
            |Deactivated(orders, prices, |orders|)| == |Deactivated(orders[..n], prices, n)| +
              if Fires(orders[n], prices) then 1 else 0
  {
    hide Fires;
    var n := |orders| - 1;
    var before, after := Deactivated(orders[..n], prices, n), Deactivated(orders, prices, |orders|);
    assert n !in before;
    assert after == if Fires(orders[n], prices) then before + {n} else before;
  }

  /** Orders created with the defaults need no such care. */
  lemma DefaultsHarmless(id: string, tokenId: string, entry: real)
    requires entry >= 0.0
    ensures var o := Created(id, tokenId, entry, DEFAULT_CONFIG, None, None, None);
            Fresh(o) && Trailable(o) && LockAboveStops(o)
  {
    assert entry * (1.0 - 25.0 / 100.0) == 0.75 * entry;
  }

  // ---------------------------------------------------------------- firing

  /** The price at `j` stays above the form. */
  ghost predicate Above(o: Order, prices: seq<real>, j: nat)
    requires j < |prices|
  {
    prices[j] > Form(o, prices[..j + 1])
  }

  ghost predicate Unbreached(o: Order, prices: seq<real>, n: nat)
    requires n <= |prices|
  {
    forall j: nat :: j < n ==> Above(o, prices, j)
  }

  /** The first price at or below the form. */
  ghost predicate FirstBreach(o: Order, prices: seq<real>, k: nat) {
    k < |prices| && Unbreached(o, prices, k) && !Above(o, prices, k)
  }

  lemma AboveInPrefix(o: Order, prices: seq<real>, n: nat, j: nat)
    requires j < n <= |prices|
    ensures Above(o, prices[..n], j) <==> Above(o, prices, j)
  {
    assert prices[..n][..j + 1] == prices[..j + 1];
  }

  /** The order is active exactly while no price has reached the form; otherwise it fired at the first that did. */
  lemma {:induction false} FiresAtFirstBreach(o: Order, prices: seq<real>)
    requires Fresh(o) && Trailable(o)
    requires o.lockEnabled ==> o.entryPrice >= 0.0 && LockAboveStops(o)
    ensures var r := Run(o, prices);
            && (r.active <==> Unbreached(o, prices, |prices|))
            && (!r.active ==> exists k: nat :: FirstBreach(o, prices, k) && r.triggeredPrice == Some(prices[k]))
  {
    if prices != [] {
      var n := |prices| - 1;
      var init, price := prices[..n], prices[n];
      FiresAtFirstBreach(o, init);
      forall j: nat | j < n
        ensures Above(o, init, j) <==> Above(o, prices, j)
      {
        AboveInPrefix(o, prices, n, j);
      }
      var before := Run(o, init);
      if before.active {
        assert Unbreached(o, prices, n);
        TickFires(o, init, price);
        assert prices == init + [price] == prices[..n + 1];
        assert Tick(before, price).active <==> Above(o, prices, n);
        assert !Above(o, prices, n) ==> FirstBreach(o, prices, n);
      } else {
        var k: nat :| FirstBreach(o, init, k) && before.triggeredPrice == Some(init[k]);
        assert FirstBreach(o, prices, k);
      }
    }
  }

  lemma TickFires(o: Order, prices: seq<real>, price: real)
    requires Fresh(o) && Trailable(o) && Run(o, prices).active
    requires o.lockEnabled ==> o.entryPrice >= 0.0 && LockAboveStops(o)
    ensures Tick(Run(o, prices), price).active <==> price > Form(o, prices + [price])
    ensures price <= Form(o, prices + [price]) ==> Tick(Run(o, prices), price).triggeredPrice == Some(price)
  {
    var r := Run(o, prices);
    StopIsForm(o, prices);
    RaisedTracks(o, prices, r, price);
    if o.lockEnabled {
      ExemptionHarmlessExactly(o);
      assert !Suppressed(r, price);
    }
  }

  // ---------------------------------------------------------------- rounds of the manager

  function Seen(token: string, rounds: seq<map<string, real>>): seq<real> {
    if rounds == [] then []
    else
      var last := rounds[|rounds| - 1];
      Seen(token, rounds[..|rounds| - 1]) + if token in last then [last[token]] else []
  }

  function Rounds(orders: seq<Order>, rounds: seq<map<string, real>>): seq<Order> {
    if rounds == [] then orders else FeedAll(Rounds(orders, rounds[..|rounds| - 1]), rounds[|rounds| - 1])
  }

  /** Each order of the list lives through the prices of its own token alone. */
  lemma {:induction false} OrdersAreIndependent(orders: seq<Order>, rounds: seq<map<string, real>>, i: nat)
    requires i < |orders|
    ensures |Rounds(orders, rounds)| == |orders|
    ensures Rounds(orders, rounds)[i] == Run(orders[i], Seen(orders[i].tokenId, rounds))
    ensures Rounds(orders, rounds)[i].tokenId == orders[i].tokenId
  {
    if rounds != [] {
      var init, last := rounds[..|rounds| - 1], rounds[|rounds| - 1];
      OrdersAreIndependent(orders, init, i);
      var token := orders[i].tokenId;
      var seen := Seen(token, init);
      if token in last {
        assert (seen + [last[token]])[..|seen|] == seen;
      } else {
        assert Seen(token, rounds) == seen;
      }
    }
  }

  /** An order fires in at most one round. */
  lemma FiresOnce(orders: seq<Order>, rounds: seq<map<string, real>>, i: nat, j: nat, k: nat)
    requires i < |orders| && j < k <= |rounds|
    requires |Rounds(orders, rounds[..j])| == |orders| == |Rounds(orders, rounds[..k])|
    ensures !Rounds(orders, rounds[..j])[i].active ==> Rounds(orders, rounds[..k])[i] == Rounds(orders, rounds[..j])[i]
  {
    var token := orders[i].tokenId;
    OrdersAreIndependent(orders, rounds[..j], i);
    OrdersAreIndependent(orders, rounds[..k], i);
    SeenGrows(token, rounds, j, k);
    var more :| Seen(token, rounds[..k]) == Seen(token, rounds[..j]) + more;
    StopNeverFalls(orders[i], Seen(token, rounds[..j]), more);
  }

  lemma {:induction false} SeenGrows(token: string, rounds: seq<map<string, real>>, j: nat, k: nat)
    requires j <= k <= |rounds|
    ensures exists more :: Seen(token, rounds[..k]) == Seen(token, rounds[..j]) + more
  {
    if j == k {
      assert Seen(token, rounds[..k]) == Seen(token, rounds[..j]) + [];
    } else {
      SeenGrows(token, rounds, j, k - 1);
      var more :| Seen(token, rounds[..k - 1]) == Seen(token, rounds[..j]) + more;
      assert rounds[..k][..k - 1] == rounds[..k - 1];
      var last := rounds[k - 1];
      var extra := if token in last then [last[token]] else [];
      assert Seen(token, rounds[..k]) == Seen(token, rounds[..j]) + (more + extra);
    }
  }

  /** Cancelling ends an order for good: it never fires in a later round and keeps what it had; every other order lives
      on as if nothing had been cancelled. */
  lemma CancelledForGood(orders: seq<Order>, id: string, rounds: seq<map<string, real>>, prices: map<string, real>,
                         i: nat, j: nat)
    requires i < |orders| && orders[i].id == id && (forall k :: 0 <= k < i ==> orders[k].id != id)
    requires j < |orders| && j != i
    ensures var after := Rounds(Cancelled(orders, id), rounds);
            && |after| == |orders| == |Rounds(orders, rounds)|
            && after[i] == orders[i].(active := false, cancelled := true) && !Fires(after[i], prices)
            && after[j] == Rounds(orders, rounds)[j]
  {
    var left := Cancelled(orders, id);
    OrdersAreIndependent(left, rounds, i);
    OrdersAreIndependent(left, rounds, j);
    OrdersAreIndependent(orders, rounds, j);
    InactiveStays(left[i], Seen(orders[i].tokenId, rounds));
  }

  lemma {:induction false} InactiveStays(o: Order, prices: seq<real>)
    requires !o.active
    ensures Run(o, prices) == o
  {
    if prices != [] {
      InactiveStays(o, prices[..|prices| - 1]);
    }
  }
}
