/**
 * The executed-position records of src/storage.ts (lines 638-876).
 *
 * First what each operation does to the list of records, then a class that keeps
 * the list in a field. `addPendingPosition` and its fellows load the list, change
 * it and save it; loading and saving are taken to succeed.
 */
module PositionStore {
  import opened Lists
  import opened Options
  import opened Sides

  datatype Status = Executed | Pending

  datatype Record = Record(
    marketId: string,
    outcome: string,               // the field the source calls `side`
    timestamp: int,
    status: Option<Status>,
    orderId: Option<string>,
    tokenId: Option<string>,
    positionKey: Option<string>,
    baselineSize: Option<real>,
    missingChecks: Option<nat>,
    tradeSide: Option<Side>
  )

  /** The optional arguments of `addExecutedPosition`. */
  datatype Details = Details(orderId: Option<string>, tokenId: Option<string>, positionKey: Option<string>)

  function StatusOf(p: Record): Status {
    p.status.GetOr(Executed)
  }

  predicate Truthy(s: Option<string>) {
    s.Some? && s.value != ""
  }

  function Or<T>(a: Option<T>, b: Option<T>): Option<T> {
    if a.Some? then a else b
  }

  /** `matchesIdentity`, and the filter of `isPositionBlocked`. */
  predicate SameIdentity(p: Record, marketId: string, outcome: string, key: Option<string>) {
    if Truthy(key) then p.positionKey == key || (Truthy(p.tokenId) && key.value == "token:" + p.tokenId.value)
    else p.marketId == marketId && p.outcome == outcome
  }

  function Filter(xs: seq<Record>, f: Record -> bool): seq<Record> {
    if xs == [] then []
    else Filter(xs[..|xs| - 1], f) + (if f(xs[|xs| - 1]) then [xs[|xs| - 1]] else [])
  }

  function MatchWith(marketId: string, outcome: string, key: Option<string>, status: Status): Record -> bool {
    (p: Record) => SameIdentity(p, marketId, outcome, key) && StatusOf(p) == status
  }

  function CarriesOrder(orderId: string): Record -> bool {
    (p: Record) => p.orderId == Some(orderId)
  }

  function PendingOrder(orderId: string): Record -> bool {
    (p: Record) => p.orderId == Some(orderId) && StatusOf(p) == Pending
  }

  // ---------------------------------------------------------------- operations on the list

  function Refreshed(p: Record, d: Details, now: int): Record {
    p.(timestamp := now, orderId := Or(d.orderId, p.orderId), tokenId := Or(d.tokenId, p.tokenId),
       positionKey := Or(d.positionKey, p.positionKey))
  }

  function AddExecuted(xs: seq<Record>, marketId: string, outcome: string, d: Details, now: int): seq<Record> {
    var i := FindFirst(xs, MatchWith(marketId, outcome, d.positionKey, Pending));
    var j := FindFirst(xs, MatchWith(marketId, outcome, d.positionKey, Executed));
    if i < |xs| then xs[i := Refreshed(xs[i], d, now).(status := Some(Executed))]
    else if j < |xs| then xs[j := Refreshed(xs[j], d, now)]
    else xs + [Record(marketId, outcome, now, Some(Executed), d.orderId, d.tokenId, d.positionKey, None, None, None)]
  }

  function PendingRecord(marketId: string, outcome: string, orderId: string, tokenId: Option<string>,
                         baseline: Option<real>, tradeSide: Option<Side>, key: Option<string>, now: int): Record {
    Record(marketId, outcome, now, Some(Pending), Some(orderId), tokenId, key, baseline, Some(0), tradeSide)
  }

  function AddPending(xs: seq<Record>, orderId: string, p: Record): seq<Record> {
    var i := FindFirst(xs, CarriesOrder(orderId));
    if i < |xs| then xs[i := p] else xs + [p]
  }

  /** Takes any record with that order id, pending or not. */
  function MarkExecuted(xs: seq<Record>, orderId: string, now: int): seq<Record> {
    var i := FindFirst(xs, CarriesOrder(orderId));
    if i < |xs| then xs[i := xs[i].(status := Some(Executed), timestamp := now, missingChecks := Some(0))] else xs
  }

  function RemovePending(xs: seq<Record>, orderId: string): seq<Record> {
    Filter(xs, (p: Record) => !PendingOrder(orderId)(p))
  }

  function SetMissingChecks(xs: seq<Record>, orderId: string, f: nat -> nat): seq<Record> {
    var i := FindFirst(xs, PendingOrder(orderId));
    if i < |xs| then xs[i := xs[i].(missingChecks := Some(f(xs[i].missingChecks.GetOr(0))))] else xs
  }

  function IncrementMissing(xs: seq<Record>, orderId: string): seq<Record> {
    SetMissingChecks(xs, orderId, n => n + 1)
  }

  function ResetMissing(xs: seq<Record>, orderId: string): seq<Record> {
    SetMissingChecks(xs, orderId, n => 0)
  }

  const MS_PER_HOUR: real := 3600000.0

  function Cutoff(hours: real, now: int): real {
    now as real - hours * MS_PER_HOUR
  }

  /** The three tests of `isPositionBlocked`. */
  predicate IsBlocked(xs: seq<Record>, marketId: string, outcome: string, hours: real, key: Option<string>, now: int) {
    || (exists p :: p in xs && SameIdentity(p, marketId, outcome, key) && StatusOf(p) == Pending)
    || (exists p :: p in xs && SameIdentity(p, marketId, outcome, key) && StatusOf(p) == Executed
                    && (hours == 0.0 || p.timestamp as real > Cutoff(hours, now)))
  }

  function Cleanup(xs: seq<Record>, hours: real, now: int): seq<Record> {
    if hours == 0.0 then xs
    else Filter(xs, (p: Record) => StatusOf(p) == Pending || p.timestamp as real > Cutoff(hours, now))
  }

  // ---------------------------------------------------------------- the store

  class Store {
    var positions: seq<Record>

    constructor ()
      ensures positions == []
    {
      positions := [];
    }

    method Find(f: Record -> bool) returns (i: nat)
      ensures i == FindFirst(positions, f)
    {
      i := 0;
      while i < |positions| && !f(positions[i])
        invariant i <= |positions|
        invariant FindFirst(positions, f) == i + FindFirst(positions[i..], f)
      {
        i := i + 1;
      }
    }

    method AddExecutedPosition(marketId: string, outcome: string, d: Details, now: int)
      modifies this
      ensures positions == AddExecuted(old(positions), marketId, outcome, d, now)
    {
      var i := Find(MatchWith(marketId, outcome, d.positionKey, Pending));
      if i < |positions| {
        var pendingMatch := positions[i];
        pendingMatch := pendingMatch.(status := Some(Executed), timestamp := now);
        pendingMatch := pendingMatch.(orderId := Or(d.orderId, pendingMatch.orderId),
                                      tokenId := Or(d.tokenId, pendingMatch.tokenId),
                                      positionKey := Or(d.positionKey, pendingMatch.positionKey));
        positions := positions[i := pendingMatch];
        return;
      }
      var j := Find(MatchWith(marketId, outcome, d.positionKey, Executed));
      if j < |positions| {
        var existing := positions[j];
        existing := existing.(timestamp := now);
        existing := existing.(orderId := Or(d.orderId, existing.orderId),
                              tokenId := Or(d.tokenId, existing.tokenId),
                              positionKey := Or(d.positionKey, existing.positionKey));
        positions := positions[j := existing];
        return;
      }
      positions := positions + [Record(marketId, outcome, now, Some(Executed), d.orderId, d.tokenId, d.positionKey,
                                       None, None, None)];
    }

    method AddPendingPosition(marketId: string, outcome: string, orderId: string, tokenId: Option<string>,
                              baseline: Option<real>, tradeSide: Option<Side>, key: Option<string>, now: int)
      modifies this
      ensures positions == AddPending(old(positions), orderId,
                                      PendingRecord(marketId, outcome, orderId, tokenId, baseline, tradeSide, key, now))
    {
      var existingIndex := Find(CarriesOrder(orderId));
      var pendingRecord := PendingRecord(marketId, outcome, orderId, tokenId, baseline, tradeSide, key, now);
      if existingIndex < |positions| {
        positions := positions[existingIndex := pendingRecord];
      } else {
        positions := positions + [pendingRecord];
      }
    }

    method MarkPendingPositionExecuted(orderId: string, now: int) returns (found: bool)
      modifies this
      ensures positions == MarkExecuted(old(positions), orderId, now)
      ensures found <==> exists p :: p in old(positions) && p.orderId == Some(orderId)
    {
      var i := Find(CarriesOrder(orderId));
      if i == |positions| {
        assert forall p :: p in positions ==> !CarriesOrder(orderId)(p);
        return false;
      }
      positions := positions[i := positions[i].(status := Some(Executed), timestamp := now, missingChecks := Some(0))];
      found := true;
    }

    method RemovePendingPosition(orderId: string) returns (removed: bool)
      modifies this
      ensures positions == RemovePending(old(positions), orderId)
      ensures removed <==> |positions| != |old(positions)|
    {
      var nextPositions := RemovePending(positions, orderId);
      FilterLength(positions, (p: Record) => !PendingOrder(orderId)(p));
      if |nextPositions| == |positions| {
        return false;
      }
      positions := nextPositions;
      removed := true;
    }

    method IncrementPendingPositionMissingOrderChecks(orderId: string) returns (checks: Option<nat>)
      modifies this
      ensures positions == IncrementMissing(old(positions), orderId)
      ensures checks == ChecksAfterIncrement(old(positions), orderId)
    {
      var i := Find(PendingOrder(orderId));
      if i == |positions| {
        return None;
      }
      checks := Some(positions[i].missingChecks.GetOr(0) + 1);
      positions := positions[i := positions[i].(missingChecks := checks)];
    }

    method ResetPendingPositionMissingOrderChecks(orderId: string)
      modifies this
      ensures positions == ResetMissing(old(positions), orderId)
    {
      var i := Find(PendingOrder(orderId));
      if i == |positions| {
        return;
      }
      positions := positions[i := positions[i].(missingChecks := Some(0))];
    }

    method CleanupExpiredPositions(hours: real, now: int) returns (removedCount: nat)
      modifies this
      ensures positions == Cleanup(old(positions), hours, now)
      ensures removedCount == |old(positions)| - |positions|
    {
      if hours == 0.0 {
        return 0;
      }
      var validPositions := Cleanup(positions, hours, now);
      FilterLength(positions, (p: Record) => StatusOf(p) == Pending || p.timestamp as real > Cutoff(hours, now));
      removedCount := |positions| - |validPositions|;
      if removedCount > 0 {
        positions := validPositions;
      }
    }
  }

  /** What `incrementPendingPositionMissingOrderChecks` answers. */
  function ChecksAfterIncrement(xs: seq<Record>, orderId: string): Option<nat> {
    var i := FindFirst(xs, PendingOrder(orderId));
    if i < |xs| then Some(xs[i].missingChecks.GetOr(0) + 1) else None
  }

  lemma {:induction false} FilterLength(xs: seq<Record>, f: Record -> bool)
    ensures |Filter(xs, f)| <= |xs|
    ensures |Filter(xs, f)| == |xs| ==> Filter(xs, f) == xs
  {
    if xs != [] {
      FilterLength(xs[..|xs| - 1], f);
      assert xs == xs[..|xs| - 1] + [xs[|xs| - 1]];
    }
  }

  // ---------------------------------------------------------------- what the check answers

  /** A list blocks what one of its records blocks. */
  lemma BlockedBySome(xs: seq<Record>, marketId: string, outcome: string, hours: real, key: Option<string>, now: int)
    ensures IsBlocked(xs, marketId, outcome, hours, key, now)
            <==> exists p :: p in xs && IsBlocked([p], marketId, outcome, hours, key, now)
  {
    forall p | p in xs
      ensures IsBlocked([p], marketId, outcome, hours, key, now)
              <==> SameIdentity(p, marketId, outcome, key)
                   && (StatusOf(p) == Pending || hours == 0.0 || p.timestamp as real > Cutoff(hours, now))
    {
      assert p in [p];
    }
  }

  /** One record blocks in numbers: under its own key, the key of its token, or, when no key is asked for, its market
      and outcome; while it is pending, or for the given hours after its time, or for ever if they are 0. A record
      without a status is executed. */
  lemma BlockedByOne(p: Record, marketId: string, outcome: string, hours: real, key: Option<string>, now: int)
    ensures IsBlocked([p], marketId, outcome, hours, key, now)
            <==> (match key
                  case Some(k) =>
                    if k == "" then p.marketId == marketId && p.outcome == outcome
                    else p.positionKey == Some(k) || (p.tokenId.Some? && p.tokenId.value != ""
                                                      && k == "token:" + p.tokenId.value)
                  case None => p.marketId == marketId && p.outcome == outcome)
                 && (p.status == Some(Pending) || hours == 0.0
                     || (now - p.timestamp) as real < hours * 3600000.0)
  {
    assert p in [p];
  }

  /** A recorded fill blocks its key and its token at once, whatever was on the list. */
  lemma RecordedFillBlocks(xs: seq<Record>, marketId: string, outcome: string, d: Details, now: int,
                           hours: real, later: int)
    requires hours == 0.0 || (later - now) as real < hours * 3600000.0
    ensures IsBlocked(AddExecuted(xs, marketId, outcome, d, now), marketId, outcome, hours, d.positionKey, later)
    ensures Truthy(d.tokenId) ==>
              IsBlocked(AddExecuted(xs, marketId, outcome, d, now), marketId, outcome, hours,
                        Some("token:" + d.tokenId.value), later)
  {
    var ys := AddExecuted(xs, marketId, outcome, d, now);
    var i := FindFirst(xs, MatchWith(marketId, outcome, d.positionKey, Pending));
    var j := FindFirst(xs, MatchWith(marketId, outcome, d.positionKey, Executed));
    assert i < |xs| ==> MatchWith(marketId, outcome, d.positionKey, Pending)(xs[i]);
    assert j < |xs| ==> MatchWith(marketId, outcome, d.positionKey, Executed)(xs[j]);
    var at := if i < |xs| then i else if j < |xs| then j else |xs|;
    assert ys[at] in ys;
    BlockedBySome(ys, marketId, outcome, hours, d.positionKey, later);
    BlockedByOne(ys[at], marketId, outcome, hours, d.positionKey, later);
    if Truthy(d.tokenId) {
      var token := Some("token:" + d.tokenId.value);
      BlockedBySome(ys, marketId, outcome, hours, token, later);
      BlockedByOne(ys[at], marketId, outcome, hours, token, later);
    }
    hide IsBlocked, AddExecuted, MatchWith;
  }

  /** A promotion touches the first record of the order alone: it is executed now, with no absences counted. */
  lemma PromotedExactly(xs: seq<Record>, order: string, now: int, i: nat)
    requires i < |xs|
    ensures |MarkExecuted(xs, order, now)| == |xs|
    ensures MarkExecuted(xs, order, now)[i] ==
            if xs[i].orderId == Some(order) && forall j :: 0 <= j < i ==> xs[j].orderId != Some(order)
            then Record(xs[i].marketId, xs[i].outcome, now, Some(Executed), xs[i].orderId, xs[i].tokenId,
                        xs[i].positionKey, xs[i].baselineSize, Some(0), xs[i].tradeSide)
            else xs[i]
  {
    var first := FindFirst(xs, CarriesOrder(order));
    assert forall j :: 0 <= j < |xs| ==> (CarriesOrder(order)(xs[j]) <==> xs[j].orderId == Some(order));
  }

  /** A recorded order blocks them too, at any later time. */
  lemma RecordedOrderBlocks(xs: seq<Record>, order: string, p: Record, hours: real, later: int)
    requires p.status == Some(Pending)
    ensures IsBlocked(AddPending(xs, order, p), p.marketId, p.outcome, hours, p.positionKey, later)
    ensures Truthy(p.tokenId) ==>
              IsBlocked(AddPending(xs, order, p), p.marketId, p.outcome, hours, Some("token:" + p.tokenId.value), later)
  {
    var ys := AddPending(xs, order, p);
    assert p in ys by {
      var i := FindFirst(xs, CarriesOrder(order));
      assert ys[i] == p;
    }
    BlockedBySome(ys, p.marketId, p.outcome, hours, p.positionKey, later);
    BlockedByOne(p, p.marketId, p.outcome, hours, p.positionKey, later);
    if Truthy(p.tokenId) {
      BlockedBySome(ys, p.marketId, p.outcome, hours, Some("token:" + p.tokenId.value), later);
      BlockedByOne(p, p.marketId, p.outcome, hours, Some("token:" + p.tokenId.value), later);
    }
    hide IsBlocked, AddPending;
  }
}
