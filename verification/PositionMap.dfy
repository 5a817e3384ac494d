/**
 * The record list of `PositionStore` refines a map from execution keys to the
 * orders pending for a key and the time of its latest fill.
 */
module PositionMap {
  import opened Lists
  import opened Options
  import opened Sides
  import opened TradeIdentity
  import opened PositionStore

  // ---------------------------------------------------------------- the map

  datatype Entry = Entry(pending: seq<string>, last: Option<int>)

  const EMPTY := Entry([], None)

  datatype Op =
    | OpExecuted(marketId: string, outcome: string, key: string, orderId: Option<string>, tokenId: Option<string>,
                 now: int)
    | OpPending(marketId: string, outcome: string, key: string, order: string, tokenId: Option<string>,
                baseline: Option<real>, tradeSide: Option<Side>, now: int)
    | OpPromote(order: string, now: int)
    | OpRemove(order: string)
    | OpIncrement(order: string)
    | OpReset(order: string)
    | OpCleanup(hours: real, now: int)

  function Without(ids: seq<string>, id: string): seq<string> {
    if ids == [] then []
    else Without(ids[..|ids| - 1], id) + (if ids[|ids| - 1] == id then [] else [ids[|ids| - 1]])
  }

  /** What an operation does to the entry of `key`. */
  function MapStep(e: Entry, key: string, op: Op): Entry {
    match op
    case OpExecuted(_, _, k, _, _, now) =>
      if k == key then Entry(if e.pending == [] then [] else e.pending[1..], Some(now)) else e
    case OpPending(_, _, k, order, _, _, _, _) =>
      if k == key then e.(pending := e.pending + [order]) else e
    case OpPromote(order, now) =>
      if order in e.pending then Entry(Without(e.pending, order), Some(now)) else e
    case OpRemove(order) => e.(pending := Without(e.pending, order))
    case OpIncrement(_) => e
    case OpReset(_) => e
    case OpCleanup(hours, now) =>
      if hours != 0.0 && e.last.Some? && e.last.value as real <= Cutoff(hours, now) then e.(last := None) else e
  }

  function MapAfter(ops: seq<Op>, key: string): Entry {
    if ops == [] then EMPTY else MapStep(MapAfter(ops[..|ops| - 1], key), key, ops[|ops| - 1])
  }

  /** The block rule, on the map. */
  predicate EntryBlocks(e: Entry, hours: real, now: int) {
    e.pending != [] || (e.last.Some? && (hours == 0.0 || e.last.value as real > Cutoff(hours, now)))
  }

  // ---------------------------------------------------------------- the list

  function ListStep(xs: seq<Record>, op: Op): seq<Record> {
    match op
    case OpExecuted(m, o, k, id, token, now) => AddExecuted(xs, m, o, Details(id, token, Some(k)), now)
    case OpPending(m, o, k, id, token, baseline, tradeSide, now) =>
      AddPending(xs, id, PendingRecord(m, o, id, token, baseline, tradeSide, Some(k), now))
    case OpPromote(id, now) => MarkExecuted(xs, id, now)
    case OpRemove(id) => RemovePending(xs, id)
    case OpIncrement(id) => IncrementMissing(xs, id)
    case OpReset(id) => ResetMissing(xs, id)
    case OpCleanup(hours, now) => Cleanup(xs, hours, now)
  }

  function ListAfter(ops: seq<Op>): seq<Record> {
    if ops == [] then [] else ListStep(ListAfter(ops[..|ops| - 1]), ops[|ops| - 1])
  }

  // ---------------------------------------------------------------- which sequences are meant

  function TimeOf(op: Op): Option<int> {
    match op
    case OpExecuted(_, _, _, _, _, now) => Some(now)
    case OpPending(_, _, _, _, _, _, _, now) => Some(now)
    case OpPromote(_, now) => Some(now)
    case OpCleanup(_, now) => Some(now)
    case _ => None
  }

  /** Order ids an operation has named as new or filled. */
  function UsedBy(op: Op): set<string> {
    match op
    case OpExecuted(_, _, _, Some(id), _, _) => {id}
    case OpPending(_, _, _, id, _, _, _, _) => {id}
    case OpPromote(id, _) => {id}
    case _ => {}
  }

  function Used(ops: seq<Op>): set<string> {
    if ops == [] then {} else Used(ops[..|ops| - 1]) + UsedBy(ops[|ops| - 1])
  }

  /** Order ids whose record an operation turns into an executed one; `e` is the entry of its key. */
  function FilledBy(op: Op, e: Entry): set<string> {
    match op
    case OpExecuted(_, _, _, Some(id), _, _) => {id}
    case OpExecuted(_, _, _, None, _, _) => if e.pending == [] then {} else {e.pending[0]}
    case OpPromote(id, _) => {id}
    case _ => {}
  }

  function KeyOf(op: Op): string {
    match op
    case OpExecuted(_, _, key, _, _, _) => key
    case OpPending(_, _, key, _, _, _, _, _) => key
    case _ => ""
  }

  /** Order ids under which a record may already be executed. */
  function Filled(ops: seq<Op>): set<string> {
    if ops == [] then {}
    else
      var before, op := ops[..|ops| - 1], ops[|ops| - 1];
      Filled(before) + FilledBy(op, MapAfter(before, KeyOf(op)))
  }

  /** No operation happened after `now`. */
  ghost predicate NotBefore(ops: seq<Op>, now: int) {
    forall i :: 0 <= i < |ops| && TimeOf(ops[i]).Some? ==> TimeOf(ops[i]).value <= now
  }

  /** An operation that may follow `ops`: keys are execution keys, tokens are plain, new order ids
      are fresh, an order is filled only once, and the clock does not run backwards. */
  ghost predicate MayFollow(ops: seq<Op>, op: Op) {
    && (TimeOf(op).Some? ==> NotBefore(ops, TimeOf(op).value))
    && match op
       case OpExecuted(_, _, key, id, token, _) =>
         IsExecutionKey(key) && PlainToken(token.GetOr("")) && (id.Some? ==> id.value !in Used(ops))
       case OpPending(_, _, key, id, token, _, _, _) =>
         IsExecutionKey(key) && PlainToken(token.GetOr("")) && id !in Used(ops)
       case OpPromote(id, _) => id !in Filled(ops)
       case _ => true
  }

  ghost predicate Lawful(ops: seq<Op>) {
    forall i :: 0 <= i < |ops| ==> MayFollow(ops[..i], ops[i])
  }

  // ---------------------------------------------------------------- abstraction

  predicate OfKey(p: Record, key: string) {
    p.positionKey == Some(key)
  }

  function PendingIds(xs: seq<Record>, key: string): seq<string> {
    if xs == [] then []
    else
      var p := xs[|xs| - 1];
      PendingIds(xs[..|xs| - 1], key) +
      (if OfKey(p, key) && StatusOf(p) == Pending then [p.orderId.GetOr("")] else [])
  }

  function Later(a: Option<int>, b: Option<int>): Option<int> {
    if a.None? then b else if b.None? || b.value < a.value then a else b
  }

  function LastFill(xs: seq<Record>, key: string): Option<int> {
    if xs == [] then None
    else
      var p := xs[|xs| - 1];
      Later(LastFill(xs[..|xs| - 1], key), if OfKey(p, key) && StatusOf(p) == Executed then Some(p.timestamp) else None)
  }

  function Abstract(xs: seq<Record>, key: string): Entry {
    Entry(PendingIds(xs, key), LastFill(xs, key))
  }

  lemma {:induction false} AbstractAppend(xs: seq<Record>, ys: seq<Record>, key: string)
    ensures PendingIds(xs + ys, key) == PendingIds(xs, key) + PendingIds(ys, key)
    ensures LastFill(xs + ys, key) == Later(LastFill(xs, key), LastFill(ys, key))
  {
    hide OfKey, StatusOf;
    if ys == [] {
      assert xs + ys == xs;
    } else {
      AbstractAppend(xs, ys[..|ys| - 1], key);
      assert (xs + ys)[..|xs + ys| - 1] == xs + ys[..|ys| - 1];
    }
  }

  /** A list around its i-th record. */
  lemma AbstractAround(xs: seq<Record>, i: nat, p: Record, key: string)
    requires i < |xs|
    ensures PendingIds(xs[i := p], key)
            == PendingIds(xs[..i], key) + PendingIds([p], key) + PendingIds(xs[i + 1..], key)
    ensures LastFill(xs[i := p], key) ==
            Later(Later(LastFill(xs[..i], key), LastFill([p], key)), LastFill(xs[i + 1..], key))
  {
    assert xs[i := p] == xs[..i] + [p] + xs[i + 1..];
    AbstractAppend(xs[..i] + [p], xs[i + 1..], key);
    AbstractAppend(xs[..i], [p], key);
  }

  lemma One(p: Record, key: string)
    ensures PendingIds([p], key) == if OfKey(p, key) && StatusOf(p) == Pending then [p.orderId.GetOr("")] else []
    ensures LastFill([p], key) == if OfKey(p, key) && StatusOf(p) == Executed then Some(p.timestamp) else None
  {
    assert [p][..0] == [];
  }

  // ---------------------------------------------------------------- the list invariant

  ghost predicate RecordOk(p: Record, used: set<string>, filled: set<string>) {
    && p.positionKey.Some? && IsExecutionKey(p.positionKey.value)
    && PlainToken(p.tokenId.GetOr(""))
    && (p.orderId.Some? ==> p.orderId.value in used)
    && (StatusOf(p) == Executed && p.orderId.Some? ==> p.orderId.value in filled)
    && (StatusOf(p) == Pending ==> p.orderId.Some? && p.orderId.value !in filled)
  }

  ghost predicate ListOk(xs: seq<Record>, used: set<string>, filled: set<string>) {
    && filled <= used
    && (forall p :: p in xs ==> RecordOk(p, used, filled))
    && (forall i, j :: 0 <= i < j < |xs| && StatusOf(xs[i]) == Pending && StatusOf(xs[j]) == Pending ==>
          xs[i].orderId != xs[j].orderId)
  }

  ghost predicate NoLaterThan(xs: seq<Record>, now: int) {
    forall p :: p in xs ==> p.timestamp <= now
  }

  lemma ExecutionKeyTruthy(key: string)
    requires IsExecutionKey(key)
    ensures Truthy(Some(key))
  {
  }

  /** For execution keys identity is equality of keys. */
  lemma IdentityIsKey(p: Record, used: set<string>, filled: set<string>, marketId: string, outcome: string, key: string)
    requires RecordOk(p, used, filled) && IsExecutionKey(key)
    ensures SameIdentity(p, marketId, outcome, Some(key)) <==> OfKey(p, key)
  {
    ExecutionKeyTruthy(key);
    if Truthy(p.tokenId) {
      ExecutionKeyIsNoTokenKey(key, p.tokenId.value);
    }
  }

  lemma {:induction xs} LastFillBound(xs: seq<Record>, key: string, now: int)
    requires NoLaterThan(xs, now)
    ensures LastFill(xs, key).Some? ==> LastFill(xs, key).value <= now
  {
    if xs != [] {
      assert xs[|xs| - 1] in xs && forall p :: p in xs[..|xs| - 1] ==> p in xs;
    }
  }

  lemma SubBounds(xs: seq<Record>, i: nat, key: string, now: int)
    requires i < |xs| && NoLaterThan(xs, now)
    ensures LastFill(xs[..i], key).Some? ==> LastFill(xs[..i], key).value <= now
    ensures LastFill(xs[i + 1..], key).Some? ==> LastFill(xs[i + 1..], key).value <= now
  {
    LastFillBound(xs[..i], key, now);
    LastFillBound(xs[i + 1..], key, now);
  }

  /** Replacing one record by an executed one stamped `now`. */
  lemma FillAt(xs: seq<Record>, i: nat, p: Record, k: string, now: int, key: string)
    requires i < |xs| && NoLaterThan(xs, now)
    requires OfKey(xs[i], k) && OfKey(p, k) && StatusOf(p) == Executed && p.timestamp == now
    ensures LastFill(xs[i := p], key) == if key == k then Some(now) else LastFill(xs, key)
    ensures PendingIds(xs[i := p], key) == PendingIds(xs[..i], key) + PendingIds(xs[i + 1..], key)
  {
    One(p, key);
    AbstractAround(xs, i, p, key);
    SubBounds(xs, i, key, now);
    if key != k {
      One(xs[i], key);
      AbstractAround(xs, i, xs[i], key);
      assert xs[i := xs[i]] == xs;
    }
  }

  lemma PendingAround(xs: seq<Record>, i: nat, key: string)
    requires i < |xs|
    ensures PendingIds(xs, key) ==
            PendingIds(xs[..i], key) +
            (if OfKey(xs[i], key) && StatusOf(xs[i]) == Pending then [xs[i].orderId.GetOr("")] else []) +
            PendingIds(xs[i + 1..], key)
  {
    One(xs[i], key);
    AbstractAround(xs, i, xs[i], key);
    assert xs[i := xs[i]] == xs;
  }

  lemma {:induction xs} NoPending(xs: seq<Record>, key: string)
    requires forall p :: p in xs ==> !(OfKey(p, key) && StatusOf(p) == Pending)
    ensures PendingIds(xs, key) == []
  {
    if xs != [] {
      assert xs[|xs| - 1] in xs && forall p :: p in xs[..|xs| - 1] ==> p in xs;
    }
  }

  lemma {:induction false} WithoutAppend(xs: seq<string>, ys: seq<string>, id: string)
    ensures Without(xs + ys, id) == Without(xs, id) + Without(ys, id)
  {
    if ys == [] {
      assert xs + ys == xs;
    } else {
      WithoutAppend(xs, ys[..|ys| - 1], id);
      assert (xs + ys)[..|xs + ys| - 1] == xs + ys[..|ys| - 1];
    }
  }

  lemma {:induction false} WithoutAbsent(ids: seq<string>, id: string)
    requires id !in ids
    ensures Without(ids, id) == ids
  {
    if ids != [] {
      WithoutAbsent(ids[..|ids| - 1], id);
      assert ids == ids[..|ids| - 1] + [ids[|ids| - 1]];
    }
  }

  /** An id carried by no pending record is pending nowhere. */
  lemma {:induction xs} NotPending(xs: seq<Record>, id: string, key: string)
    requires forall p :: p in xs && StatusOf(p) == Pending ==> p.orderId.Some? && p.orderId.value != id
    ensures id !in PendingIds(xs, key)
  {
    if xs != [] {
      assert xs[|xs| - 1] in xs && forall p :: p in xs[..|xs| - 1] ==> p in xs;
    }
  }

  // ---------------------------------------------------------------- one operation

  ghost predicate Refines(xs: seq<Record>, xs': seq<Record>, op: Op) {
    forall key :: Abstract(xs', key) == MapStep(Abstract(xs, key), key, op)
  }

  /** Among well-formed records the two searches of `addExecutedPosition` go by key. */
  lemma SearchesByKey(xs: seq<Record>, used: set<string>, filled: set<string>, op: Op, status: Status)
    requires op.OpExecuted? && ListOk(xs, used, filled) && IsExecutionKey(op.key)
    ensures var f := MatchWith(op.marketId, op.outcome, Some(op.key), status);
            forall p :: p in xs ==> f(p) == (OfKey(p, op.key) && StatusOf(p) == status)
  {
    forall p | p in xs
      ensures MatchWith(op.marketId, op.outcome, Some(op.key), status)(p) == (OfKey(p, op.key) && StatusOf(p) == status)
    {
      IdentityIsKey(p, used, filled, op.marketId, op.outcome, op.key);
    }
  }

  lemma FillPendingAt(xs: seq<Record>, i: nat, p: Record, k: string, now: int, key: string)
    requires i < |xs| && NoLaterThan(xs, now)
    requires OfKey(xs[i], k) && StatusOf(xs[i]) == Pending
    requires forall m :: 0 <= m < i ==> !(OfKey(xs[m], k) && StatusOf(xs[m]) == Pending)
    requires OfKey(p, k) && StatusOf(p) == Executed && p.timestamp == now
    ensures PendingIds(xs, k) != []
    ensures Abstract(xs[i := p], key) ==
            if key == k then Entry(PendingIds(xs, k)[1..], Some(now)) else Abstract(xs, key)
  {
    FillAt(xs, i, p, k, now, key);
    PendingAround(xs, i, key);
    PendingAround(xs, i, k);
    NoPending(xs[..i], k);
  }

  lemma RefreshAt(xs: seq<Record>, j: nat, p: Record, k: string, now: int, key: string)
    requires j < |xs| && NoLaterThan(xs, now)
    requires OfKey(xs[j], k) && StatusOf(xs[j]) == Executed
    requires OfKey(p, k) && StatusOf(p) == Executed && p.timestamp == now
    ensures Abstract(xs[j := p], key) == if key == k then Entry(PendingIds(xs, k), Some(now)) else Abstract(xs, key)
  {
    FillAt(xs, j, p, k, now, key);
    PendingAround(xs, j, key);
    assert PendingIds(xs[..j], key) + [] == PendingIds(xs[..j], key);
  }

  lemma AppendOne(xs: seq<Record>, p: Record, key: string)
    ensures PendingIds(xs + [p], key) ==
            if OfKey(p, key) && StatusOf(p) == Pending then PendingIds(xs, key) + [p.orderId.GetOr("")]
            else PendingIds(xs, key)
    ensures LastFill(xs + [p], key) ==
            if OfKey(p, key) && StatusOf(p) == Executed then Later(LastFill(xs, key), Some(p.timestamp))
            else LastFill(xs, key)
  {
  }

  lemma ExecutedRefines(xs: seq<Record>, used: set<string>, filled: set<string>, op: Op)
    requires op.OpExecuted? && ListOk(xs, used, filled) && NoLaterThan(xs, op.now)
    requires IsExecutionKey(op.key)
    ensures Refines(xs, ListStep(xs, op), op)
  {
    var d := Details(op.orderId, op.tokenId, Some(op.key));
    var i := FindFirst(xs, MatchWith(op.marketId, op.outcome, d.positionKey, Pending));
    var j := FindFirst(xs, MatchWith(op.marketId, op.outcome, d.positionKey, Executed));
    SearchesByKey(xs, used, filled, op, Pending);
    SearchesByKey(xs, used, filled, op, Executed);
    forall key
      ensures Abstract(ListStep(xs, op), key) == MapStep(Abstract(xs, key), key, op)
    {
      if i < |xs| {
        FillPendingAt(xs, i, Refreshed(xs[i], d, op.now).(status := Some(Executed)), op.key, op.now, key);
      } else {
        NoPending(xs, op.key);
        if j < |xs| {
          RefreshAt(xs, j, Refreshed(xs[j], d, op.now), op.key, op.now, key);
        } else {
          var p := Record(op.marketId, op.outcome, op.now, Some(Executed),
                          d.orderId, d.tokenId, d.positionKey, None, None, None);
          AppendOne(xs, p, key);
          LastFillBound(xs, key, op.now);
        }
      }
    }
  }

  lemma PendingRefines(xs: seq<Record>, used: set<string>, filled: set<string>, op: Op)
    requires op.OpPending? && ListOk(xs, used, filled) && op.order !in used
    ensures Refines(xs, ListStep(xs, op), op)
  {
    var p := PendingRecord(op.marketId, op.outcome, op.order, op.tokenId, op.baseline, op.tradeSide, Some(op.key),
                           op.now);
    FreshOrder(xs, used, filled, op.order);
    forall key
      ensures Abstract(ListStep(xs, op), key) == MapStep(Abstract(xs, key), key, op)
    {
      AppendOne(xs, p, key);
    }
  }

  lemma FreshOrder(xs: seq<Record>, used: set<string>, filled: set<string>, id: string)
    requires ListOk(xs, used, filled) && id !in used
    ensures FindFirst(xs, CarriesOrder(id)) == |xs|
  {
    forall p | p in xs ensures !CarriesOrder(id)(p) {
      assert RecordOk(p, used, filled);
    }
  }

  /** A pending order is one record's, so dropping its id drops that record's entry. */
  lemma WithoutAt(xs: seq<Record>, used: set<string>, filled: set<string>, i: nat, key: string)
    requires ListOk(xs, used, filled) && i < |xs| && StatusOf(xs[i]) == Pending
    ensures xs[i].orderId.Some?
    ensures OfKey(xs[i], key) ==>
              && xs[i].orderId.value in PendingIds(xs, key)
              && Without(PendingIds(xs, key), xs[i].orderId.value)
                 == PendingIds(xs[..i], key) + PendingIds(xs[i + 1..], key)
    ensures !OfKey(xs[i], key) ==> xs[i].orderId.value !in PendingIds(xs, key)
  {
    assert RecordOk(xs[i], used, filled);
    var id := xs[i].orderId.value;
    PendingAround(xs, i, key);
    OtherPending(xs, used, filled, i);
    NotPending(xs[..i], id, key);
    NotPending(xs[i + 1..], id, key);
    if OfKey(xs[i], key) {
      WithoutMiddle(PendingIds(xs[..i], key), id, PendingIds(xs[i + 1..], key));
    }
  }

  lemma WithoutSnoc(ids: seq<string>, x: string, id: string)
    ensures Without(ids + [x], id) == if x == id then Without(ids, id) else Without(ids, id) + [x]
  {
    assert (ids + [x])[..|ids|] == ids;
  }

  lemma WithoutMiddle(xs: seq<string>, id: string, ys: seq<string>)
    requires id !in xs && id !in ys
    ensures Without(xs + [id] + ys, id) == xs + ys
  {
    assert Without(xs + [id], id) == xs by {
      WithoutSnoc(xs, id, id);
      WithoutAbsent(xs, id);
    }
    assert Without(ys, id) == ys by {
      WithoutAbsent(ys, id);
    }
    WithoutAppend(xs + [id], ys, id);
  }

  lemma OtherPending(xs: seq<Record>, used: set<string>, filled: set<string>, i: nat)
    requires ListOk(xs, used, filled) && i < |xs| && StatusOf(xs[i]) == Pending && xs[i].orderId.Some?
    ensures forall p :: (p in xs[..i] || p in xs[i + 1..]) && StatusOf(p) == Pending ==>
              p.orderId.Some? && p.orderId != xs[i].orderId
  {
    forall p | (p in xs[..i] || p in xs[i + 1..]) && StatusOf(p) == Pending
      ensures p.orderId.Some? && p.orderId != xs[i].orderId
    {
      var m :| 0 <= m < |xs| && m != i && xs[m] == p;
      assert RecordOk(xs[m], used, filled);
    }
  }

  lemma PromoteAt(xs: seq<Record>, used: set<string>, filled: set<string>, i: nat, p: Record, now: int, key: string)
    requires ListOk(xs, used, filled) && NoLaterThan(xs, now) && i < |xs| && StatusOf(xs[i]) == Pending
    requires p.positionKey == xs[i].positionKey && StatusOf(p) == Executed && p.timestamp == now
    ensures xs[i].orderId.Some?
    ensures Abstract(xs[i := p], key) ==
            var e, id := Abstract(xs, key), xs[i].orderId.value;
            if id in e.pending then Entry(Without(e.pending, id), Some(now)) else e
  {
    assert RecordOk(xs[i], used, filled);
    FillAt(xs, i, p, xs[i].positionKey.value, now, key);
    WithoutAt(xs, used, filled, i, key);
    PendingAround(xs, i, key);
    assert PendingIds(xs[..i], key) + [] == PendingIds(xs[..i], key);
  }

  lemma PromoteRefines(xs: seq<Record>, used: set<string>, filled: set<string>, op: Op)
    requires op.OpPromote? && ListOk(xs, used, filled) && NoLaterThan(xs, op.now) && op.order !in filled
    ensures Refines(xs, ListStep(xs, op), op)
  {
    var i := FindFirst(xs, CarriesOrder(op.order));
    if i < |xs| {
      assert RecordOk(xs[i], used, filled);
      forall key ensures Abstract(ListStep(xs, op), key) == MapStep(Abstract(xs, key), key, op) {
        PromoteAt(xs, used, filled, i, ListStep(xs, op)[i], op.now, key);
      }
    } else {
      forall p | p in xs && StatusOf(p) == Pending ensures p.orderId.Some? && p.orderId.value != op.order {
        assert RecordOk(p, used, filled) && !CarriesOrder(op.order)(p);
      }
      forall key ensures Abstract(ListStep(xs, op), key) == MapStep(Abstract(xs, key), key, op) {
        NotPending(xs, op.order, key);
      }
    }
  }

  lemma RemoveSnoc(init: seq<Record>, p: Record, id: string)
    ensures RemovePending(init + [p], id) == RemovePending(init, id) + if PendingOrder(id)(p) then [] else [p]
  {
    assert (init + [p])[..|init|] == init;
  }

  lemma {:induction false} RemoveRefinesAt(xs: seq<Record>, id: string, key: string)
    requires forall p :: p in xs && StatusOf(p) == Pending ==> p.orderId.Some?
    ensures PendingIds(RemovePending(xs, id), key) == Without(PendingIds(xs, key), id)
    ensures LastFill(RemovePending(xs, id), key) == LastFill(xs, key)
  {
    if xs == [] {
      return;
    }
    hide PendingIds, LastFill, RemovePending, Without, OfKey;
    var init, p := xs[..|xs| - 1], xs[|xs| - 1];
    RemoveRefinesAt(init, id, key);
    assert xs == init + [p];
    AppendOne(init, p, key);
    WithoutSnoc(PendingIds(init, key), p.orderId.GetOr(""), id);
    RemoveSnoc(init, p, id);
    if !PendingOrder(id)(p) {
      AppendOne(RemovePending(init, id), p, key);
    } else {
      assert RemovePending(init, id) + [] == RemovePending(init, id);
    }
  }

  function CutOff(last: Option<int>, hours: real, now: int): Option<int> {
    if last.Some? && last.value as real <= Cutoff(hours, now) then None else last
  }

  lemma CutOffLater(a: Option<int>, t: int, hours: real, now: int)
    ensures CutOff(Later(a, Some(t)), hours, now) ==
            if t as real > Cutoff(hours, now) then Later(CutOff(a, hours, now), Some(t)) else CutOff(a, hours, now)
  {
  }

  lemma {:induction false} CleanupRefinesAt(xs: seq<Record>, hours: real, now: int, key: string)
    requires hours != 0.0
    ensures PendingIds(Cleanup(xs, hours, now), key) == PendingIds(xs, key)
    ensures LastFill(Cleanup(xs, hours, now), key) == CutOff(LastFill(xs, key), hours, now)
  {
    if xs != [] {
      var init, p := xs[..|xs| - 1], xs[|xs| - 1];
      CleanupRefinesAt(init, hours, now, key);
      assert xs == init + [p];
      AppendOne(init, p, key);
      CutOffLater(LastFill(init, key), p.timestamp, hours, now);
      if StatusOf(p) == Pending || p.timestamp as real > Cutoff(hours, now) {
        assert Cleanup(xs, hours, now) == Cleanup(init, hours, now) + [p];
        AppendOne(Cleanup(init, hours, now), p, key);
      } else {
        assert Cleanup(xs, hours, now) == Cleanup(init, hours, now);
      }
    }
  }

  lemma SetMissingAt(xs: seq<Record>, id: string, f: nat -> nat, key: string)
    ensures Abstract(SetMissingChecks(xs, id, f), key) == Abstract(xs, key)
  {
    var i := FindFirst(xs, PendingOrder(id));
    if i < |xs| {
      var p := xs[i].(missingChecks := Some(f(xs[i].missingChecks.GetOr(0))));
      AbstractAround(xs, i, p, key);
      AbstractAround(xs, i, xs[i], key);
      One(p, key);
      One(xs[i], key);
      assert xs[i := xs[i]] == xs;
    }
  }

  /** Every lawful operation does to the list what `MapStep` does to the map. */
  lemma StepRefines(xs: seq<Record>, used: set<string>, filled: set<string>, op: Op)
    requires ListOk(xs, used, filled)
    requires TimeOf(op).Some? ==> NoLaterThan(xs, TimeOf(op).value)
    requires op.OpExecuted? ==> IsExecutionKey(op.key)
    requires op.OpPending? ==> op.order !in used
    requires op.OpPromote? ==> op.order !in filled
    ensures Refines(xs, ListStep(xs, op), op)
  {
    match op
    case OpExecuted(_, _, _, _, _, _) => ExecutedRefines(xs, used, filled, op);
    case OpPending(_, _, _, _, _, _, _, _) => PendingRefines(xs, used, filled, op);
    case OpPromote(_, _) => PromoteRefines(xs, used, filled, op);
    case OpRemove(id) =>
      forall p | p in xs && StatusOf(p) == Pending ensures p.orderId.Some? {
        assert RecordOk(p, used, filled);
      }
      forall key ensures Abstract(ListStep(xs, op), key) == MapStep(Abstract(xs, key), key, op) {
        RemoveRefinesAt(xs, id, key);
      }
    case OpIncrement(id) =>
      forall key ensures Abstract(ListStep(xs, op), key) == Abstract(xs, key) {
        SetMissingAt(xs, id, n => n + 1, key);
      }
    case OpReset(id) =>
      forall key ensures Abstract(ListStep(xs, op), key) == Abstract(xs, key) {
        SetMissingAt(xs, id, n => 0, key);
      }
    case OpCleanup(hours, now) =>
      if hours != 0.0 {
        forall key ensures Abstract(ListStep(xs, op), key) == MapStep(Abstract(xs, key), key, op) {
          CleanupRefinesAt(xs, hours, now, key);
        }
      }
  }
}
