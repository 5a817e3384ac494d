/**
 * Reconciling pending no-repeat blocks with the exchange: the decision of
 * src/noRepeatReconciliation.ts and the loop of `reconcilePendingNoRepeatBlock`
 * (src/copyTrader.ts:1546-1676).
 */
module Reconciliation {
  import opened Options
  import opened Sides
  import opened PositionStore

  datatype Decision = StillOpen | WasExecuted | AwaitMoreEvidence | ClearPending

  const MAX_MISSING_ORDER_CHECKS := 2
  const EPSILON: real := 0.000001

  /** The position moved past the baseline in the direction of the trade. */
  predicate Moved(size: real, baseline: Option<real>, side: Side) {
    var delta := size - baseline.GetOr(0.0);
    (side == Buy && delta > EPSILON) || (side == Sell && delta < -EPSILON)
  }

  function Decide(orderId: Option<string>, open: set<string>, size: Option<real>, baseline: Option<real>,
                  missing: Option<nat>, side: Side): Decision {
    if Truthy(orderId) && orderId.value in open then StillOpen
    else if size.Some? && Moved(size.value, baseline, side) then WasExecuted
    else if missing.GetOr(0) + 1 < MAX_MISSING_ORDER_CHECKS then AwaitMoreEvidence
    else ClearPending
  }

  // ---------------------------------------------------------------- one block

  /** A block that reconciliation removed, with the evidence it had. */
  datatype Removal = Removal(order: string, absences: nat, size: real, baseline: Option<real>, side: Side)

  /** The records, and for every order placed in how many of the snapshots fetched since it was last in one
      (or placed) it was absent. The count is a trace: no decision reads it. */
  datatype World = World(records: seq<Record>, absences: map<string, nat>, removals: seq<Removal>)

  function Absences(w: World, order: string): nat {
    if order in w.absences then w.absences[order] else 0
  }

  /** A snapshot of the open orders is evidence about every order, whatever it was fetched for. */
  function Fetch(w: World, open: set<string>): World {
    w.(absences := map order | order in w.absences :: if order in open then 0 else w.absences[order] + 1)
  }

  /** The confirming fetch: the order list or, after it, the position may be unavailable. */
  datatype Confirmation = NoOrders | NoPosition(open: set<string>) | Confirmed(open: set<string>, size: real)

  function SideOf(block: Record): Side {
    block.tradeSide.GetOr(Buy)
  }

  function Checks(block: Record): nat {
    block.missingChecks.GetOr(0)
  }

  function Reset(w: World, order: string): World {
    w.(records := ResetMissing(w.records, order))
  }

  function Promote(w: World, order: string, now: int): World {
    w.(records := MarkExecuted(w.records, order, now))
  }

  function Remove(w: World, order: string, size: real, block: Record): World {
    w.(records := RemovePending(w.records, order),
       removals := w.removals + [Removal(order, Absences(w, order), size, block.baselineSize, SideOf(block))])
  }

  /** What is done after the order went missing once: count it, look again, decide again. */
  function Confirm(w: World, block: Record, c: Confirmation, now: int): (World, bool)
    requires block.orderId.Some?
  {
    var order := block.orderId.value;
    var checks := ChecksAfterIncrement(w.records, order);
    var w1 := w.(records := IncrementMissing(w.records, order));
    match c
    case NoOrders => (w1, false)
    case NoPosition(open) => (Fetch(w1, open), false)
    case Confirmed(open, size) =>
      var w2 := Fetch(w1, open);
      match Decide(block.orderId, open, Some(size), block.baselineSize, Or(checks, block.missingChecks), SideOf(block))
      case StillOpen => (Reset(w2, order), false)
      case WasExecuted => (Promote(w2, order, now), true)
      case ClearPending => (Remove(w2, order, size, block), true)
      case AwaitMoreEvidence => (w2, false)
  }

  /** One turn of the loop, for a block as it was loaded and the snapshot fetched before the loop; the result says
      whether the loop goes on. Blocks without an order id are passed over. */
  function HandleBlock(w: World, block: Record, open: set<string>, size: real, c: Confirmation, now: int)
    : (World, bool)
  {
    if !Truthy(block.orderId) then (w, true)
    else
      var order := block.orderId.value;
      match Decide(block.orderId, open, Some(size), block.baselineSize, block.missingChecks, SideOf(block))
      case StillOpen => (Reset(w, order), false)
      case WasExecuted => (Promote(w, order, now), true)
      case AwaitMoreEvidence => Confirm(w, block, c, now)
      case ClearPending => (Remove(w, order, size, block), true)
  }

  // ---------------------------------------------------------------- one call

  /** The blocks a detected trade reconciles. */
  predicate Concerns(p: Record, marketId: string, outcome: string, key: string) {
    && (p.positionKey == Some(key) || (Truthy(p.tokenId) && key == "token:" + p.tokenId.value)
        || (p.marketId == marketId && p.outcome == outcome))
    && StatusOf(p) == Pending
  }

  function PendingBlocks(xs: seq<Record>, marketId: string, outcome: string, key: string): seq<Record> {
    Filter(xs, (p: Record) => Concerns(p, marketId, outcome, key))
  }

  /** The answers to one call: the order list may be unavailable, or the position after it; otherwise the i-th turn
      has a confirmation at hand and happens at its own time. */
  datatype Answers =
    | NoSnapshot
    | OnlySnapshot(open: set<string>)
    | Answered(open: set<string>, size: real, confirm: nat -> Confirmation, at: nat -> int)

  function Reconciled(w: World, blocks: seq<Record>, a: Answers, n: nat): (World, bool)
    requires n <= |blocks| && a.Answered?
  {
    if n == 0 then (w, true)
    else
      var (before, goOn) := Reconciled(w, blocks, a, n - 1);
      if !goOn then (before, false)
      else HandleBlock(before, blocks[n - 1], a.open, a.size, a.confirm(n - 1), a.at(n - 1))
  }

  /** One call of `reconcilePendingNoRepeatBlock`. */
  function AfterCall(w: World, blocks: seq<Record>, a: Answers): World {
    if blocks == [] then w
    else
      match a
      case NoSnapshot => w
      case OnlySnapshot(open) => Fetch(w, open)
      case Answered(open, _, _, _) => Reconciled(Fetch(w, open), blocks, a, |blocks|).0
  }

  lemma {:induction false} ReconciledStops(w: World, blocks: seq<Record>, a: Answers, n: nat, m: nat)
    requires a.Answered? && n <= m <= |blocks| && !Reconciled(w, blocks, a, n).1
    ensures Reconciled(w, blocks, a, m) == Reconciled(w, blocks, a, n)
    decreases m
  {
    if n < m {
      ReconciledStops(w, blocks, a, n, m - 1);
    }
  }

  /** The reconciliation on the stored records. */
  class Reconciler {
    const store: Store
    ghost var absences: map<string, nat>
    ghost var removals: seq<Removal>

    constructor (store: Store)
      ensures this.store == store && absences == map[] && removals == []
    {
      this.store := store;
      absences, removals := map[], [];
    }

    ghost function View(): World
      reads this, store
    {
      World(store.positions, absences, removals)
    }

    /** Lines 1546-1667. */
    method Reconcile(marketId: string, outcome: string, key: string, a: Answers)
      modifies this, store
      ensures View() == AfterCall(old(View()), PendingBlocks(old(store.positions), marketId, outcome, key), a)
    {
      var blocks := PendingBlocks(store.positions, marketId, outcome, key);
      if |blocks| == 0 || a.NoSnapshot? {
        return;
      }
      absences := Fetch(View(), a.open).absences;
      if a.OnlySnapshot? {
        return;
      }
      ghost var fetched := View();
      assert fetched == Fetch(old(View()), a.open);
      var i := 0;
      while i < |blocks|
        invariant i <= |blocks|
        invariant Reconciled(fetched, blocks, a, i) == (View(), true)
      {
        var goOn := HandlePendingBlock(blocks[i], a.open, a.size, a.confirm(i), a.at(i));
        i := i + 1;
        if !goOn {
          ReconciledStops(fetched, blocks, a, i, |blocks|);
          return;
        }
      }
      assert View() == Reconciled(fetched, blocks, a, |blocks|).0;
    }

    method HandlePendingBlock(block: Record, open: set<string>, size: real, c: Confirmation, now: int)
      returns (goOn: bool)
      modifies this, store
      ensures (View(), goOn) == HandleBlock(old(View()), block, open, size, c, now)
    {
      var decision := Decide(block.orderId, open, Some(size), block.baselineSize, block.missingChecks, SideOf(block));
      if !Truthy(block.orderId) {
        return true;
      }
      var order := block.orderId.value;
      if decision == StillOpen {
        store.ResetPendingPositionMissingOrderChecks(order);
        return false;
      }
      if decision == WasExecuted {
        var _ := store.MarkPendingPositionExecuted(order, now);
        return true;
      }
      if decision == AwaitMoreEvidence {
        var missingChecks := store.IncrementPendingPositionMissingOrderChecks(order);
        if c.NoOrders? {
          return false;
        }
        absences := Fetch(View(), c.open).absences;
        if c.NoPosition? {
          return false;
        }
        var confirmation := Decide(block.orderId, c.open, Some(c.size), block.baselineSize,
                                   Or(missingChecks, block.missingChecks), SideOf(block));
        if confirmation == StillOpen {
          store.ResetPendingPositionMissingOrderChecks(order);
          return false;
        }
        if confirmation == WasExecuted {
          var _ := store.MarkPendingPositionExecuted(order, now);
          return true;
        }
        if confirmation == ClearPending {
          removals := Remove(View(), order, c.size, block).removals;
          var _ := store.RemovePendingPosition(order);
          return true;
        }
        return false;
      }
      removals := Remove(View(), order, size, block).removals;
      var _ := store.RemovePendingPosition(order);
      goOn := true;
    }
  }
}
