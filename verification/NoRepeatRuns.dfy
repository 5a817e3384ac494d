/**
 * The no-repeat protocol as a whole: runs in which every change of the records comes from the
 * execution loop, from a call of the reconciliation or from a clean-up.
 */
module NoRepeatRuns {
  import opened Options
  import opened Sides
  import opened TradeIdentity
  import opened PositionStore
  import opened PositionMap
  import opened PositionRefinement
  import opened NoRepeat
  import opened Reconciliation
  import opened ReconciliationTurns
  import opened ReconciliationChanges
  import Evidence = ReconciliationEvidence

  // ---------------------------------------------------------------- runs

  /** A call of the reconciliation, one turn of the execution loop, or a clean-up. */
  datatype Move =
    | Reconciles(marketId: string, outcome: string, key: string, answers: Answers)
    | Tries(trade: Trade, wallet: Option<string>, attempt: Attempt)
    | Cleans(hours: real, now: int)

  datatype State = State(history: seq<Act>, world: World)

  const INITIAL := State([], Evidence.START)

  function BlocksOf(w: World, m: Move): seq<Record>
    requires m.Reconciles?
  {
    PendingBlocks(w.records, m.marketId, m.outcome, m.key)
  }

  function DoAll(ops: seq<Op>): seq<Act> {
    seq(|ops|, i requires 0 <= i < |ops| => Do(ops[i]))
  }

  function ActsOf(w: World, m: Move): seq<Act> {
    match m
    case Reconciles(_, _, _, a) => DoAll(CallOps(BlocksOf(w, m), a))
    case Tries(trade, wallet, a) => TryTarget(w.records, trade, ExecutionKey(trade.positionKey, wallet), a).0
    case Cleans(hours, now) => [Do(OpCleanup(hours, now))]
  }

  /** The records and the traces after some acts outside the reconciliation. */
  function Applied(w: World, acts: seq<Act>): World {
    if acts == [] then w
    else
      var before, last := Applied(w, acts[..|acts| - 1]), acts[|acts| - 1];
      if last.Do? then Evidence.Next(before, Evidence.Change(last.op)) else before
  }

  function MoveTo(s: State, m: Move): State {
    State(s.history + ActsOf(s.world, m),
          if m.Reconciles? then AfterCall(s.world, BlocksOf(s.world, m), m.answers)
          else Applied(s.world, ActsOf(s.world, m)))
  }

  /** What the surroundings keep to: the clock never runs backwards, and the exchange gives fresh order ids. */
  ghost predicate May(s: State, m: Move) {
    var ops := OpsOf(s.history);
    match m
    case Reconciles(_, _, _, a) => a.Answered? ==> Clocked(ops, a)
    case Cleans(_, now) => NotBefore(ops, now)
    case Tries(trade, _, a) =>
      && PlainToken(trade.tokenId.GetOr("")) && NotBefore(ops, a.checkAt) && a.checkAt <= a.recordAt
      && match a.result
         case Filled(id) => id.Some? ==> id.value !in Used(ops)
         case Resting(order) => order !in Used(ops)
         case Failed => true
  }

  ghost predicate IsRun(moves: seq<Move>, states: seq<State>) {
    && |states| == |moves| + 1 && states[0] == INITIAL
    && forall i {:trigger moves[i]} :: 0 <= i < |moves| ==>
         May(states[i], moves[i]) && states[i + 1] == MoveTo(states[i], moves[i])
  }

  /** A recorded fill of a key directly follows a call for the key. */
  predicate Sourced(h: seq<Act>) {
    forall m :: 0 <= m < |h| && h[m].Do? && h[m].op.OpExecuted? ==>
      m > 0 && h[m - 1].Call? && h[m - 1].key == h[m].op.key
  }

  ghost predicate Sound(s: State) {
    && s.world.records == RecordsOf(s.history)
    && Orderly(s.history) && Gated(s.history) && Sourced(s.history)
  }

  lemma {:induction false} OpsOfAll(h: seq<Act>, ops: seq<Op>)
    ensures OpsOf(h + DoAll(ops)) == OpsOf(h) + ops
    decreases |ops|
  {
    hide OpsOf;
    if ops == [] {
      assert h + DoAll(ops) == h;
    } else {
      var init, last := ops[..|ops| - 1], ops[|ops| - 1];
      assert ops == init + [last];
      OpsOfAll(h, init);
      assert h + DoAll(ops) == (h + DoAll(init)) + [Do(last)];
      OpsSnoc(h + DoAll(init), Do(last));
    }
  }

  lemma OrderlyDo(h: seq<Act>, op: Op)
    requires Orderly(h) && MayFollow(OpsOf(h), op)
    ensures Orderly(h + [Do(op)])
  {
    hide Lawful, OpsOf, MayFollow, TimeOf;
    var h' := h + [Do(op)];
    OpsSnoc(h, Do(op));
    LawfulSnoc(OpsOf(h), op);
    forall i, j | 0 <= i < j < |h'| && h'[i].Do? && TimeOf(h'[i].op).Some? && h'[j].Call?
      ensures TimeOf(h'[i].op).value <= h'[j].at
    {
      assert h'[i] == h[i] && h'[j] == h[j];
    }
  }

  lemma OrderlyCall(h: seq<Act>, call: Act)
    requires Orderly(h) && call.Call? && NotBefore(OpsOf(h), call.at)
    ensures Orderly(h + [call])
  {
    var h' := h + [call];
    OpsSnoc(h, call);
    assert OpsOf(h) + [] == OpsOf(h);
    hide Lawful, OpsOf, TimeOf;
    forall i, j | 0 <= i < j < |h'| && h'[i].Do? && TimeOf(h'[i].op).Some? && h'[j].Call?
      ensures TimeOf(h'[i].op).value <= h'[j].at
    {
      OpAt(h, i);
    }
  }

  lemma SourcedSnoc(h: seq<Act>, act: Act)
    requires Sourced(h)
    requires act.Do? && act.op.OpExecuted? ==> h != [] && h[|h| - 1].Call? && h[|h| - 1].key == act.op.key
    ensures Sourced(h + [act])
  {
  }

  /** One more change keeps a history orderly, gated and sourced. */
  lemma DoSound(h: seq<Act>, op: Op)
    requires Orderly(h) && Gated(h) && Sourced(h) && MayFollow(OpsOf(h), op)
    requires op.OpExecuted? ==> h != [] && h[|h| - 1].Call? && h[|h| - 1].key == op.key
    ensures Orderly(h + [Do(op)]) && Gated(h + [Do(op)]) && Sourced(h + [Do(op)])
  {
    hide *;
    OrderlyDo(h, op);
    GatedSnoc(h, Do(op));
    SourcedSnoc(h, Do(op));
  }

  /** A call that passed its check does, too. */
  lemma CallSound(h: seq<Act>, call: Act)
    requires Orderly(h) && Gated(h) && Sourced(h) && call.Call? && NotBefore(OpsOf(h), call.at)
    requires !IsBlocked(RecordsOf(h), call.marketId, call.outcome, call.hours, Some(call.key), call.at)
    requires IsExecutionKey(call.key)
    ensures Orderly(h + [call]) && Gated(h + [call]) && Sourced(h + [call])
    ensures OpsOf(h + [call]) == OpsOf(h)
  {
    OpsSnoc(h, call);
    assert OpsOf(h) + [] == OpsOf(h);
    hide Orderly, Gated, Sourced, OpsOf, NotBefore, IsBlocked, IsExecutionKey;
    OrderlyCall(h, call);
    GatedSnoc(h, call);
    SourcedSnoc(h, call);
  }

  lemma LawfulAt(ops: seq<Op>, k: nat)
    requires Lawful(ops) && k < |ops|
    ensures MayFollow(ops[..k], ops[k])
  {
  }

  lemma {:induction false} AllSound(h: seq<Act>, ops: seq<Op>, n: nat)
    requires Orderly(h) && Gated(h) && Sourced(h) && Lawful(OpsOf(h) + ops) && n <= |ops|
    requires forall i :: 0 <= i < |ops| ==> !ops[i].OpExecuted?
    ensures var h' := h + DoAll(ops[..n]); Orderly(h') && Gated(h') && Sourced(h')
  {
    hide Orderly, Gated, Sourced, Lawful, OpsOf, MayFollow;
    if n == 0 {
      assert h + DoAll(ops[..0]) == h;
    } else {
      AllSound(h, ops, n - 1);
      var before := h + DoAll(ops[..n - 1]);
      OpsOfAll(h, ops[..n - 1]);
      var all, k := OpsOf(h) + ops, |OpsOf(h)| + n - 1;
      LawfulAt(all, k);
      assert all[..k] == OpsOf(before) && all[k] == ops[n - 1];
      DoSound(before, ops[n - 1]);
      assert h + DoAll(ops[..n]) == before + [Do(ops[n - 1])];
    }
  }

  // ---------------------------------------------------------------- every run is sound

  /** Acts outside the reconciliation change the records as they change the history. */
  lemma {:induction false} AppliedRecords(h: seq<Act>, w: World, acts: seq<Act>)
    requires w.records == RecordsOf(h)
    ensures Applied(w, acts).records == RecordsOf(h + acts)
    decreases |acts|
  {
    hide RecordsOf, ListStep;
    if acts == [] {
      assert h + acts == h;
    } else {
      var init, last := acts[..|acts| - 1], acts[|acts| - 1];
      AppliedRecords(h, w, init);
      OpsSnoc(h + init, last);
      assert h + acts == (h + init) + [last];
    }
  }

  lemma TrySound(s: State, m: Move)
    requires Sound(s) && m.Tries? && May(s, m)
    ensures Sound(MoveTo(s, m))
  {
    AppliedRecords(s.history, s.world, ActsOf(s.world, m));
    TryHistory(s, m);
    hide ActsOf, Orderly, Gated, Sourced, RecordsOf, Applied, May;
  }

  lemma SoundParts(s: State)
    requires Sound(s)
    ensures Orderly(s.history) && Gated(s.history) && Sourced(s.history)
  {
    hide Orderly, Gated, Sourced;
  }

  /** A turn of the execution loop is nothing, a call that passed its check, or such a call and its record. */
  lemma TryActs(s: State, m: Move)
    requires Sound(s) && m.Tries? && May(s, m)
    ensures var h, acts := s.history, ActsOf(s.world, m);
            && |acts| <= 2
            && (acts != [] ==>
                  && acts[0].Call? && NotBefore(OpsOf(h), acts[0].at) && IsExecutionKey(acts[0].key)
                  && !IsBlocked(RecordsOf(h), acts[0].marketId, acts[0].outcome, acts[0].hours, Some(acts[0].key),
                                acts[0].at))
            && (|acts| == 2 ==>
                  && acts[1].Do? && MayFollow(OpsOf(h), acts[1].op)
                  && (acts[1].op.OpExecuted? ==> acts[0].key == acts[1].op.key))
  {
    var key, a := ExecutionKey(m.trade.positionKey, m.wallet), m.attempt;
    hide TryTarget, Orderly, Gated, Sourced, IsBlocked, ExecutionKey, IsExecutionKey, RecordsOf, RecordOp, OpsOf,
      MayFollow, NotBefore, May;
    ExecutionKeyOf(m.trade.positionKey, m.wallet);
    TryShape(s.world.records, m.trade, key, a);
    TryFollows(s, m);
  }

  lemma TryHistory(s: State, m: Move)
    requires Sound(s) && m.Tries? && May(s, m)
    ensures var h := s.history + ActsOf(s.world, m); Orderly(h) && Gated(h) && Sourced(h)
  {
    hide *;
    var h, acts := s.history, ActsOf(s.world, m);
    SoundParts(s);
    TryActs(s, m);
    if acts == [] {
      assert h + acts == h;
    } else {
      CallSound(h, acts[0]);
      if |acts| == 1 {
        assert acts == [acts[0]];
      } else {
        DoSound(h + [acts[0]], acts[1].op);
        assert h + acts == h + [acts[0]] + [acts[1]];
      }
    }
  }

  /** What a turn of the execution loop records may follow. */
  lemma TryFollows(s: State, m: Move)
    requires m.Tries? && May(s, m)
    ensures NotBefore(OpsOf(s.history), m.attempt.checkAt)
    ensures var key := ExecutionKey(m.trade.positionKey, m.wallet);
            var op := RecordOp(m.trade, key, m.attempt);
            op.Some? ==>
              MayFollow(OpsOf(s.history), op.value) && !op.value.OpPromote? && KeyOf(op.value) == key
  {
    ExecutionKeyOf(m.trade.positionKey, m.wallet);
    NotBeforeLater(OpsOf(s.history), m.attempt.checkAt, m.attempt.recordAt);
    hide ExecutionKey, IsExecutionKey, NotBefore, Used, OpsOf;
  }

  lemma NotBeforeLater(ops: seq<Op>, now: int, later: int)
    requires NotBefore(ops, now) && now <= later
    ensures NotBefore(ops, later)
  {
  }

  lemma TryShape(xs: seq<Record>, trade: Trade, key: string, a: Attempt)
    ensures var acts := TryTarget(xs, trade, key, a).0;
            && |acts| <= 2
            && (acts != [] ==>
                  && acts[0] == Call(trade.marketId, trade.outcome, key, a.checkAt, AppliedHours(trade))
                  && !IsBlocked(xs, trade.marketId, trade.outcome, AppliedHours(trade), Some(key), a.checkAt))
            && (|acts| == 2 ==>
                  && acts[1].Do? && RecordOp(trade, key, a) == Some(acts[1].op))
  {
  }

  lemma ReconcileSound(s: State, m: Move)
    requires Sound(s) && m.Reconciles? && May(s, m)
    ensures Sound(MoveTo(s, m))
  {
    var ops, blocks := OpsOf(s.history), BlocksOf(s.world, m);
    var more := CallOps(blocks, m.answers);
    SoleAfter(ops);
    Evidence.BlocksLoaded(s.world.records, m.marketId, m.outcome, m.key);
    CallLawful(s.world, ops, blocks, m.answers);
    OpsOfAll(s.history, more);
    CallConcerns(blocks, m.answers);
    AllSound(s.history, more, |more|);
    assert more[..|more|] == more;
    hide Orderly, Gated, Sourced, Lawful, AfterCall, Removes, Sole;
  }

  /** Reconciliation records neither orders nor fills of its own. */
  lemma CallConcerns(blocks: seq<Record>, a: Answers)
    ensures forall i :: 0 <= i < |CallOps(blocks, a)| ==> !CallOps(blocks, a)[i].OpExecuted?
  {
    if a.Answered? {
      TurnsConcern(blocks, a, Evidence.Turns(blocks, a, 0));
    }
  }

  /** Every change of a call is one of some turn for its order: a promotion when the position was seen past the
      baseline, a removal when the order was taken for gone. */
  lemma {:induction false} TurnsConcern(blocks: seq<Record>, a: Answers, n: nat)
    requires a.Answered? && n <= |blocks|
    ensures forall i :: 0 <= i < |TurnsOps(blocks, a, n)| ==> BySomeTurn(blocks, a, n, TurnsOps(blocks, a, n)[i])
  {
    if n > 0 {
      TurnsConcern(blocks, a, n - 1);
      var init := TurnsOps(blocks, a, n - 1);
      var turn := TurnOps(blocks[n - 1], a.open, a.size, a.confirm(n - 1), a.at(n - 1));
      assert TurnsOps(blocks, a, n) == init + turn;
      hide ByTurn, TurnOps, TurnsOps;
      forall i | 0 <= i < |init + turn|
        ensures BySomeTurn(blocks, a, n, (init + turn)[i])
      {
        var op := (init + turn)[i];
        if i < |init| {
          assert op == init[i];
          var m: nat :| m < n - 1 && ByTurn(blocks, a, m, op);
        } else {
          OpByTurn(blocks, a, n - 1, i - |init|);
          assert op == turn[i - |init|] && ByTurn(blocks, a, n - 1, op);
        }
      }
    }
  }

  ghost predicate BySomeTurn(blocks: seq<Record>, a: Answers, n: nat, op: Op)
    requires a.Answered? && n <= |blocks|
  {
    exists m: nat :: m < n && ByTurn(blocks, a, m, op)
  }

  lemma OpByTurn(blocks: seq<Record>, a: Answers, m: nat, i: nat)
    requires a.Answered? && m < |blocks|
    requires i < |TurnOps(blocks[m], a.open, a.size, a.confirm(m), a.at(m))|
    ensures ByTurn(blocks, a, m, TurnOps(blocks[m], a.open, a.size, a.confirm(m), a.at(m))[i])
  {
    hide Moved;
  }

  ghost predicate ByTurn(blocks: seq<Record>, a: Answers, m: nat, op: Op)
    requires a.Answered? && m < |blocks|
  {
    && Truthy(blocks[m].orderId) && Concerning(op, blocks[m].orderId.value)
    && (op.OpPromote? ==> SeenFilled(blocks[m], a.open, a.size, a.confirm(m)))
    && (op.OpRemove? ==> Gone(blocks, a, m))
  }

  lemma MoveSound(s: State, m: Move)
    requires Sound(s) && May(s, m)
    ensures Sound(MoveTo(s, m))
  {
    hide Sound, May, MoveTo;
    match m
    case Reconciles(_, _, _, _) => ReconcileSound(s, m);
    case Tries(_, _, _) => TrySound(s, m);
    case Cleans(_, _) => CleanSound(s, m);
  }

  lemma CleanSound(s: State, m: Move)
    requires Sound(s) && m.Cleans? && May(s, m)
    ensures Sound(MoveTo(s, m))
  {
    hide Orderly, Gated, Sourced, RecordsOf, Applied, OpsOf, NotBefore;
    DoSound(s.history, OpCleanup(m.hours, m.now));
    AppliedRecords(s.history, s.world, [Do(OpCleanup(m.hours, m.now))]);
  }

  lemma StartOfRun(moves: seq<Move>, states: seq<State>)
    requires IsRun(moves, states)
    ensures |states| == |moves| + 1
    ensures states[0].history == [] && states[0].world == Evidence.START
  {
  }

  lemma StepOfRun(moves: seq<Move>, states: seq<State>, k: nat)
    requires IsRun(moves, states) && k < |moves|
    ensures |states| == |moves| + 1
    ensures May(states[k], moves[k]) && states[k + 1] == MoveTo(states[k], moves[k])
  {
  }

  /** In every run the history of the records is lawful and runs with the clock, and every call passed its check. */
  lemma {:induction false} RunSound(moves: seq<Move>, states: seq<State>, n: nat)
    requires IsRun(moves, states) && n <= |moves|
    ensures Sound(states[n])
  {
    hide Sound, May, MoveTo;
    if n == 0 {
      InitialSound();
    } else {
      RunSound(moves, states, n - 1);
      StepOfRun(moves, states, n - 1);
      MoveSound(states[n - 1], moves[n - 1]);
    }
  }

  lemma InitialSound()
    ensures Sound(INITIAL)
  {
  }

  // ---------------------------------------------------------------- what runs promise

  /** The move that an act of a run belongs to. */
  lemma {:induction false} MoveOfAct(moves: seq<Move>, states: seq<State>, n: nat, m: nat) returns (k: nat)
    requires IsRun(moves, states) && n <= |moves| && m < |states[n].history|
    ensures k < n && |states[k].history| <= m < |states[k + 1].history|
    ensures |states[k + 1].history| == |states[k].history| + |ActsOf(states[k].world, moves[k])|
    ensures states[n].history[m] == ActsOf(states[k].world, moves[k])[m - |states[k].history|]
  {
    hide ActsOf, May;
    assert n > 0 ==> May(states[n - 1], moves[n - 1]) && states[n - 1 + 1] == MoveTo(states[n - 1], moves[n - 1]);
    if m < |states[n - 1].history| {
      k := MoveOfAct(moves, states, n - 1, m);
    } else {
      k := n - 1;
    }
  }

  /** The acts of the moves, by kind. */
  lemma ActKinds(w: World, m: Move, i: nat)
    requires i < |ActsOf(w, m)|
    ensures var act := ActsOf(w, m)[i];
            && (m.Reconciles? ==>
                  && m.answers.Answered? && act.Do? && !act.op.OpExecuted? && !act.op.OpPending?
                  && BySomeTurn(BlocksOf(w, m), m.answers, Evidence.Turns(BlocksOf(w, m), m.answers, 0), act.op))
            && (m.Tries? && act.Do? ==> act.op.OpExecuted? || act.op.OpPending?)
            && (m.Cleans? ==> act.Do? && act.op.OpCleanup?)
  {
    match m
    case Reconciles(_, _, _, a) =>
      if a.Answered? {
        TurnsConcern(BlocksOf(w, m), a, Evidence.Turns(BlocksOf(w, m), a, 0));
      }
    case Tries(trade, wallet, a) => TryShape(w.records, trade, ExecutionKey(trade.positionKey, wallet), a);
    case Cleans(_, _) =>
  }

  /** The move is a call that saw the order absent and the position moved past its baseline. */
  ghost predicate SeesFilled(w: World, m: Move, order: string) {
    m.Reconciles? && m.answers.Answered? &&
    exists n: nat :: n < |BlocksOf(w, m)| && BlocksOf(w, m)[n].orderId == Some(order)
                     && SeesPast(BlocksOf(w, m)[n], order, m.answers.open, m.answers.size, m.answers.confirm(n))
  }

  /** The order was absent from the snapshot and the position past its baseline, at once or, for a block without a
      counted miss, in the confirmation. */
  predicate SeesPast(p: Record, order: string, open: set<string>, size: real, c: Confirmation) {
    && order !in open
    && (PastBaseline(p, size)
        || (p.missingChecks.GetOr(0) == 0 && c.Confirmed? && order !in c.open && PastBaseline(p, c.size)))
  }

  lemma SeenFilledIsPast(p: Record, order: string, open: set<string>, size: real, c: Confirmation)
    requires p.orderId == Some(order) && SeenFilled(p, open, size, c)
    ensures SeesPast(p, order, open, size, c)
  {
    MovedIsPast(p, size);
    if c.Confirmed? {
      MovedIsPast(p, c.size);
    }
    hide Moved, PastBaseline;
  }

  /** Move k of the run, after act i and before act j, is a call that saw the order filled or removed its block. */
  ghost predicate SettledBy(moves: seq<Move>, states: seq<State>, i: nat, j: nat, order: string, k: nat)
    requires |states| == |moves| + 1
  {
    && k < |moves| && i < |states[k].history| && |states[k + 1].history| <= j
    && (SeesFilled(states[k].world, moves[k], order)
        || (moves[k].Reconciles? && RemovedBetween(states[k].world, states[k + 1].world, order)))
  }

  lemma {:induction false} HistoriesGrow(moves: seq<Move>, states: seq<State>, k: nat, n: nat)
    requires IsRun(moves, states) && k <= n <= |moves|
    ensures |states[k].history| <= |states[n].history|
    decreases n
  {
    hide May, ActsOf;
    if k < n {
      HistoriesGrow(moves, states, k, n - 1);
      StepOfRun(moves, states, n - 1);
    }
  }

  lemma RecordsSole(s: State)
    requires Sound(s)
    ensures Sole(s.world.records)
  {
    SoleAfter(OpsOf(s.history));
  }

  /** A call that promotes or removes an order saw it filled, or removed its block. */
  lemma CallSettles(moves: seq<Move>, states: seq<State>, k: nat, op: Op)
    requires IsRun(moves, states) && k < |moves| && moves[k].Reconciles? && moves[k].answers.Answered?
    requires var w, a := states[k].world, moves[k].answers;
             BySomeTurn(BlocksOf(w, moves[k]), a, Evidence.Turns(BlocksOf(w, moves[k]), a, 0), op)
    requires op.OpPromote? || op.OpRemove?
    ensures op.OpPromote? ==> SeesFilled(states[k].world, moves[k], op.order)
    ensures op.OpRemove? ==> RemovedBetween(states[k].world, states[k + 1].world, op.order)
  {
    var s, move := states[k], moves[k];
    var blocks, a, ops := BlocksOf(s.world, move), move.answers, OpsOf(s.history);
    var n := Evidence.Turns(blocks, a, 0);
    StepOfRun(moves, states, k);
    RunSound(moves, states, k);
    RecordsSole(s);
    Evidence.BlocksLoaded(s.world.records, move.marketId, move.outcome, move.key);
    CallLawful(s.world, ops, blocks, a);
    hide IsRun, May, Sound, AfterCall, PendingBlocks, SeenFilled, Gone, RemovedBetween, CallOps, Concerning;
    var m: nat :| m < n && ByTurn(blocks, a, m, op);
    assert blocks[m].orderId == Some(op.order) by {
      TurnOrder(blocks, a, m, op);
    }
    hide SeesPast;
    if op.OpPromote? {
      SeenFilledIsPast(blocks[m], op.order, a.open, a.size, a.confirm(m));
    }
  }

  lemma TurnOrder(blocks: seq<Record>, a: Answers, m: nat, op: Op)
    requires a.Answered? && m < |blocks| && ByTurn(blocks, a, m, op) && (op.OpPromote? || op.OpRemove?)
    ensures blocks[m].orderId == Some(op.order)
  {
  }

  /** The move of an act by the act's kind. */
  lemma KindOfAct(moves: seq<Move>, states: seq<State>, m: nat) returns (k: nat)
    requires IsRun(moves, states) && m < |states[|moves|].history|
    ensures k < |moves| && |states[k].history| <= m < |states[k + 1].history|
    ensures var act := states[|moves|].history[m];
            && (act.Call? || act.op.OpPending? ==> moves[k].Tries?)
            && (act.Do? && (act.op.OpPromote? || act.op.OpRemove?) ==>
                  && moves[k].Reconciles? && moves[k].answers.Answered?
                  && var blocks := BlocksOf(states[k].world, moves[k]);
                     BySomeTurn(blocks, moves[k].answers, Evidence.Turns(blocks, moves[k].answers, 0), act.op))
  {
    hide *;
    StartOfRun(moves, states);
    k := MoveOfAct(moves, states, |moves|, m);
    ActKinds(states[k].world, moves[k], m - |states[k].history|);
  }

  /** Acts of different moves are as far apart as their moves. */
  lemma MovesInOrder(moves: seq<Move>, states: seq<State>, i: nat, ki: nat, m: nat, k: nat)
    requires IsRun(moves, states) && i < m && ki != k && ki < |moves| && k < |moves|
    requires |states[ki].history| <= i < |states[ki + 1].history| && |states[k].history| <= m < |states[k + 1].history|
    ensures |states[ki + 1].history| <= |states[k].history|
  {
    if ki < k {
      HistoriesGrow(moves, states, ki + 1, k);
    } else {
      HistoriesGrow(moves, states, k + 1, ki);
    }
  }

  /** An act that settles an order comes from a call that settles it. */
  lemma SettlerFound(moves: seq<Move>, states: seq<State>, i: nat, m: nat, j: nat, order: string) returns (k: nat)
    requires IsRun(moves, states)
    requires var h := states[|moves|].history;
             && i < m < j < |h| && h[i].Do? && h[i].op.OpPending? && h[j].Call?
             && h[m].Do? && (h[m].op.OpPromote? || h[m].op.OpRemove?) && h[m].op.order == order
    ensures SettledBy(moves, states, i, j, order, k)
  {
    k := KindOfAct(moves, states, m);
    var ki := KindOfAct(moves, states, i);
    var kj := KindOfAct(moves, states, j);
    CallSettles(moves, states, k, states[|moves|].history[m].op);
    hide IsRun, SeesFilled, RemovedBetween, BySomeTurn;
    MovesInOrder(moves, states, i, ki, m, k);
    MovesInOrder(moves, states, m, k, j, kj);
  }

  lemma InRun(moves: seq<Move>, states: seq<State>)
    requires IsRun(moves, states)
    ensures |states| == |moves| + 1
    ensures var h := states[|moves|].history; Gated(h) && Orderly(h) && Sourced(h)
  {
    RunSound(moves, states, |moves|);
  }

  /** What came before a call after a recorded order: the order was settled, or another call led to a fill. */
  lemma SettlingAct(h: seq<Act>, i: nat, j: nat) returns (m: nat)
    requires Gated(h) && Orderly(h) && Sourced(h) && i < j < |h|
    requires h[j].Call? && h[i].Do? && h[i].op.OpPending? && h[i].op.key == h[j].key
    ensures i < m < j && h[m].Do?
    ensures match h[m].op
            case OpPromote(id, _) => id == h[i].op.order
            case OpRemove(id) => id == h[i].op.order
            case OpExecuted(_, _, _, _, _, _) => i < m - 1 && h[m - 1].Call? && h[m - 1].key == h[j].key
            case _ => false
  {
    CalledOnceSettled(h, i, j);
    hide Gated, Orderly;
    var key, order := h[j].key, h[i].op.order;
    m :| i < m < j && h[m].Do? &&
      match h[m].op
      case OpPromote(id, _) => id == order
      case OpRemove(id) => id == order
      case OpExecuted(_, _, k, _, _, _) => k == key
      case _ => false;
  }

  /** In every run a key for which an order was recorded is not traded again until a call of the reconciliation saw
      that order absent and the position moved past its baseline, or removed the block. */
  lemma {:induction false} CalledAgainOnlyOnceSettled(moves: seq<Move>, states: seq<State>, i: nat, j: nat)
    requires IsRun(moves, states)
    requires var h := states[|moves|].history;
             i < j < |h| && h[j].Call? && h[i].Do? && h[i].op.OpPending? && h[i].op.key == h[j].key
    ensures exists k: nat :: SettledBy(moves, states, i, j, states[|moves|].history[i].op.order, k)
    decreases j
  {
    hide *;
    InRun(moves, states);
    var h := states[|moves|].history;
    var m := SettlingAct(h, i, j);
    if h[m].op.OpExecuted? {
      CalledAgainOnlyOnceSettled(moves, states, i, m - 1);
      SettledEarlier(moves, states, i, m - 1, j, h[i].op.order);
    } else {
      var k := SettlerFound(moves, states, i, m, j, h[i].op.order);
    }
  }

  lemma SettledEarlier(moves: seq<Move>, states: seq<State>, i: nat, m: nat, j: nat, order: string)
    requires |states| == |moves| + 1 && m <= j && exists k: nat :: SettledBy(moves, states, i, m, order, k)
    ensures exists k: nat :: SettledBy(moves, states, i, j, order, k)
  {
    hide SeesFilled, RemovedBetween;
    var k: nat :| SettledBy(moves, states, i, m, order, k);
    assert SettledBy(moves, states, i, j, order, k);
  }

  // ---------------------------------------------------------------- what a pending record says

  /** The record is that of the operation, whatever absences were counted since. */
  predicate PlacedBy(p: Record, op: Op) {
    op.OpPending? && p == Record(op.marketId, op.outcome, op.now, Some(Pending), Some(op.order), op.tokenId,
                                 Some(op.key), op.baseline, p.missingChecks, op.tradeSide)
  }

  /** A pending record was pending before, but for its counted absences, or has just been placed. */
  lemma PendingFrom(xs: seq<Record>, op: Op, p: Record)
    requires p in ListStep(xs, op) && StatusOf(p) == Pending
    ensures PlacedBy(p, op)
            || exists q :: q in xs && StatusOf(q) == Pending && q.(missingChecks := p.missingChecks) == p
  {
    match op
    case OpExecuted(_, _, _, _, _, _) =>
      var at := Evidence.FillAtOnePlace(xs, op);
      hide ListStep;
    case OpPending(_, _, _, _, _, _, _, _) =>
    case OpPromote(_, _) =>
    case OpRemove(id) =>
      var keep := (r: Record) => !PendingOrder(id)(r);
      FilterMembers(xs, keep);
      assert RemovePending(xs, id) == Filter(xs, keep);
    case OpIncrement(id) => UncountedFrom(xs, id, n => n + 1, p);
    case OpReset(id) => UncountedFrom(xs, id, n => 0, p);
    case OpCleanup(hours, now) =>
      FilterMembers(xs, (r: Record) => StatusOf(r) == Pending || r.timestamp as real > Cutoff(hours, now));
  }

  lemma UncountedFrom(xs: seq<Record>, id: string, f: nat -> nat, p: Record)
    requires p in SetMissingChecks(xs, id, f) && StatusOf(p) == Pending
    ensures exists q :: q in xs && StatusOf(q) == Pending && q.(missingChecks := p.missingChecks) == p
  {
    var i :| 0 <= i < |xs| && SetMissingChecks(xs, id, f)[i] == p;
    assert xs[i] in xs && xs[i].(missingChecks := p.missingChecks) == p;
  }

  lemma {:induction false} PendingAsDone(h: seq<Act>, p: Record) returns (m: nat)
    requires p in RecordsOf(h) && StatusOf(p) == Pending
    ensures m < |h| && h[m].Do? && PlacedBy(p, h[m].op)
  {
    hide RecordsOf, ListStep;
    if h == [] {
      NoRecords();
      assert false;
    }
    var init, last := h[..|h| - 1], h[|h| - 1];
    assert h == init + [last];
    OpsSnoc(init, last);
    if last.Do? {
      PendingFrom(RecordsOf(init), last.op, p);
      if PlacedBy(p, last.op) {
        m := |h| - 1;
      } else {
        var q :| q in RecordsOf(init) && StatusOf(q) == Pending && q.(missingChecks := p.missingChecks) == p;
        m := PendingAsDone(init, q);
      }
    } else {
      m := PendingAsDone(init, p);
    }
  }

  lemma NoRecords()
    ensures RecordsOf([]) == []
  {
  }

  /** The attempt left this order on the book. */
  predicate LeftOrder(m: Move, p: Record) {
    && m.Tries? && m.attempt.result.Resting? && !m.attempt.recordFails
    && p.orderId == Some(m.attempt.result.order) && p.timestamp == m.attempt.recordAt
    && p.baselineSize == Some(m.attempt.baseline) && p.tradeSide == Some(m.trade.side)
    && p.marketId == m.trade.marketId && p.outcome == m.trade.outcome && p.tokenId == m.trade.tokenId
    && p.positionKey == Some(ExecutionKey(m.trade.positionKey, m.wallet))
  }

  lemma TryRecords(xs: seq<Record>, m: Move, i: nat, p: Record)
    requires m.Tries?
    requires var acts := TryTarget(xs, m.trade, ExecutionKey(m.trade.positionKey, m.wallet), m.attempt).0;
             i < |acts| && acts[i].Do? && PlacedBy(p, acts[i].op)
    ensures LeftOrder(m, p)
  {
    hide IsBlocked, ExecutionKey, AppliedHours;
  }

  /** In every run each pending record, and so each block that a call of the reconciliation loads, carries the order,
      the baseline, the direction and the identity of some attempt of the run. */
  lemma PendingAsTraded(moves: seq<Move>, states: seq<State>, p: Record) returns (k: nat)
    requires IsRun(moves, states) && p in states[|moves|].world.records && StatusOf(p) == Pending
    ensures k < |moves| && LeftOrder(moves[k], p)
  {
    hide *;
    InRun(moves, states);
    RecordsInRun(moves, states);
    var h := states[|moves|].history;
    var m := PendingAsDone(h, p);
    k := MoveOfAct(moves, states, |moves|, m);
    PlacedByTry(states[k].world, moves[k], m - |states[k].history|, p);
  }

  lemma RecordsInRun(moves: seq<Move>, states: seq<State>)
    requires IsRun(moves, states)
    ensures |states| == |moves| + 1 && states[|moves|].world.records == RecordsOf(states[|moves|].history)
  {
    RunSound(moves, states, |moves|);
  }

  lemma PlacedByTry(w: World, m: Move, i: nat, p: Record)
    requires i < |ActsOf(w, m)| && ActsOf(w, m)[i].Do? && PlacedBy(p, ActsOf(w, m)[i].op)
    ensures LeftOrder(m, p)
  {
    ActKinds(w, m, i);
    hide BySomeTurn, LeftOrder;
    if m.Tries? {
      TryRecords(w.records, m, i, p);
    }
  }

  // ---------------------------------------------------------------- with calls that heed

  /** Every call heeds the orders that its snapshots show open. */
  ghost predicate Heeding(moves: seq<Move>, states: seq<State>)
    requires |states| == |moves| + 1
  {
    forall k :: 0 <= k < |moves| && moves[k].Reconciles? ==>
      Evidence.CallHeeds(states[k].world, BlocksOf(states[k].world, moves[k]), moves[k].answers)
  }

  /** What a turn of the execution loop or a clean-up records keeps the world intact. */
  lemma AppliedIntact(s: State, m: Move)
    requires Sound(s) && May(s, m) && !m.Reconciles? && Evidence.WorldOk(s.world)
    ensures Evidence.WorldOk(MoveTo(s, m).world)
  {
    var w, acts := s.world, ActsOf(s.world, m);
    SoleAfter(OpsOf(s.history));
    if acts != [] && acts[|acts| - 1].Do? {
      var op := acts[|acts| - 1].op;
      if m.Tries? {
        TryShape(w.records, m.trade, ExecutionKey(m.trade.positionKey, m.wallet), m.attempt);
      }
      LastApplied(w, acts);
      Evidence.ChangeOk(w, op);
    } else {
      assert acts == [] || |acts| == 1;
      LastApplied(w, acts);
    }
  }

  lemma LastApplied(w: World, acts: seq<Act>)
    requires |acts| <= 2 && (|acts| == 2 ==> acts[0].Call?)
    ensures Applied(w, acts) ==
            if acts != [] && acts[|acts| - 1].Do? then Evidence.Next(w, Evidence.Change(acts[|acts| - 1].op)) else w
  {
    if acts != [] {
      assert acts[..|acts| - 1] == [] || acts[..|acts| - 1] == [acts[0]];
      assert [acts[0]][..0] == [];
    }
  }

  lemma {:induction false} HeedingIntact(moves: seq<Move>, states: seq<State>, n: nat)
    requires IsRun(moves, states) && Heeding(moves, states) && n <= |moves|
    ensures Evidence.WorldOk(states[n].world)
  {
    hide *;
    StartOfRun(moves, states);
    if n == 0 {
      Evidence.StartIntact();
    } else {
      HeedingIntact(moves, states, n - 1);
      RunSound(moves, states, n - 1);
      StepOfRun(moves, states, n - 1);
      HeededAt(moves, states, n - 1);
      MoveIntact(states[n - 1], moves[n - 1]);
    }
  }

  lemma HeededAt(moves: seq<Move>, states: seq<State>, k: nat)
    requires |states| == |moves| + 1 && k < |moves| && Heeding(moves, states)
    ensures moves[k].Reconciles? ==>
              Evidence.CallHeeds(states[k].world, BlocksOf(states[k].world, moves[k]), moves[k].answers)
  {
  }

  lemma MoveIntact(s: State, m: Move)
    requires Sound(s) && May(s, m) && Evidence.WorldOk(s.world)
    requires m.Reconciles? ==> Evidence.CallHeeds(s.world, BlocksOf(s.world, m), m.answers)
    ensures Evidence.WorldOk(MoveTo(s, m).world)
  {
    if m.Reconciles? {
      RecordsSole(s);
      Evidence.BlocksLoaded(s.world.records, m.marketId, m.outcome, m.key);
      Evidence.CallExact(s.world, BlocksOf(s.world, m), m.answers);
    } else {
      AppliedIntact(s, m);
    }
    hide Sound, May, Evidence.WorldOk, Evidence.CallHeeds, AfterCall, ActsOf, PendingBlocks;
  }

  /** Between w and r a block of the order was removed after two absences, the position not past its baseline. */
  ghost predicate RemovedOnEvidence(w: World, r: World, order: string) {
    exists x :: |w.removals| <= x < |r.removals| && r.removals[x].order == order
                && r.removals[x].absences >= 2
                && (r.removals[x].side == Buy ==>
                      r.removals[x].size - r.removals[x].baseline.GetOr(0.0) <= 0.000001)
                && (r.removals[x].side == Sell ==>
                      r.removals[x].size - r.removals[x].baseline.GetOr(0.0) >= -0.000001)
  }

  /** If moreover every call heeds, a key for which an order was recorded is not traded again until a call saw that
      order absent and the position moved past its baseline, or had it absent from two snapshots since it was last
      in one and the position not moved. */
  lemma CalledAgainOnlyOnEvidence(moves: seq<Move>, states: seq<State>, i: nat, j: nat)
    requires IsRun(moves, states) && Heeding(moves, states)
    requires var h := states[|moves|].history;
             i < j < |h| && h[j].Call? && h[i].Do? && h[i].op.OpPending? && h[i].op.key == h[j].key
    ensures var order := states[|moves|].history[i].op.order;
            exists k: nat ::
              && k < |moves| && i < |states[k].history| && |states[k + 1].history| <= j
              && (SeesFilled(states[k].world, moves[k], order)
                  || (moves[k].Reconciles?
                      && RemovedOnEvidence(states[k].world, states[k + 1].world, order)))
  {
    var order := states[|moves|].history[i].op.order;
    CalledAgainOnlyOnceSettled(moves, states, i, j);
    var k: nat :| SettledBy(moves, states, i, j, order, k);
    HeedingIntact(moves, states, k + 1);
    hide IsRun, Heeding, SeesFilled;
    var w, r := states[k].world, states[k + 1].world;
    if RemovedBetween(w, r, order) {
      var x :| |w.removals| <= x < |r.removals| && r.removals[x].order == order;
      assert r.removals[x] in r.removals;
      assert Evidence.Justified(r.removals[x]);
      assert RemovedOnEvidence(w, r, order);
    }
  }

  // ---------------------------------------------------------------- spacing, and the loop

  /** The spacing of calls after fills needs no assumption about the reconciliation. */
  lemma SpacedInRuns(moves: seq<Move>, states: seq<State>, i: nat, j: nat, t: int)
    requires IsRun(moves, states)
    requires var h := states[|moves|].history;
             && i < j < |h| && h[j].Call? && Fills(h, i, h[j].key, t)
             && forall m :: i < m < j && h[m].Do? && h[m].op.OpCleanup? && h[m].op.hours != 0.0 ==>
                  0.0 < h[j].hours <= h[m].op.hours
    ensures var call := states[|moves|].history[j];
            call.hours != 0.0 && call.at as real - t as real >= call.hours * MS_PER_HOUR
  {
    RunSound(moves, states, |moves|);
    CalledAfterPeriod(states[|moves|].history, i, j, t);
  }

  /** A clean-up drops no fill that still counts for the trade. */
  predicate Spares(trade: Trade, cleanupHours: real) {
    cleanupHours == 0.0 ||
    if !trade.noRepeatEnabled then cleanupHours * 3600000.0 >= 300000.0
    else
      match trade.noRepeatPeriodHours
      case None => cleanupHours >= 24.0
      case Some(hours) => 0.0 < hours <= cleanupHours
  }

  lemma SparesPeriod(trade: Trade, cleanupHours: real)
    requires Spares(trade, cleanupHours)
    ensures cleanupHours == 0.0 || 0.0 < AppliedHours(trade) <= cleanupHours
  {
  }

  lemma ElapsedMeans(trade: Trade, sinceMs: int)
    requires AppliedHours(trade) != 0.0 && sinceMs as real >= AppliedHours(trade) * MS_PER_HOUR
    ensures Elapsed(trade, sinceMs)
  {
  }

  lemma CalledOnceElapsed(h: seq<Act>, i: nat, j: nat, t: int, trade: Trade)
    requires Gated(h) && Orderly(h) && i < j < |h| && h[j].Call? && h[j].hours == AppliedHours(trade)
    requires Fills(h, i, h[j].key, t)
    requires forall m :: i < m < j && h[m].Do? && h[m].op.OpCleanup? ==> Spares(trade, h[m].op.hours)
    ensures Elapsed(trade, h[j].at - t)
  {
    hide Gated, Orderly, Fills, AppliedHours, Elapsed, Spares;
    forall m | i < m < j && h[m].Do? && h[m].op.OpCleanup?
      ensures h[m].op.hours == 0.0 || 0.0 < h[j].hours <= h[m].op.hours
    {
      SparesPeriod(trade, h[m].op.hours);
    }
    CalledAfterPeriod(h, i, j, t);
    ElapsedMeans(trade, h[j].at - t);
  }

  /** In numbers: over every run, a turn of the execution loop that calls the executor comes long enough after every
      recorded fill of its key, by the trade's own settings, unless a shorter clean-up came in between. */
  lemma SpacedInNumbers(moves: seq<Move>, states: seq<State>, k: nat, i: nat, t: int)
    requires IsRun(moves, states) && k < |moves| && moves[k].Tries?
    requires ActsOf(states[k].world, moves[k]) != []
    requires var h, trade := states[k].history, moves[k].trade;
             && i < |h| && Fills(h, i, ExecutionKey(trade.positionKey, moves[k].wallet), t)
             && forall m :: i < m < |h| && h[m].Do? && h[m].op.OpCleanup? ==> Spares(trade, h[m].op.hours)
    ensures Elapsed(moves[k].trade, moves[k].attempt.checkAt - t)
  {
    var h, m := states[k].history, moves[k];
    var key := ExecutionKey(m.trade.positionKey, m.wallet);
    TryCalls(moves, states, k);
    var after := states[k + 1].history;
    FillsInPrefix(h, after, i, key, t);
    hide IsRun, Gated, Orderly, Fills, ActsOf, Elapsed, Spares, AppliedHours, ExecutionKey;
    assert forall n :: 0 <= n < |h| ==> after[n] == h[n];
    CalledOnceElapsed(after, i, |h|, t, m.trade);
  }

  lemma TryCalls(moves: seq<Move>, states: seq<State>, k: nat)
    requires IsRun(moves, states) && k < |moves| && moves[k].Tries? && ActsOf(states[k].world, moves[k]) != []
    ensures |states| == |moves| + 1
    ensures var h, after, m := states[k].history, states[k + 1].history, moves[k];
            && h < after && Gated(after) && Orderly(after)
            && after[|h|] == Call(m.trade.marketId, m.trade.outcome, ExecutionKey(m.trade.positionKey, m.wallet),
                                  m.attempt.checkAt, AppliedHours(m.trade))
  {
    RunSound(moves, states, k + 1);
    StepOfRun(moves, states, k);
    var m := moves[k];
    TryShape(states[k].world.records, m.trade, ExecutionKey(m.trade.positionKey, m.wallet), m.attempt);
    hide IsRun, May, Gated, Orderly, ExecutionKey, AppliedHours, RecordOp, IsBlocked, TryTarget;
  }

  lemma FillsInPrefix(h: seq<Act>, after: seq<Act>, i: nat, key: string, t: int)
    requires h <= after && i < |h|
    ensures Fills(h, i, key, t) <==> Fills(after, i, key, t)
  {
    assert h[..i] == after[..i];
  }

  /** The state after the first n turns of the execution loop, one move each. */
  function Looped(s: State, trade: Trade, wallets: seq<Option<string>>, attempts: seq<Attempt>, n: nat): State
    requires n <= |wallets| == |attempts|
  {
    if n == 0 then s
    else MoveTo(Looped(s, trade, wallets, attempts, n - 1), Tries(trade, wallets[n - 1], attempts[n - 1]))
  }

  /** The loop makes these moves, up to the turn at which it stops. */
  lemma {:induction false} LoopIsMoves(s: State, trade: Trade, wallets: seq<Option<string>>, attempts: seq<Attempt>,
                                       n: nat)
    requires n <= |wallets| == |attempts| && s.world.records == RecordsOf(s.history)
    ensures exists m: nat :: m <= n && (Handled(s.history, trade, wallets, attempts, n).1 ==> m == n)
                             && Looped(s, trade, wallets, attempts, m).world.records
                                == RecordsOf(Looped(s, trade, wallets, attempts, m).history)
                             && Looped(s, trade, wallets, attempts, m).history
                                == Handled(s.history, trade, wallets, attempts, n).0
  {
    hide TryTarget, RecordsOf, Applied;
    if n > 0 {
      LoopIsMoves(s, trade, wallets, attempts, n - 1);
      if Handled(s.history, trade, wallets, attempts, n - 1).1 {
        var before := Looped(s, trade, wallets, attempts, n - 1);
        var m := Tries(trade, wallets[n - 1], attempts[n - 1]);
        AppliedRecords(before.history, before.world, ActsOf(before.world, m));
        assert Looped(s, trade, wallets, attempts, n) == MoveTo(before, m);
      }
    } else {
      assert Looped(s, trade, wallets, attempts, 0) == s;
    }
  }
}
