/**
 * Detection of new trades by a timestamp cursor per wallet (src/walletMonitor.ts): which rows of
 * the feed a polling cycle delivers, and what the sequence of cycles guarantees.
 */
module DetectionCursor {
  import opened Lists
  import opened Options
  import opened Rounding

  const FALLBACK_WINDOW_MS := 300000
  const SECONDS_BELOW := 1000000000000.0                  // numbers below this are Unix seconds
  const YEAR_2020_MS := 1577836800000

  /** The last moment a `Date` can hold; `toISOString` throws beyond it. */
  const MAX_DATE_MS := 8640000000000000

  /** The time of a `Date`. */
  type Millis = t: int | -MAX_DATE_MS <= t <= MAX_DATE_MS

  /** A feed timestamp: a number, or a text with its value as a date and its leading integer, if any. */
  datatype Stamp = Number(value: real) | Text(date: Option<int>, leading: Option<int>) | Absent

  datatype Row = Row(transactionHash: string, timestamp: Stamp)

  /** Milliseconds; None stands for not-a-number. */
  function TradeTime(s: Stamp): Option<real> {
    match s
    case Number(v) => Some(if v < SECONDS_BELOW then v * 1000.0 else v)
    case Text(None, _) => None
    case Text(Some(d), leading) =>
      if d < YEAR_2020_MS then (match leading case Some(n) => Some((n * 1000) as real) case None => None)
      else Some(d as real)
    case Absent => Some(0.0)
  }

  /** The same moment given in seconds or in milliseconds, as a number, a date text or a text of digits, is the same
      time, from September 2001 on (from 2020 on for date texts) and for the next thirty thousand years. */
  lemma SecondsAndMillisAgree(ms: int, leading: Option<int>, early: int)
    requires 1000000000000 <= ms < 1000000000000000
    ensures TradeTime(Number(ms as real)) == Some(ms as real)
    ensures TradeTime(Number(ms as real / 1000.0)) == Some(ms as real)
    ensures ms >= 1577836800000 ==> TradeTime(Text(Some(ms), leading)) == Some(ms as real)
    ensures ms % 1000 == 0 && early < 1577836800000 ==>
              TradeTime(Text(Some(early), Some(ms / 1000))) == Some(ms as real)
  {
  }

  /** A text that is no date, or an early date without leading digits, has no time; an absent one has time 0. */
  lemma NoTime(leading: Option<int>, early: int)
    requires early < 1577836800000
    ensures TradeTime(Text(None, leading)).None? && TradeTime(Text(Some(early), None)).None?
    ensures !Valid(Row("", Absent)) && !Valid(Row("", Text(None, leading)))
    ensures forall v: real :: Valid(Row("", Number(v))) <==> v > 0.0
  {
  }

  predicate Valid(r: Row) {
    TradeTime(r.timestamp).Some? && TradeTime(r.timestamp).value > 0.0
  }

  function TimeOf(r: Row): real
    requires Valid(r)
  {
    TradeTime(r.timestamp).value
  }

  /** Logging such a row throws: the wallet's cycle ends there and its cursor is not stored. */
  predicate OutOfRange(r: Row) {
    Valid(r) && TimeOf(r) > MAX_DATE_MS as real
  }

  predicate Completes(feed: seq<Row>) {
    forall r :: r in feed ==> !OutOfRange(r)
  }

  /** The rows before the first out of range. */
  function Reached(feed: seq<Row>): seq<Row> {
    feed[..FindFirst(feed, OutOfRange)]
  }

  function Cursor(lastSeen: Option<Millis>, now: Millis): (c: int)
    ensures c <= MAX_DATE_MS
  {
    match lastSeen case Some(t) => t case None => now - FALLBACK_WINDOW_MS
  }

  predicate IsNew(r: Row, cursor: int) {
    Valid(r) && TimeOf(r) > cursor as real
  }

  function News(rows: seq<Row>, cursor: int): seq<Row> {
    if rows == [] then []
    else
      var last := rows[|rows| - 1];
      News(rows[..|rows| - 1], cursor) + if IsNew(last, cursor) then [last] else []
  }

  function Delivered(feed: seq<Row>, cursor: int): seq<Row> {
    News(Reached(feed), cursor)
  }

  function MaxSeen(feed: seq<Row>, cursor: int): (m: real)
    ensures m >= cursor as real && (m > cursor as real ==> m > 0.0)
    ensures Completes(feed) && cursor <= MAX_DATE_MS ==> m <= MAX_DATE_MS as real
  {
    if feed == [] then cursor as real
    else
      var last, before := feed[|feed| - 1], MaxSeen(feed[..|feed| - 1], cursor);
      assert last in feed;
      if IsNew(last, cursor) then Max(before, TimeOf(last)) else before
  }

  /** A stored date keeps whole milliseconds; a cycle that does not complete stores nothing. */
  function NextSeen(lastSeen: Option<Millis>, feed: seq<Row>, now: Millis): Option<Millis> {
    var cursor := Cursor(lastSeen, now);
    if Completes(feed) && MaxSeen(feed, cursor) > cursor as real then
      Floors(cursor, MaxSeen(feed, cursor));
      var t: Millis := MaxSeen(feed, cursor).Floor;
      Some(t)
    else lastSeen
  }

  lemma Floors(cursor: int, m: real)
    requires cursor as real < m <= MAX_DATE_MS as real && m > 0.0
    ensures cursor <= m.Floor <= MAX_DATE_MS && 0 <= m.Floor
  {
  }

  class TrackedWallet {
    var lastSeen: Option<Millis>

    constructor (seen: Option<Millis>)
      ensures lastSeen == seen
    {
      lastSeen := seen;
    }

    /** Lines 201-285, with the write of the cursor succeeding. */
    method CheckForTrades(recentTrades: seq<Row>, now: Millis) returns (processed: seq<Row>)
      modifies this`lastSeen
      ensures processed == Delivered(recentTrades, Cursor(old(lastSeen), now))
      ensures lastSeen == NextSeen(old(lastSeen), recentTrades, now)
    {
      var cursorMs := if lastSeen.Some? then lastSeen.value else now - FALLBACK_WINDOW_MS;
      var maxSeenTradeTime := cursorMs as real;
      processed := [];
      for i := 0 to |recentTrades|
        invariant forall j :: 0 <= j < i ==> !OutOfRange(recentTrades[j])
        invariant processed == News(recentTrades[..i], cursorMs)
        invariant maxSeenTradeTime == MaxSeen(recentTrades[..i], cursorMs)
      {
        var trade := recentTrades[i];
        assert recentTrades[..i + 1][..i] == recentTrades[..i];
        var tradeTime := TradeTime(trade.timestamp);
        if tradeTime.None? || tradeTime.value <= 0.0 {
          continue;
        }
        if tradeTime.value <= cursorMs as real {
          continue;
        }
        if tradeTime.value > maxSeenTradeTime {
          maxSeenTradeTime := tradeTime.value;
        }
        if tradeTime.value > MAX_DATE_MS as real {
          assert OutOfRange(recentTrades[i]);
          return;
        }
        processed := processed + [trade];
      }
      assert recentTrades[..|recentTrades|] == recentTrades;
      if maxSeenTradeTime > cursorMs as real {
        Floors(cursorMs, maxSeenTradeTime);
        var t: Millis := maxSeenTradeTime.Floor;
        lastSeen := Some(t);
      }
    }
  }

  // ---------------------------------------------------------------- cycles

  datatype Cycle = Cycle(now: Millis, feed: seq<Row>)

  function SeenAfter(start: Option<Millis>, cycles: seq<Cycle>): Option<Millis> {
    if cycles == [] then start
    else NextSeen(SeenAfter(start, cycles[..|cycles| - 1]), cycles[|cycles| - 1].feed, cycles[|cycles| - 1].now)
  }

  function CursorAt(start: Option<Millis>, cycles: seq<Cycle>, i: nat): int
    requires i < |cycles|
  {
    Cursor(SeenAfter(start, cycles[..i]), cycles[i].now)
  }

  ghost predicate DeliveredAt(start: Option<Millis>, cycles: seq<Cycle>, i: nat, r: Row)
    requires i < |cycles|
  {
    r in Delivered(cycles[i].feed, CursorAt(start, cycles, i))
  }

  ghost predicate ClockForward(cycles: seq<Cycle>) {
    forall i, j :: 0 <= i < j < |cycles| ==> cycles[i].now <= cycles[j].now
  }

  lemma {:induction false} NewsMembers(rows: seq<Row>, cursor: int, r: Row)
    ensures r in News(rows, cursor) <==> r in rows && IsNew(r, cursor)
    ensures r in rows && IsNew(r, cursor) ==> TimeOf(r) <= MaxSeen(rows, cursor)
    ensures MaxSeen(rows, cursor) > cursor as real ==>
              exists q :: q in rows && IsNew(q, cursor) && TimeOf(q) == MaxSeen(rows, cursor)
  {
    if rows != [] {
      NewsMembers(rows[..|rows| - 1], cursor, r);
      assert rows == rows[..|rows| - 1] + [rows[|rows| - 1]];
    }
  }

  /** A cycle delivers exactly the rows later than its cursor that come before any row out of range; if there is
      none of those, its maximum is the latest row it delivers. */
  lemma CycleDelivers(feed: seq<Row>, cursor: int, r: Row)
    ensures r in Delivered(feed, cursor) <==> r in Reached(feed) && IsNew(r, cursor)
    ensures Completes(feed) <==> Reached(feed) == feed
    ensures Completes(feed) && r in feed && IsNew(r, cursor) ==> TimeOf(r) <= MaxSeen(feed, cursor)
    ensures MaxSeen(feed, cursor) > cursor as real ==>
              exists q :: q in feed && IsNew(q, cursor) && TimeOf(q) == MaxSeen(feed, cursor)
  {
    NewsMembers(Reached(feed), cursor, r);
    NewsMembers(feed, cursor, r);
    var n := FindFirst(feed, OutOfRange);
    assert n < |feed| ==> feed[n] in feed && Reached(feed) != feed;
    assert feed[..|feed|] == feed;
  }

  lemma NextCursor(seen: Option<Millis>, c: Cycle, later: Millis)
    requires c.now <= later
    ensures Cursor(NextSeen(seen, c.feed, c.now), later) >= Cursor(seen, c.now)
    ensures Completes(c.feed) && MaxSeen(c.feed, Cursor(seen, c.now)) > Cursor(seen, c.now) as real ==>
              Cursor(NextSeen(seen, c.feed, c.now), later) == MaxSeen(c.feed, Cursor(seen, c.now)).Floor
  {
  }

  /** The cursor never decreases. */
  lemma {:induction false} CursorNeverDecreases(start: Option<Millis>, cycles: seq<Cycle>, i: nat, j: nat)
    requires ClockForward(cycles) && i <= j < |cycles|
    ensures CursorAt(start, cycles, i) <= CursorAt(start, cycles, j)
  {
    if i < j {
      CursorNeverDecreases(start, cycles, i, j - 1);
      assert cycles[..j][..j - 1] == cycles[..j - 1];
      NextCursor(SeenAfter(start, cycles[..j - 1]), cycles[j - 1], cycles[j].now);
    }
  }

  /** What a complete cycle saw is at or before the cursor of every later cycle, up to the fraction of a millisecond. */
  lemma CursorPasses(start: Option<Millis>, cycles: seq<Cycle>, i: nat, j: nat, r: Row)
    requires ClockForward(cycles) && i < j < |cycles|
    requires Completes(cycles[i].feed) && r in cycles[i].feed && Valid(r)
    ensures TimeOf(r).Floor <= CursorAt(start, cycles, j)
  {
    var cursor := CursorAt(start, cycles, i);
    assert cycles[..i + 1][..i] == cycles[..i];
    NextCursor(SeenAfter(start, cycles[..i]), cycles[i], cycles[i + 1].now);
    CursorNeverDecreases(start, cycles, i + 1, j);
    if IsNew(r, cursor) {
      CycleDelivers(cycles[i].feed, cursor, r);
      assert TimeOf(r).Floor <= MaxSeen(cycles[i].feed, cursor).Floor;
    } else {
      CursorNeverDecreases(start, cycles, i, j);
    }
  }

  predicate WholeMs(r: Row)
    requires Valid(r)
  {
    TimeOf(r) == TimeOf(r).Floor as real
  }

  ghost predicate Repeats(start: Option<Millis>, cycles: seq<Cycle>, r: Row) {
    exists i: nat, j: nat :: i < j < |cycles| && DeliveredAt(start, cycles, i, r) && DeliveredAt(start, cycles, j, r)
  }

  /** Every cycle that delivers the row completes. */
  ghost predicate Undisturbed(start: Option<Millis>, cycles: seq<Cycle>, r: Row) {
    forall i: nat :: i < |cycles| && DeliveredAt(start, cycles, i, r) ==> Completes(cycles[i].feed)
  }

  /** No run whose cycles complete where they deliver the row delivers it twice, exactly when its time is a whole
      number of milliseconds. */
  lemma AtMostOnceExactly(r: Row)
    requires Valid(r) && !OutOfRange(r)
    ensures (forall start: Option<Millis>, cycles: seq<Cycle> ::
               ClockForward(cycles) && Undisturbed(start, cycles, r) ==> !Repeats(start, cycles, r))
            <==> WholeMs(r)
  {
    if WholeMs(r) {
      forall start: Option<Millis>, cycles: seq<Cycle> | ClockForward(cycles) && Undisturbed(start, cycles, r)
        ensures !Repeats(start, cycles, r)
      {
        forall i: nat, j: nat | i < j < |cycles| && DeliveredAt(start, cycles, i, r)
          ensures !DeliveredAt(start, cycles, j, r)
        {
          CycleDelivers(cycles[i].feed, CursorAt(start, cycles, i), r);
          CursorPasses(start, cycles, i, j, r);
          CycleDelivers(cycles[j].feed, CursorAt(start, cycles, j), r);
        }
      }
    } else {
      FractionRepeats(r);
    }
  }

  lemma FractionRepeats(r: Row)
    requires Valid(r) && !OutOfRange(r) && !WholeMs(r)
    ensures exists start: Option<Millis>, cycles: seq<Cycle> ::
              ClockForward(cycles) && Undisturbed(start, cycles, r) && Repeats(start, cycles, r)
  {
    var cursor: Millis := TimeOf(r).Floor;
    var c := Cycle(0, [r]);
    var start, cycles := Some(cursor), [c, c];
    assert cycles[..0] == [] && cycles[..1] == [c] && [c][..0] == [];
    CycleDelivers([r], cursor, r);
    assert c.feed[..0] == [];
    assert MaxSeen(c.feed, cursor) == TimeOf(r);
    assert SeenAfter(start, [c]) == NextSeen(start, c.feed, 0) == Some(cursor);
    assert DeliveredAt(start, cycles, 0, r) && DeliveredAt(start, cycles, 1, r);
    assert Repeats(start, cycles, r);
  }

  /** The ranges of times that two cycles deliver do not overlap. */
  lemma RangesDisjoint(start: Option<Millis>, cycles: seq<Cycle>, i: nat, j: nat, q: Row, r: Row)
    requires ClockForward(cycles) && i < j < |cycles|
    requires DeliveredAt(start, cycles, i, q) && DeliveredAt(start, cycles, j, r)
    ensures Valid(q) && Valid(r)
    ensures WholeMs(q) && Completes(cycles[i].feed) ==> TimeOf(q) <= CursorAt(start, cycles, j) as real < TimeOf(r)
  {
    CycleDelivers(cycles[i].feed, CursorAt(start, cycles, i), q);
    CycleDelivers(cycles[j].feed, CursorAt(start, cycles, j), r);
    if Completes(cycles[i].feed) {
      CursorPasses(start, cycles, i, j, q);
    }
  }

  // ---------------------------------------------------------------- what is delivered at all

  /** No complete cycle from the `i`th and before the `k`th saw a time whose whole milliseconds reach the row's. */
  ghost predicate NothingLater(cycles: seq<Cycle>, i: nat, k: nat, r: Row)
    requires i <= k <= |cycles| && Valid(r)
  {
    forall m: nat, q :: i <= m < k && Completes(cycles[m].feed) && q in cycles[m].feed && Valid(q) ==>
      TimeOf(q).Floor as real < TimeOf(r)
  }

  /** A complete cycle before the `k`th saw a time within its window: a wallet without a cursor has one by then. */
  ghost predicate Started(cycles: seq<Cycle>, k: nat)
    requires k <= |cycles|
  {
    exists m: nat, q :: m < k && Completes(cycles[m].feed) && q in cycles[m].feed
                        && Valid(q) && TimeOf(q) > (cycles[m].now - 300000) as real
  }

  /** A complete cycle before the `k`th saw a time of c whole milliseconds. */
  ghost predicate SawTime(cycles: seq<Cycle>, k: nat, c: int)
    requires k <= |cycles|
  {
    exists m: nat, q :: m < k && Completes(cycles[m].feed) && q in cycles[m].feed && Valid(q) && TimeOf(q).Floor == c
  }

  /** c is the latest of the first cursor, if any, and the times that complete cycles saw. */
  ghost predicate Latest(start: Option<Millis>, cycles: seq<Cycle>, k: nat, c: int)
    requires k <= |cycles|
  {
    && (forall m: nat, q :: m < k && Completes(cycles[m].feed) && q in cycles[m].feed && Valid(q) ==>
          TimeOf(q).Floor <= c)
    && (start.Some? ==> start.value <= c)
    && (start == Some(c) || SawTime(cycles, k, c))
  }

  /** What is stored before the `k`th cycle, from the feeds and the clock alone. */
  ghost predicate StoredIs(start: Option<Millis>, cycles: seq<Cycle>, k: nat, seen: Option<Millis>)
    requires k <= |cycles|
  {
    && (seen.Some? <==> start.Some? || Started(cycles, k))
    && (seen.Some? ==> Latest(start, cycles, k, seen.value))
  }

  /** Before it has a cursor a wallet saw nothing after the window of the `k`th cycle. */
  lemma BeforeWindow(cycles: seq<Cycle>, k: nat)
    requires k < |cycles| && ClockForward(cycles) && !Started(cycles, k)
    ensures forall m: nat, q :: m < k && Completes(cycles[m].feed) && q in cycles[m].feed && Valid(q) ==>
              TimeOf(q) <= (cycles[k].now - FALLBACK_WINDOW_MS) as real
  {
    forall m: nat, q | m < k && Completes(cycles[m].feed) && q in cycles[m].feed && Valid(q)
      ensures TimeOf(q) <= (cycles[k].now - FALLBACK_WINDOW_MS) as real
    {
      assert !IsNew(q, cycles[m].now - FALLBACK_WINDOW_MS);
    }
  }

  /** The cycle moves the cursor to the latest time it saw. */
  lemma StoreRaised(start: Option<Millis>, cycles: seq<Cycle>, k: nat, seen: Option<Millis>, q: Row)
    requires k < |cycles| && ClockForward(cycles) && StoredIs(start, cycles, k, seen) && Completes(cycles[k].feed)
    requires q in cycles[k].feed && IsNew(q, Cursor(seen, cycles[k].now))
    requires forall p :: p in cycles[k].feed && Valid(p) ==>
               TimeOf(p) <= Cursor(seen, cycles[k].now) as real || TimeOf(p) <= TimeOf(q)
    ensures Latest(start, cycles, k + 1, TimeOf(q).Floor) && (start.Some? || Started(cycles, k + 1))
  {
    var c := TimeOf(q).Floor;
    if !seen.Some? {
      BeforeWindow(cycles, k);
    }
    forall m: nat, p | m < k + 1 && Completes(cycles[m].feed) && p in cycles[m].feed && Valid(p)
      ensures TimeOf(p).Floor <= c
    {
      if m < k && seen.Some? {
        assert TimeOf(p).Floor <= seen.value;
      }
    }
    assert SawTime(cycles, k + 1, c);
    if Started(cycles, k) {
      StartedLater(cycles, k);
    }
  }

  lemma StartedLater(cycles: seq<Cycle>, k: nat)
    requires k < |cycles| && Started(cycles, k)
    ensures Started(cycles, k + 1)
  {
  }

  /** A cycle that stores nothing saw nothing later than its cursor, or did not complete. */
  lemma StoreKept(start: Option<Millis>, cycles: seq<Cycle>, k: nat, seen: Option<Millis>)
    requires k < |cycles| && StoredIs(start, cycles, k, seen)
    requires Completes(cycles[k].feed) ==>
               forall p :: p in cycles[k].feed && Valid(p) ==> !IsNew(p, Cursor(seen, cycles[k].now))
    ensures StoredIs(start, cycles, k + 1, seen)
  {
    if Started(cycles, k) {
      StartedLater(cycles, k);
    }
    if seen.Some? && SawTime(cycles, k, seen.value) {
      var m: nat, q :| m < k && Completes(cycles[m].feed) && q in cycles[m].feed && Valid(q)
                       && TimeOf(q).Floor == seen.value;
      assert SawTime(cycles, k + 1, seen.value);
    }
  }

  lemma StoreStep(start: Option<Millis>, cycles: seq<Cycle>, k: nat, seen: Option<Millis>)
    requires k < |cycles| && ClockForward(cycles) && StoredIs(start, cycles, k, seen)
    ensures StoredIs(start, cycles, k + 1, NextSeen(seen, cycles[k].feed, cycles[k].now))
  {
    hide StoredIs;
    var c := cycles[k];
    var cursor := Cursor(seen, c.now);
    forall p | p in c.feed && IsNew(p, cursor)
      ensures Completes(c.feed) ==> TimeOf(p) <= MaxSeen(c.feed, cursor)
    {
      CycleDelivers(c.feed, cursor, p);
    }
    if Completes(c.feed) && MaxSeen(c.feed, cursor) > cursor as real {
      CycleDelivers(c.feed, cursor, Row("", Absent));
      var q :| q in c.feed && IsNew(q, cursor) && TimeOf(q) == MaxSeen(c.feed, cursor);
      StoreRaised(start, cycles, k, seen, q);
      StoredRaised(start, cycles, k, NextSeen(seen, c.feed, c.now), TimeOf(q).Floor);
    } else {
      StoreKept(start, cycles, k, seen);
    }
  }

  lemma StoredRaised(start: Option<Millis>, cycles: seq<Cycle>, k: nat, next: Option<Millis>, c: int)
    requires k < |cycles| && Latest(start, cycles, k + 1, c) && (start.Some? || Started(cycles, k + 1))
    requires next.Some? && next.value == c
    ensures StoredIs(start, cycles, k + 1, next)
  {
  }

  /** The stored cursor is the latest of the first one and the times that complete cycles saw. */
  lemma {:induction false} StoredExactly(start: Option<Millis>, cycles: seq<Cycle>, k: nat)
    requires ClockForward(cycles) && k <= |cycles|
    ensures StoredIs(start, cycles, k, SeenAfter(start, cycles[..k]))
  {
    if k > 0 {
      hide NextSeen, StoredIs, ClockForward;
      StoredExactly(start, cycles, k - 1);
      assert cycles[..k][..k - 1] == cycles[..k - 1];
      StoreStep(start, cycles, k - 1, SeenAfter(start, cycles[..k - 1]));
    }
  }

  /** A cycle delivers a row exactly when it reaches it, no complete cycle before saw a time whose whole milliseconds
      reach the row's, and the row is later than the wallet's first cursor; for a wallet without one, until a complete
      cycle saw a time within its window, than the start of the present window. */
  lemma DeliveredAtExactly(start: Option<Millis>, cycles: seq<Cycle>, k: nat, r: Row)
    requires ClockForward(cycles) && k < |cycles| && Valid(r)
    ensures DeliveredAt(start, cycles, k, r)
            <==> r in Reached(cycles[k].feed) && NothingLater(cycles, 0, k, r) && Admits(start, cycles, k, r)
  {
    var seen := SeenAfter(start, cycles[..k]);
    StoredExactly(start, cycles, k);
    CycleDelivers(cycles[k].feed, CursorAt(start, cycles, k), r);
    hide SeenAfter, NextSeen, Completes;
    if seen.Some? {
      LatestBelow(start, cycles, k, seen.value, r);
    } else {
      BeforeWindow(cycles, k);
    }
  }

  /** The row is later than the cursor or window that the `k`th cycle starts from when nothing was seen. */
  ghost predicate Admits(start: Option<Millis>, cycles: seq<Cycle>, k: nat, r: Row)
    requires k < |cycles| && Valid(r)
  {
    match start
    case Some(c0) => TimeOf(r) > c0 as real
    case None => Started(cycles, k) || TimeOf(r) > (cycles[k].now - 300000) as real
  }

  lemma LatestBelow(start: Option<Millis>, cycles: seq<Cycle>, k: nat, c: int, r: Row)
    requires k < |cycles| && Valid(r) && Latest(start, cycles, k, c)
    ensures TimeOf(r) > c as real
            <==> NothingLater(cycles, 0, k, r) && (start.Some? ==> TimeOf(r) > start.value as real)
  {
  }

  /** A row is ever delivered exactly when some cycle reaches it in time and admits it. */
  lemma DeliveredExactly(start: Option<Millis>, cycles: seq<Cycle>, r: Row)
    requires ClockForward(cycles) && Valid(r)
    ensures (exists k: nat :: k < |cycles| && DeliveredAt(start, cycles, k, r))
            <==> exists k: nat :: k < |cycles| && r in Reached(cycles[k].feed)
                                  && NothingLater(cycles, 0, k, r) && Admits(start, cycles, k, r)
  {
    forall k: nat | k < |cycles|
      ensures DeliveredAt(start, cycles, k, r)
              <==> r in Reached(cycles[k].feed) && NothingLater(cycles, 0, k, r) && Admits(start, cycles, k, r)
    {
      DeliveredAtExactly(start, cycles, k, r);
    }
  }

  /** After a cycle that delivered it a row is delivered again exactly by the cycles that reach it before a complete
      cycle, this one included, has seen a time whose whole milliseconds reach its own, and that still admit it. A row
      at a whole millisecond must have been cut short the first time. */
  lemma DeliveredAgainExactly(start: Option<Millis>, cycles: seq<Cycle>, i: nat, j: nat, r: Row)
    requires ClockForward(cycles) && i < j < |cycles| && DeliveredAt(start, cycles, i, r) && Valid(r)
    ensures DeliveredAt(start, cycles, j, r)
            <==> r in Reached(cycles[j].feed) && NothingLater(cycles, i, j, r) && Admits(start, cycles, j, r)
    ensures DeliveredAt(start, cycles, j, r) && WholeMs(r) ==> !Completes(cycles[i].feed)
  {
    CycleDelivers(cycles[i].feed, CursorAt(start, cycles, i), r);
    DeliveredAtExactly(start, cycles, i, r);
    DeliveredAtExactly(start, cycles, j, r);
    hide DeliveredAt, Completes, Admits;
    assert NothingLater(cycles, 0, j, r) <==> NothingLater(cycles, 0, i, r) && NothingLater(cycles, i, j, r);
  }

  /** One row out of range stops the wallet's cursor: a row before it in the feed is delivered by every cycle, a row
      behind it by none. */
  lemma OutOfRangeStopsCursor(c0: Millis, now: Millis, r: Row, late: Row)
    requires Valid(r) && TimeOf(r) <= 8640000000000000.0 && TimeOf(r) > c0 as real
    requires Valid(late) && TimeOf(late) > 8640000000000000.0
    ensures var before, behind := Cycle(now, [r, late]), Cycle(now, [late, r]);
            && (forall n: nat, k: nat :: k < n ==> DeliveredAt(Some(c0), Always(before, n), k, r))
            && (forall n: nat, k: nat :: k < n ==> !DeliveredAt(Some(c0), Always(behind, n), k, r))
  {
    var before, behind := Cycle(now, [r, late]), Cycle(now, [late, r]);
    assert before.feed[0] == r && before.feed[1] == late && behind.feed[0] == late;
    assert Reached(before.feed) == [r] && Reached(behind.feed) == [];
    forall n: nat, k: nat | k < n
      ensures DeliveredAt(Some(c0), Always(before, n), k, r) && !DeliveredAt(Some(c0), Always(behind, n), k, r)
    {
      StoppedCursor(c0, before, n, k);
      CycleDelivers(before.feed, c0, r);
      CycleDelivers(behind.feed, CursorAt(Some(c0), Always(behind, n), k), r);
    }
  }

  function Always(c: Cycle, n: nat): seq<Cycle> {
    seq(n, i => c)
  }

  lemma {:induction false} StoppedCursor(c0: Millis, c: Cycle, n: nat, k: nat)
    requires k <= n && !Completes(c.feed)
    ensures SeenAfter(Some(c0), Always(c, n)[..k]) == Some(c0)
  {
    if k > 0 {
      StoppedCursor(c0, c, n, k - 1);
      assert Always(c, n)[..k][..k - 1] == Always(c, n)[..k - 1];
    }
  }

  // ---------------------------------------------------------------- one cycle at a time

  /** The interval timer fires, or the running cycle settles. */
  datatype PollEvent = TimerFires | CycleSettles

  datatype Poll = Poll(inProgress: bool, running: nat)

  /** Lines 111-124: the guard, and the flag cleared in `finally`. */
  function PollStep(p: Poll, e: PollEvent): Poll {
    match e
    case TimerFires => if p.inProgress then p else Poll(true, p.running + 1)
    case CycleSettles => if p.running == 0 then p else Poll(false, p.running - 1)
  }

  function PollAfter(events: seq<PollEvent>): Poll {
    if events == [] then Poll(false, 0) else PollStep(PollAfter(events[..|events| - 1]), events[|events| - 1])
  }

  /** However the timer fires, at most one cycle runs, and the flag is up just while it does. */
  lemma {:induction false} OneCycleAtATime(events: seq<PollEvent>)
    ensures PollAfter(events).running <= 1
    ensures PollAfter(events).inProgress <==> PollAfter(events).running == 1
    ensures PollAfter(events + [TimerFires]).running == 1 && PollAfter(events + [CycleSettles]).running == 0
  {
    assert (events + [TimerFires])[..|events|] == events && (events + [CycleSettles])[..|events|] == events;
    if events != [] {
      OneCycleAtATime(events[..|events| - 1]);
    }
  }
}
