/**
 * What one scan of the rotation does: which entries it examines, whom it picks
 * and in which order it leaves the list. The scan bound of the code is compared
 * with the bound taken on entry.
 */
module RateLimiterRotation {
  import opened Options
  import opened RateLimiter

  /** The entries that survive being examined, in order. */
  function Kept(s: State, xs: seq<Tenant>): (r: seq<Tenant>)
    ensures |r| + StaleCount(s, xs) == |xs|
  {
    if xs == [] then []
    else Kept(s, xs[..|xs| - 1]) + (if Stale(s, xs[|xs| - 1]) then [] else [xs[|xs| - 1]])
  }

  function StaleCount(s: State, xs: seq<Tenant>): (n: nat)
    ensures n <= |xs|
  {
    if xs == [] then 0
    else StaleCount(s, xs[..|xs| - 1]) + (if Stale(s, xs[|xs| - 1]) then 1 else 0)
  }

  predicate NoneEligible(env: Env, s: State, xs: seq<Tenant>) {
    forall t | t in xs :: !Eligible(env, s, t)
  }

  /** `order`, scanned from its front, is left as `r` after `e` entries were examined. */
  ghost predicate Scanned(env: Env, s: State, order: seq<Tenant>, r: (seq<Tenant>, Option<Tenant>), e: nat) {
    && e <= |order|
    && r.0 == order[e..] + Kept(s, order[..e])
    && match r.1
       case None => NoneEligible(env, s, order[..e])
       case Some(t) => e > 0 && t == order[e - 1] && Eligible(env, s, t) && NoneEligible(env, s, order[..e - 1])
  }

  /** The list after the first i entries were examined and none was picked. */
  function Rotated(s: State, order: seq<Tenant>, i: nat): seq<Tenant>
    requires i <= |order|
  {
    order[i..] + Kept(s, order[..i])
  }

  lemma RotatedNext(s: State, order: seq<Tenant>, i: nat)
    requires i < |order|
    ensures |Rotated(s, order, i)| == |order| - StaleCount(s, order[..i])
    ensures Rotated(s, order, i) != [] && Rotated(s, order, i)[0] == order[i]
    ensures Rotated(s, order, i + 1) ==
              if Stale(s, order[i]) then Rotated(s, order, i)[1..] else Rotated(s, order, i)[1..] + [order[i]]
  {
    assert order[..i + 1][..i] == order[..i];
  }

  lemma StaleCountMonotone(s: State, order: seq<Tenant>, i: nat, j: nat)
    requires i <= j <= |order|
    ensures StaleCount(s, order[..i]) <= StaleCount(s, order[..j])
  {
    if i < j {
      StaleCountMonotone(s, order, i, j - 1);
      assert order[..j][..j - 1] == order[..j - 1];
    }
  }

  /** One iteration of either loop. */
  lemma ScanStep(env: Env, s: State, order: seq<Tenant>, i: nat)
    requires i < |order|
    ensures |Rotated(s, order, i)| >= |order| - i
    ensures i < |Rotated(s, order, i)| ==>
              ScanLive(env, s, Rotated(s, order, i), i) ==
              if Eligible(env, s, order[i]) then (Rotated(s, order, i + 1), Some(order[i]))
              else ScanLive(env, s, Rotated(s, order, i + 1), i + 1)
    ensures |Rotated(s, order, i + 1)| >= |order| - (i + 1)
    ensures ScanEntry(env, s, Rotated(s, order, i), |order| - i) ==
            if Eligible(env, s, order[i]) then (Rotated(s, order, i + 1), Some(order[i]))
            else ScanEntry(env, s, Rotated(s, order, i + 1), |order| - (i + 1))
  {
    RotatedNext(s, order, i);
  }

  /** The live bound still covers position k when the entries before it are examined. */
  predicate WithinLiveBound(s: State, order: seq<Tenant>, k: nat)
    requires k <= |order|
  {
    k + StaleCount(s, order[..k]) < |order|
  }

  /** The bound that ended the live scan, or had not ended it yet. */
  ghost predicate LiveStop(s: State, order: seq<Tenant>, r: (seq<Tenant>, Option<Tenant>), e: nat)
    requires e <= |order|
  {
    if r.1.None? then !WithinLiveBound(s, order, e) else e > 0 && WithinLiveBound(s, order, e - 1)
  }

  lemma {:induction false} LiveScanShape(env: Env, s: State, order: seq<Tenant>, i: nat) returns (e: nat)
    requires i <= |order| && NoneEligible(env, s, order[..i])
    ensures i <= e && Scanned(env, s, order, ScanLive(env, s, Rotated(s, order, i), i), e)
    ensures LiveStop(s, order, ScanLive(env, s, Rotated(s, order, i), i), e)
    decreases |order| - i
  {
    if i == |order| {
      e := i;
    } else if i >= |Rotated(s, order, i)| {
      e := i;
      RotatedNext(s, order, i);
    } else {
      ScanStep(env, s, order, i);
      NoneEligibleNext(env, s, order, i);
      if Eligible(env, s, order[i]) {
        e := i + 1;
      } else {
        e := LiveScanShape(env, s, order, i + 1);
      }
    }
  }

  lemma NoneEligibleNext(env: Env, s: State, order: seq<Tenant>, i: nat)
    requires i < |order| && NoneEligible(env, s, order[..i])
    ensures !Eligible(env, s, order[i]) ==> NoneEligible(env, s, order[..i + 1])
  {
    assert order[..i + 1] == order[..i] + [order[i]];
  }

  lemma {:induction false} EntryScanShape(env: Env, s: State, order: seq<Tenant>, i: nat) returns (e: nat)
    requires i <= |order| && NoneEligible(env, s, order[..i])
    ensures |Rotated(s, order, i)| >= |order| - i
    ensures i <= e && Scanned(env, s, order, ScanEntry(env, s, Rotated(s, order, i), |order| - i), e)
    ensures ScanEntry(env, s, Rotated(s, order, i), |order| - i).1.None? ==> e == |order|
    decreases |order| - i
  {
    if i == |order| {
      e := i;
    } else {
      ScanStep(env, s, order, i);
      NoneEligibleNext(env, s, order, i);
      if Eligible(env, s, order[i]) {
        e := i + 1;
      } else {
        e := EntryScanShape(env, s, order, i + 1);
      }
    }
  }

  /** Either scan examines some number of entries from the front. */
  lemma PickShape(env: Env, s: State) returns (e: nat)
    ensures Scanned(env, s, s.order, Pick(env, s), e)
    ensures env.bound == LiveLength ==> LiveStop(s, s.order, Pick(env, s), e)
    ensures env.bound == EntryLength && Pick(env, s).1.None? ==> e == |s.order|
  {
    assert Rotated(s, s.order, 0) == s.order;
    match env.bound
    case LiveLength => e := LiveScanShape(env, s, s.order, 0);
    case EntryLength => e := EntryScanShape(env, s, s.order, 0);
  }

  // ---------------------------------------------------------------- who is found

  /** Position of the first eligible entry, or |xs| if there is none. */
  function FirstEligible(env: Env, s: State, xs: seq<Tenant>): (k: nat)
    ensures k <= |xs|
    ensures NoneEligible(env, s, xs[..k])
    ensures k < |xs| ==> Eligible(env, s, xs[k])
  {
    if xs == [] then 0
    else if Eligible(env, s, xs[0]) then 0
    else
      var k := FirstEligible(env, s, xs[1..]);
      assert xs[..k + 1] == [xs[0]] + xs[1..][..k];
      1 + k
  }

  lemma NotBefore(env: Env, s: State, xs: seq<Tenant>, k: nat, i: nat)
    requires k <= |xs| && NoneEligible(env, s, xs[..k])
    requires i < |xs| && Eligible(env, s, xs[i])
    ensures k <= i
  {
    InPrefix(xs, k, i);
  }

  lemma InPrefix(xs: seq<Tenant>, k: nat, i: nat)
    requires k <= |xs| && i < |xs|
    ensures i < k ==> xs[i] in xs[..k]
  {
    assert i < k ==> xs[..k][i] == xs[i];
  }

  lemma ScannedFindsFirst(env: Env, s: State, order: seq<Tenant>, r: (seq<Tenant>, Option<Tenant>), e: nat)
    requires Scanned(env, s, order, r, e)
    ensures r.1.Some? ==> e - 1 == FirstEligible(env, s, order)
    ensures r.1.None? ==> e <= FirstEligible(env, s, order)
  {
  }

  /** Exactly when the code's scan finds a tenant: there is an eligible one and the
      shrinking bound has not cut the scan off before the first of them. */
  lemma LivePickExact(env: Env, s: State)
    requires env.bound == LiveLength
    ensures var k := FirstEligible(env, s, s.order);
            Pick(env, s).1 == if k < |s.order| && WithinLiveBound(s, s.order, k) then Some(s.order[k]) else None
  {
    var e := PickShape(env, s);
    ScannedFindsFirst(env, s, s.order, Pick(env, s), e);
    var k := FirstEligible(env, s, s.order);
    if Pick(env, s).1.None? {
      StaleCountMonotone(s, s.order, e, k);
    }
  }

  /** The intended scan finds a tenant whenever one is eligible. */
  lemma EntryPickExact(env: Env, s: State)
    requires env.bound == EntryLength
    ensures var k := FirstEligible(env, s, s.order);
            Pick(env, s).1 == if k < |s.order| then Some(s.order[k]) else None
  {
    var e := PickShape(env, s);
    ScannedFindsFirst(env, s, s.order, Pick(env, s), e);
  }

  /** The two scans agree when the rotation has no stale entry, and the code's scan
      always reaches the first half (rounded up) of the rotation. */
  lemma LivePickGuarantees(env: Env, s: State)
    requires env.bound == LiveLength
    ensures (forall t | t in s.order :: !Stale(s, t)) ==> Pick(env, s) == Pick(env.(bound := EntryLength), s)
    ensures forall k :: 0 <= k < |s.order| && 2 * k < |s.order| && Eligible(env, s, s.order[k]) ==> Pick(env, s).1.Some?
  {
    var entry := env.(bound := EntryLength);
    LivePickExact(env, s);
    EntryPickExact(entry, s);
    FirstEligibleIgnoresBound(env, s, s.order);
    var k := FirstEligible(env, s, s.order);
    if forall t | t in s.order :: !Stale(s, t) {
      NoStale(s, s.order[..k]);
      var e := PickShape(env, s);
      var e' := PickShape(entry, s);
      ScannedFindsFirst(env, s, s.order, Pick(env, s), e);
      ScannedFindsFirst(entry, s, s.order, Pick(entry, s), e');
      NoStale(s, s.order[..e]);
    }
    forall i | 0 <= i < |s.order| && 2 * i < |s.order| && Eligible(env, s, s.order[i])
      ensures Pick(env, s).1.Some?
    {
      NotBefore(env, s, s.order, k, i);
    }
  }

  lemma {:induction xs} FirstEligibleIgnoresBound(env: Env, s: State, xs: seq<Tenant>)
    ensures FirstEligible(env, s, xs) == FirstEligible(env.(bound := EntryLength), s, xs)
  {
  }

  lemma NoStale(s: State, xs: seq<Tenant>)
    requires forall t | t in xs :: !Stale(s, t)
    ensures StaleCount(s, xs) == 0
  {
  }

  // ---------------------------------------------------------------- what stays in the list

  ghost predicate NoDuplicates(xs: seq<Tenant>) {
    forall i, j :: 0 <= i < j < |xs| ==> xs[i] != xs[j]
  }

  lemma {:induction xs} KeptMembers(s: State, xs: seq<Tenant>)
    ensures forall t :: t in Kept(s, xs) <==> t in xs && !Stale(s, t)
    ensures NoDuplicates(xs) ==> NoDuplicates(Kept(s, xs))
  {
    if xs != [] {
      assert xs == xs[..|xs| - 1] + [xs[|xs| - 1]];
    }
  }

  /** A scan loses no tenant that still has a request and duplicates none. */
  lemma ScanKeepsEntries(env: Env, s: State, order: seq<Tenant>, r: (seq<Tenant>, Option<Tenant>), e: nat)
    requires Scanned(env, s, order, r, e) && NoDuplicates(order)
    ensures NoDuplicates(r.0)
    ensures forall t :: t in r.0 ==> t in order
    ensures forall t :: t in order && !Stale(s, t) ==> t in r.0
    ensures r.1.Some? ==> r.0 != [] && r.0[|r.0| - 1] == r.1.value
  {
    KeptMembers(s, order[..e]);
    assert order == order[..e] + order[e..];
    forall i, j | 0 <= i < |order| - e && 0 <= j < |Kept(s, order[..e])|
      ensures order[e..][i] != Kept(s, order[..e])[j]
    {
      assert Kept(s, order[..e])[j] in order[..e];
    }
    if r.1.Some? {
      assert order[..e][..e - 1] == order[..e - 1];
    }
  }
}
