/** The one-row edit distance of src/jungleAgentsPolymarketSync.ts. */
module Levenshtein {
  import opened Lists

  function Min(x: nat, y: nat): nat { if x < y then x else y }

  /** The full-table recursion. */
  function Distance(a: string, b: string): nat
    decreases |a| + |b|
  {
    if a == [] then |b|
    else if b == [] then |a|
    else
      Min(Min(Distance(Init(a), b) + 1, Distance(a, Init(b)) + 1),
          Distance(Init(a), Init(b)) + (if Last(a) == Last(b) then 0 else 1))
  }

  // ---------------------------------------------------------------- edit scripts

  datatype Edit = Keep | Substitute | Insert | Delete

  /** The script, read backwards, rewrites a into b from their ends. */
  predicate Rewrites(script: seq<Edit>, a: string, b: string)
    decreases |script|
  {
    if script == [] then a == [] && b == []
    else
      var rest := script[..|script| - 1];
      match script[|script| - 1]
      case Keep => a != [] && b != [] && Last(a) == Last(b) && Rewrites(rest, Init(a), Init(b))
      case Substitute => a != [] && b != [] && Rewrites(rest, Init(a), Init(b))
      case Insert => b != [] && Rewrites(rest, a, Init(b))
      case Delete => a != [] && Rewrites(rest, Init(a), b)
  }

  function Cost(script: seq<Edit>): nat {
    if script == [] then 0
    else Cost(script[..|script| - 1]) + (if script[|script| - 1] == Keep then 0 else 1)
  }

  lemma {:induction false} Append(script: seq<Edit>, e: Edit)
    ensures (script + [e])[..|script|] == script
    ensures Cost(script + [e]) == Cost(script) + (if e == Keep then 0 else 1)
  {
    assert (script + [e])[..|script|] == script;
  }

  /** Some script costs exactly the distance. */
  lemma {:induction false} ShortestScript(a: string, b: string) returns (script: seq<Edit>)
    ensures Rewrites(script, a, b) && Cost(script) == Distance(a, b)
    decreases |a| + |b|
  {
    if a == [] && b == [] {
      return [];
    }
    var e :=
      if a == [] then Insert
      else if b == [] || Distance(a, b) == Distance(Init(a), b) + 1 then Delete
      else if Distance(a, b) == Distance(a, Init(b)) + 1 then Insert
      else if Last(a) == Last(b) then Keep else Substitute;
    var rest := ShortestScript(if e == Insert then a else Init(a), if e == Delete then b else Init(b));
    Append(rest, e);
    script := rest + [e];
  }

  /** No script costs less. */
  lemma {:induction false} NoCheaperScript(script: seq<Edit>, a: string, b: string)
    requires Rewrites(script, a, b)
    ensures Distance(a, b) <= Cost(script)
    decreases |script|
  {
    if script != [] {
      var rest := script[..|script| - 1];
      match script[|script| - 1]
      case Keep => NoCheaperScript(rest, Init(a), Init(b));
      case Substitute => NoCheaperScript(rest, Init(a), Init(b));
      case Insert => NoCheaperScript(rest, a, Init(b)); InsertStep(a, b);
      case Delete => NoCheaperScript(rest, Init(a), b); InsertStep(b, a); Symmetric(a, b); Symmetric(Init(a), b);
    }
  }

  lemma InsertStep(a: string, b: string)
    requires b != []
    ensures Distance(a, b) <= Distance(a, Init(b)) + 1
  {
  }

  // ---------------------------------------------------------------- a metric

  lemma {:induction false} Symmetric(a: string, b: string)
    ensures Distance(a, b) == Distance(b, a)
    decreases |a| + |b|
  {
    if a != [] && b != [] {
      Symmetric(Init(a), b);
      Symmetric(a, Init(b));
      Symmetric(Init(a), Init(b));
    }
  }

  lemma {:induction false} ZeroIffEqual(a: string, b: string)
    ensures Distance(a, b) == 0 <==> a == b
    decreases |a| + |b|
  {
    if a != [] && b != [] {
      ZeroIffEqual(Init(a), Init(b));
      assert a == Init(a) + [Last(a)] && b == Init(b) + [Last(b)];
    }
  }

  lemma {:induction false} Bounds(a: string, b: string)
    ensures |a| - |b| <= Distance(a, b) && |b| - |a| <= Distance(a, b)
    ensures Distance(a, b) <= |a| || Distance(a, b) <= |b|
    decreases |a| + |b|
  {
    if a != [] && b != [] {
      Bounds(Init(a), b);
      Bounds(a, Init(b));
      Bounds(Init(a), Init(b));
    }
  }

  /** Scripts compose at no more than their joint cost. */
  lemma {:induction false} Compose(s: seq<Edit>, t: seq<Edit>, a: string, b: string, c: string) returns (r: seq<Edit>)
    requires Rewrites(s, a, b) && Rewrites(t, b, c)
    ensures Rewrites(r, a, c) && Cost(r) <= Cost(s) + Cost(t)
    decreases |s| + |t|
  {
    if s == [] {
      return t;
    }
    var s', t' := s[..|s| - 1], if t == [] then [] else t[..|t| - 1];
    if t != [] && t[|t| - 1] == Insert {
      r := Compose(s, t', a, b, Init(c));
      Append(r, Insert);
      r := r + [Insert];
    } else if s[|s| - 1] == Delete {
      r := Compose(s', t, Init(a), b, c);
      Append(r, Delete);
      r := r + [Delete];
    } else if s[|s| - 1] == Insert {
      if t[|t| - 1] == Delete {
        r := Compose(s', t', a, Init(b), c);
      } else {
        r := Compose(s', t', a, Init(b), Init(c));
        Append(r, Insert);
        r := r + [Insert];
      }
    } else if t[|t| - 1] == Delete {
      r := Compose(s', t', Init(a), Init(b), c);
      Append(r, Delete);
      r := r + [Delete];
    } else {
      var e := if s[|s| - 1] == Keep then t[|t| - 1] else Substitute;
      r := Compose(s', t', Init(a), Init(b), Init(c));
      Append(r, e);
      r := r + [e];
    }
  }

  lemma {:induction false} Triangle(a: string, b: string, c: string)
    ensures Distance(a, c) <= Distance(a, b) + Distance(b, c)
  {
    var s := ShortestScript(a, b);
    var t := ShortestScript(b, c);
    var r := Compose(s, t, a, b, c);
    NoCheaperScript(r, a, c);
  }

  // ---------------------------------------------------------------- the program

  /** Cell (i, j) of the table. */
  function Table(a: string, b: string, i: nat, j: nat): nat
    requires i <= |a| && j <= |b|
  {
    Distance(a[..i], b[..j])
  }

  lemma Border(a: string, b: string)
    ensures forall i :: 0 <= i <= |a| ==> Table(a, b, i, 0) == i
    ensures forall j :: 0 <= j <= |b| ==> Table(a, b, 0, j) == j
    ensures Table(a, b, |a|, |b|) == Distance(a, b)
  {
    assert a[..|a|] == a && b[..|b|] == b;
  }

  lemma Cell(a: string, b: string, i: nat, j: nat)
    requires 0 < i <= |a| && 0 < j <= |b|
    ensures Table(a, b, i, j) ==
            Min(Min(Table(a, b, i - 1, j) + 1, Table(a, b, i, j - 1) + 1),
                Table(a, b, i - 1, j - 1) + (if a[i - 1] == b[j - 1] then 0 else 1))
  {
    assert a[..i][..i - 1] == a[..i - 1] && b[..j][..j - 1] == b[..j - 1];
  }

  /** The program keeps one row of the table and overwrites it in place. */
  method Compute(a: string, b: string) returns (d: nat)
    ensures d == Distance(a, b)
  {
    Border(a, b);
    if a == b {
      ZeroIffEqual(a, b);
      return 0;
    }
    if |a| == 0 {
      return |b|;
    }
    if |b| == 0 {
      return |a|;
    }
    var row := new nat[|b| + 1](j => j);
    var i := 1;
    while i <= |a|
      invariant 1 <= i <= |a| + 1
      invariant forall k :: 0 <= k <= |b| ==> row[k] == Table(a, b, i - 1, k)
    {
      OverwriteRow(row, a, b, i);
      i := i + 1;
    }
    d := row[|b|];
  }

  /** The inner loop, with the saved diagonal `prev`. */
  method OverwriteRow(row: array<nat>, a: string, b: string, i: nat)
    requires 0 < i <= |a| && row.Length == |b| + 1
    requires forall k :: 0 <= k <= |b| ==> row[k] == Table(a, b, i - 1, k)
    modifies row
    ensures forall k :: 0 <= k <= |b| ==> row[k] == Table(a, b, i, k)
  {
    Border(a, b);
    var prev := row[0];
    row[0] := i;
    var j := 1;
    while j <= |b|
      invariant 1 <= j <= |b| + 1
      invariant prev == Table(a, b, i - 1, j - 1)
      invariant forall k :: 0 <= k < j ==> row[k] == Table(a, b, i, k)
      invariant forall k :: j <= k <= |b| ==> row[k] == Table(a, b, i - 1, k)
    {
      Cell(a, b, i, j);
      var temp := row[j];
      var cost := if a[i - 1] == b[j - 1] then 0 else 1;
      row[j] := Min(Min(row[j] + 1, row[j - 1] + 1), prev + cost);
      prev := temp;
      j := j + 1;
    }
  }
}
