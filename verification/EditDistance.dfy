// cmd/metiq/registry.go: levenshtein, minInt.
//
// A Go string is the sequence of its bytes; each `char` here stands for one byte.
module EditDistance {

  // ----- What is computed: the least number of single-byte edits -----

  datatype Edit =
    | InsertAt(at: nat, c: char)
    | DeleteAt(at: nat)
    | SubstituteAt(at: nat, c: char)

  predicate Fits(e: Edit, s: string)
  {
    if e.InsertAt? then e.at <= |s| else e.at < |s|
  }

  function Apply(e: Edit, s: string): string
    requires Fits(e, s)
  {
    match e
    case InsertAt(i, c) => s[..i] + [c] + s[i..]
    case DeleteAt(i) => s[..i] + s[i + 1..]
    case SubstituteAt(i, c) => s[..i] + [c] + s[i + 1..]
  }

  ghost predicate Turns(script: seq<Edit>, a: string, b: string)
  {
    if script == [] then a == b
    else Fits(script[0], a) && Turns(script[1..], Apply(script[0], a), b)
  }

  ghost predicate IsLeastEdits(a: string, b: string, d: nat)
  {
    && (exists script :: Turns(script, a, b) && |script| == d)
    && (forall script :: Turns(script, a, b) ==> d <= |script|)
  }

  // ----- The recurrence behind the dynamic program -----

  function Init(s: string): string
    requires |s| > 0
  {
    s[..|s| - 1]
  }

  function Last(s: string): char
    requires |s| > 0
  {
    s[|s| - 1]
  }

  function Cost(x: char, y: char): nat { if x == y then 0 else 1 }

  function Min(x: nat, y: nat): nat { if x < y then x else y }

  function Dist(a: string, b: string): nat
    decreases |a| + |b|
  {
    if |a| == 0 then |b|
    else if |b| == 0 then |a|
    else Min(Min(Dist(a, Init(b)) + 1, Dist(Init(a), b) + 1),
             Dist(Init(a), Init(b)) + Cost(Last(a), Last(b)))
  }

  // ----- Metric laws of the recurrence -----

  lemma {:induction false} DistUnfolds(a: string, b: string)
    requires |a| > 0 && |b| > 0
    ensures Dist(a, b) ==
            Min(Min(Dist(a, Init(b)) + 1, Dist(Init(a), b) + 1), Dist(Init(a), Init(b)) + Cost(Last(a), Last(b)))
  {
  }

  lemma {:induction false} DistBounds(a: string, b: string)
    ensures |a| - |b| <= Dist(a, b) && |b| - |a| <= Dist(a, b)
    ensures Dist(a, b) <= if |a| < |b| then |b| else |a|
    decreases |a| + |b|
  {
    if |a| > 0 && |b| > 0 {
      DistBounds(a, Init(b));
      DistBounds(Init(a), b);
      DistBounds(Init(a), Init(b));
    }
  }

  lemma {:induction false} DistSymmetric(a: string, b: string)
    ensures Dist(a, b) == Dist(b, a)
    decreases |a| + |b|
  {
    if |a| > 0 && |b| > 0 {
      DistSymmetric(a, Init(b));
      DistSymmetric(Init(a), b);
      DistSymmetric(Init(a), Init(b));
    }
  }

  lemma {:induction false} DistZero(a: string, b: string)
    ensures Dist(a, b) == 0 <==> a == b
    decreases |a| + |b|
  {
    if |a| > 0 && |b| > 0 {
      DistZero(Init(a), Init(b));
      SameInitLast(a, b);
    }
  }

  lemma {:induction false} SameInitLast(a: string, b: string)
    requires |a| > 0 && |b| > 0
    ensures a == b <==> Init(a) == Init(b) && Last(a) == Last(b)
  {
    assert a == Init(a) + [Last(a)] && b == Init(b) + [Last(b)];
  }

  lemma {:induction false} DistTriangle(a: string, c: string, b: string)
    ensures Dist(a, b) <= Dist(a, c) + Dist(c, b)
    decreases |a| + |c| + |b|
  {
    if a == [] || b == [] || c == [] {
      DistBounds(a, c);
      DistBounds(c, b);
      DistBounds(a, b);
    } else if Dist(a, c) == Dist(Init(a), c) + 1 {
      DistTriangle(Init(a), c, b);
    } else if Dist(c, b) == Dist(c, Init(b)) + 1 {
      DistTriangle(a, c, Init(b));
    } else if Dist(a, c) == Dist(a, Init(c)) + 1 {
      DistTriangle(a, Init(c), b);
      DistTriangle(a, Init(c), Init(b));
    } else {
      DistTriangle(Init(a), Init(c), b);
      DistTriangle(Init(a), Init(c), Init(b));
    }
  }

  // ----- No script is shorter -----

  lemma {:induction false} CommonSuffix(a: string, b: string, s: string)
    ensures Dist(a + s, b + s) <= Dist(a, b)
    decreases |s|
  {
    if s == [] {
      assert a + s == a && b + s == b;
    } else {
      CommonSuffix(a, b, Init(s));
      assert Init(a + s) == a + Init(s) && Init(b + s) == b + Init(s);
      assert Last(a + s) == Last(s) == Last(b + s);
    }
  }

  // One byte more, less or different at the end is one edit at most.
  lemma {:induction false} LastByte(p: string, x: char, y: char)
    ensures Dist(p, p + [x]) <= 1 && Dist(p + [x], p) <= 1 && Dist(p + [x], p + [y]) <= 1
  {
    LastAdded(p, x);
    DistSymmetric(p, p + [x]);
    LastChanged(p, x, y);
  }

  lemma {:induction false} LastAdded(p: string, x: char)
    ensures Dist(p, p + [x]) <= 1
  {
    if |p| > 0 {
      assert Init(p + [x]) == p;
      DistUnfolds(p, p + [x]);
      DistZero(p, p);
    }
  }

  lemma {:induction false} LastChanged(p: string, x: char, y: char)
    ensures Dist(p + [x], p + [y]) <= 1
  {
    assert Init(p + [x]) == p && Init(p + [y]) == p;
    DistUnfolds(p + [x], p + [y]);
    DistZero(p, p);
  }

  // An edit replaces at most one byte x, between p and t, by at most one byte y.
  lemma {:induction false} EditShape(e: Edit, s: string) returns (p: string, x: string, y: string, t: string)
    requires Fits(e, s)
    ensures s == p + x + t && Apply(e, s) == p + y + t
    ensures |x| <= 1 && |y| <= 1 && x + y != []
  {
    p := s[..e.at];
    if e.InsertAt? {
      x, y, t := [], [e.c], s[e.at..];
    } else {
      x, t := [s[e.at]], s[e.at + 1..];
      y := if e.DeleteAt? then [] else [e.c];
    }
  }

  lemma {:induction false} SwapLast(p: string, x: string, y: string)
    requires |x| <= 1 && |y| <= 1 && x + y != []
    ensures Dist(p + x, p + y) <= 1
  {
    assert p + [] == p;
    if x == [] {
      assert y == [y[0]];
      LastByte(p, y[0], y[0]);
    } else {
      assert x == [x[0]];
      LastByte(p, x[0], if y == [] then x[0] else y[0]);
      assert y == [] || y == [y[0]];
    }
  }

  lemma {:induction false} OneEdit(e: Edit, s: string)
    requires Fits(e, s)
    ensures Dist(s, Apply(e, s)) <= 1
  {
    var p, x, y, t := EditShape(e, s);
    SwapLast(p, x, y);
    CommonSuffix(p + x, p + y, t);
  }

  lemma {:induction false} NoShorterScript(script: seq<Edit>, a: string, b: string)
    requires Turns(script, a, b)
    ensures Dist(a, b) <= |script|
  {
    if script == [] {
      DistZero(a, b);
    } else {
      var a' := Apply(script[0], a);
      NoShorterScript(script[1..], a', b);
      OneEdit(script[0], a);
      DistTriangle(a, a', b);
    }
  }

  // ----- Some script is that short -----

  // A script for a prefix is a script for the whole.
  lemma {:induction false} ScriptOnPrefix(script: seq<Edit>, a: string, b: string, s: string)
    requires Turns(script, a, b)
    ensures Turns(script, a + s, b + s)
  {
    if script != [] {
      var e := script[0];
      ScriptOnPrefix(script[1..], Apply(e, a), b, s);
      EditOnPrefix(e, a, s);
    }
  }

  lemma {:induction false} EditOnPrefix(e: Edit, a: string, s: string)
    requires Fits(e, a)
    ensures Fits(e, a + s) && Apply(e, a + s) == Apply(e, a) + s
  {
    assert (a + s)[..e.at] == a[..e.at] && (a + s)[e.at..] == a[e.at..] + s;
    assert !e.InsertAt? ==> (a + s)[e.at + 1..] == a[e.at + 1..] + s;
  }

  lemma {:induction false} ScriptThenEdit(script: seq<Edit>, a: string, b: string, e: Edit)
    requires Turns(script, a, b) && Fits(e, b)
    ensures Turns(script + [e], a, Apply(e, b))
  {
    if script == [] {
      assert script + [e] == [e];
      assert Turns([], Apply(e, b), Apply(e, b));
    } else {
      ScriptThenEdit(script[1..], Apply(script[0], a), b, e);
      assert (script + [e])[1..] == script[1..] + [e];
    }
  }

  // The three edits of a last byte.
  lemma {:induction false} LastEdits(p: string, x: char, y: char)
    ensures Fits(InsertAt(|p|, y), p) && Apply(InsertAt(|p|, y), p) == p + [y]
    ensures Fits(DeleteAt(|p|), p + [x]) && Apply(DeleteAt(|p|), p + [x]) == p
    ensures Fits(SubstituteAt(|p|, y), p + [x]) && Apply(SubstituteAt(|p|, y), p + [x]) == p + [y]
  {
  }

  lemma {:induction false} ThenInsertLast(script: seq<Edit>, a: string, p: string, y: char) returns (longer: seq<Edit>)
    requires Turns(script, a, p)
    ensures Turns(longer, a, p + [y]) && |longer| == |script| + 1
  {
    var e := InsertAt(|p|, y);
    LastEdits(p, y, y);
    ScriptThenEdit(script, a, p, e);
    longer := script + [e];
  }

  lemma {:induction false} ThenDeleteLast(script: seq<Edit>, a: string, p: string, x: char) returns (longer: seq<Edit>)
    requires Turns(script, a, p + [x])
    ensures Turns(longer, a, p) && |longer| == |script| + 1
  {
    var e := DeleteAt(|p|);
    LastEdits(p, x, x);
    ScriptThenEdit(script, a, p + [x], e);
    longer := script + [e];
  }

  lemma {:induction false} ThenMatchLast(script: seq<Edit>, a: string, p: string, x: char, y: char)
    returns (longer: seq<Edit>)
    requires Turns(script, a, p + [x])
    ensures Turns(longer, a, p + [y]) && |longer| == |script| + Cost(x, y)
  {
    longer := script;
    if x != y {
      var e := SubstituteAt(|p|, y);
      LastEdits(p, x, y);
      ScriptThenEdit(script, a, p + [x], e);
      longer := script + [e];
    }
  }

  lemma {:induction false} Snoc(s: string)
    requires |s| > 0
    ensures s == Init(s) + [Last(s)]
  {
  }

  lemma {:induction false} ShortestScript(a: string, b: string) returns (script: seq<Edit>)
    ensures Turns(script, a, b) && |script| == Dist(a, b)
    decreases |a| + |b|
  {
    if |a| == 0 && |b| == 0 {
      script := [];
    } else if |a| == 0 || (|b| > 0 && Dist(a, b) == Dist(a, Init(b)) + 1) {
      script := ShortestScript(a, Init(b));
      script := ThenInsertLast(script, a, Init(b), Last(b));
      Snoc(b);
    } else if |b| == 0 || Dist(a, b) == Dist(Init(a), b) + 1 {
      script := ShortestScript(Init(a), b);
      ScriptOnPrefix(script, Init(a), b, [Last(a)]);
      script := ThenDeleteLast(script, Init(a) + [Last(a)], b, Last(a));
      Snoc(a);
    } else {
      script := ShortestScript(Init(a), Init(b));
      ScriptOnPrefix(script, Init(a), Init(b), [Last(a)]);
      script := ThenMatchLast(script, Init(a) + [Last(a)], Init(b), Last(a), Last(b));
      Snoc(a);
      Snoc(b);
    }
  }

  lemma {:induction false} DistIsLeastEdits(a: string, b: string)
    ensures IsLeastEdits(a, b, Dist(a, b))
  {
    var script := ShortestScript(a, b);
    forall other | Turns(other, a, b) ensures Dist(a, b) <= |other| {
      NoShorterScript(other, a, b);
    }
  }

  ghost function LeastEdits(a: string, b: string): (d: nat)
    ensures IsLeastEdits(a, b, d)
  {
    DistIsLeastEdits(a, b);
    Dist(a, b)
  }

  lemma {:induction false} EditDistanceIsAMetric(a: string, b: string, c: string)
    ensures LeastEdits(a, b) == 0 <==> a == b
    ensures LeastEdits(a, b) == LeastEdits(b, a)
    ensures LeastEdits(a, b) <= LeastEdits(a, c) + LeastEdits(c, b)
    ensures |a| - |b| <= LeastEdits(a, b) && |b| - |a| <= LeastEdits(a, b)
    ensures LeastEdits(a, b) <= if |a| < |b| then |b| else |a|
  {
    DistZero(a, b);
    DistSymmetric(a, b);
    DistTriangle(a, c, b);
    DistBounds(a, b);
  }

  // There is only one such number.
  lemma {:induction false} LeastEditsIsDist(a: string, b: string, d: nat)
    requires IsLeastEdits(a, b, d)
    ensures d == Dist(a, b)
  {
    var script := ShortestScript(a, b);
    var other :| Turns(other, a, b) && |other| == d;
    NoShorterScript(other, a, b);
  }

  // ----- The program -----

  method MinInt(vals: seq<int>) returns (m: int)
    requires vals != []
    ensures m in vals
    ensures forall k | 0 <= k < |vals| :: m <= vals[k]
  {
    m := vals[0];
    for i := 1 to |vals|
      invariant m in vals
      invariant forall k | 0 <= k < i :: m <= vals[k]
    {
      if vals[i] < m {
        m := vals[i];
      }
    }
  }

  // The body of the inner loop.
  method Cell(left: nat, up: nat, diagonal: nat, x: char, y: char) returns (m: nat)
    ensures m == Min(Min(left + 1, up + 1), diagonal + Cost(x, y))
  {
    var cost := 0;
    if x != y {
      cost := 1;
    }
    var vals: seq<int> := [left + 1, up + 1, diagonal + cost];
    var least := MinInt(vals);
    assert least <= vals[0] && least <= vals[1] && least <= vals[2];
    m := least;
  }

  // cur follows prev by the recurrence for one more byte x, up to n.
  ghost predicate Follows(cur: seq<nat>, prev: seq<nat>, x: char, b: string, n: nat)
    requires n <= |b| + 1
  {
    && |prev| == |b| + 1 == |cur|
    && forall j | 0 < j < n :: CellFollows(cur, prev, x, b, j)
  }

  ghost predicate CellFollows(cur: seq<nat>, prev: seq<nat>, x: char, b: string, j: nat)
    requires 0 < j < |cur| == |prev| == |b| + 1
  {
    cur[j] == Min(Min(cur[j - 1] + 1, prev[j] + 1), prev[j - 1] + Cost(x, b[j - 1]))
  }

  // One turn of the outer loop.
  method NextRow(b: string, i: nat, x: char, prev: array<nat>) returns (cur: array<nat>)
    requires prev.Length == |b| + 1
    ensures cur.Length == |b| + 1 && cur[0] == i && Follows(cur[..], prev[..], x, b, |b| + 1)
  {
    cur := new nat[|b| + 1];
    cur[0] := i;
    for j := 1 to |b| + 1
      invariant cur[0] == i && Follows(cur[..], prev[..], x, b, j)
    {
      ghost var before := cur[..];
      cur[j] := Cell(cur[j - 1], prev[j], prev[j - 1], x, b[j - 1]);
      assert forall k | 0 < k < j :: CellFollows(before, prev[..], x, b, k) ==> CellFollows(cur[..], prev[..], x, b, k);
    }
  }

  // The distances from a to every prefix of b.
  ghost function DistRow(a: string, b: string): seq<nat>
  {
    seq(|b| + 1, j requires 0 <= j <= |b| => Dist(a, b[..j]))
  }

  lemma {:induction false} InitOfPrefix(a: string, i: nat)
    requires 1 <= i <= |a|
    ensures Init(a[..i]) == a[..i - 1] && Last(a[..i]) == a[i - 1]
  {
  }

  lemma {:induction false} RowStep(a: string, b: string, i: nat, j: nat)
    requires 1 <= i <= |a| && 1 <= j <= |b|
    ensures Dist(a[..i], b[..j]) ==
            Min(Min(Dist(a[..i], b[..j - 1]) + 1, Dist(a[..i - 1], b[..j]) + 1),
                Dist(a[..i - 1], b[..j - 1]) + Cost(a[i - 1], b[j - 1]))
  {
    InitOfPrefix(a, i);
    InitOfPrefix(b, j);
    DistUnfolds(a[..i], b[..j]);
  }

  // A row is determined by its first cell and the row before it.
  lemma {:induction false} OneRowFollows(cur: seq<nat>, other: seq<nat>, prev: seq<nat>, x: char, b: string, n: nat)
    requires n <= |b| && cur != [] && other != [] && cur[0] == other[0]
    requires Follows(cur, prev, x, b, |b| + 1) && Follows(other, prev, x, b, |b| + 1)
    ensures cur[n] == other[n]
    decreases n
  {
    if n > 0 {
      OneRowFollows(cur, other, prev, x, b, n - 1);
      assert CellFollows(cur, prev, x, b, n) && CellFollows(other, prev, x, b, n);
    }
  }

  lemma {:induction false} DistRowFollows(a: string, b: string, i: nat)
    requires 1 <= i <= |a|
    ensures DistRow(a[..i], b)[0] == i
    ensures Follows(DistRow(a[..i], b), DistRow(a[..i - 1], b), a[i - 1], b, |b| + 1)
  {
    var cur, prev, x := DistRow(a[..i], b), DistRow(a[..i - 1], b), a[i - 1];
    forall j | 0 < j < |b| + 1 ensures CellFollows(cur, prev, x, b, j) {
      RowStep(a, b, i, j);
    }
  }

  // The row that follows the row of a[..i - 1] is the row of a[..i].
  lemma {:induction false} NextDistRow(a: string, b: string, i: nat, cur: seq<nat>)
    requires 1 <= i <= |a| && cur != [] && cur[0] == i
    requires Follows(cur, DistRow(a[..i - 1], b), a[i - 1], b, |b| + 1)
    ensures cur == DistRow(a[..i], b)
  {
    DistRowFollows(a, b, i);
    var row := DistRow(a[..i], b);
    forall j | 0 <= j <= |b| ensures cur[j] == row[j] {
      OneRowFollows(cur, row, DistRow(a[..i - 1], b), a[i - 1], b, j);
    }
  }

  lemma {:induction false} FirstRow(row: seq<nat>, a: string, b: string)
    requires |row| == |b| + 1 && forall k | 0 <= k <= |b| :: row[k] == k
    ensures row == DistRow(a[..0], b)
  {
  }

  lemma {:induction false} LastCell(a: string, b: string)
    ensures IsLeastEdits(a, b, DistRow(a[..|a|], b)[|b|])
  {
    assert a[..|a|] == a && b[..|b|] == b;
    DistIsLeastEdits(a, b);
  }

  // The early returns.
  lemma {:induction false} EasyCases(a: string, b: string)
    ensures a == b ==> IsLeastEdits(a, b, 0)
    ensures a == "" ==> IsLeastEdits(a, b, |b|)
    ensures b == "" ==> IsLeastEdits(a, b, |a|)
  {
    DistZero(a, b);
    DistIsLeastEdits(a, b);
  }

  method Levenshtein(a: string, b: string) returns (d: nat)
    ensures IsLeastEdits(a, b, d)
  {
    EasyCases(a, b);
    if a == b {
      return 0;
    }
    if a == "" {
      return |b|;
    }
    if b == "" {
      return |a|;
    }
    var prev := new nat[|b| + 1];
    for j := 0 to |b| + 1
      invariant forall k | 0 <= k < j :: prev[k] == k
    {
      prev[j] := j;
    }
    FirstRow(prev[..], a, b);
    for i := 1 to |a| + 1
      invariant prev.Length == |b| + 1 && prev[..] == DistRow(a[..i - 1], b)
    {
      var cur := NextRow(b, i, a[i - 1], prev);
      NextDistRow(a, b, i, cur[..]);
      prev := cur;
    }
    LastCell(a, b);
    d := prev[|b|];
    assert d == prev[..][|b|];
  }
}
