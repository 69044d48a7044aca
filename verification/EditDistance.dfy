/**
 The "did you mean?" machinery of internal/workloads/registry.go.

 The distance is specified independently of the table the code fills: it is the
 least number of single-character edits, at arbitrary positions and in
 arbitrary order, that turn one string into the other.
 */
module EditDistance {

  datatype Edit<T> =
    | Insert(at: nat, elem: T)
    | Delete(at: nat)
    | Substitute(at: nat, elem: T)

  type Script<T> = seq<Edit<T>>

  predicate Applicable<T>(s: seq<T>, e: Edit<T>) {
    match e
    case Insert(at, _) => at <= |s|
    case Delete(at) => at < |s|
    case Substitute(at, _) => at < |s|
  }

  function Apply<T>(s: seq<T>, e: Edit<T>): seq<T>
    requires Applicable(s, e)
  {
    match e
    case Insert(at, x) => s[..at] + [x] + s[at..]
    case Delete(at) => s[..at] + s[at + 1..]
    case Substitute(at, x) => s[..at] + [x] + s[at + 1..]
  }

  /** The script is applicable edit by edit and its last result is `b`. */
  predicate Turns<T(==)>(script: Script<T>, a: seq<T>, b: seq<T>) {
    if script == [] then a == b
    else Applicable(a, script[0]) && Turns(script[1..], Apply(a, script[0]), b)
  }

  /** `d` is the least cost over all scripts that turn `a` into `b`. */
  ghost predicate IsDistance<T(!new)>(a: seq<T>, b: seq<T>, d: nat) {
    && (exists script: Script<T> :: Turns(script, a, b) && |script| == d)
    && (forall script: Script<T> :: Turns(script, a, b) ==> d <= |script|)
  }

  function Min(x: int, y: int): int { if x <= y then x else y }

  function Cost<T(==)>(x: T, y: T): nat { if x == y then 0 else 1 }

  /** The entry of the code's table for prefixes `a` and `b`. */
  function Table<T(==)>(a: seq<T>, b: seq<T>): nat
    decreases |a| + |b|
  {
    if |a| == 0 then |b|
    else if |b| == 0 then |a|
    else
      var a', b' := a[..|a| - 1], b[..|b| - 1];
      Min(Table(a, b') + 1, Min(Table(a', b) + 1, Table(a', b') + Cost(a[|a| - 1], b[|b| - 1])))
  }

  // ---------------------------------------------------------------------
  // The table is a metric
  // ---------------------------------------------------------------------

  lemma {:induction false} TableSelf<T>(a: seq<T>)
    ensures Table(a, a) == 0
  {
    if |a| != 0 {
      TableSelf(a[..|a| - 1]);
    }
  }

  lemma {:induction false} TableSymmetric<T>(a: seq<T>, b: seq<T>)
    ensures Table(a, b) == Table(b, a)
    decreases |a| + |b|
  {
    if |a| != 0 && |b| != 0 {
      TableSymmetric(a, b[..|b| - 1]);
      TableSymmetric(a[..|a| - 1], b);
      TableSymmetric(a[..|a| - 1], b[..|b| - 1]);
    }
  }

  lemma {:induction false} TableBounds<T>(a: seq<T>, b: seq<T>)
    ensures Table(a, b) <= |a| + |b|
    ensures |a| <= Table(a, b) + |b|
    ensures |b| <= Table(a, b) + |a|
    decreases |a| + |b|
  {
    if |a| != 0 && |b| != 0 {
      TableBounds(a, b[..|b| - 1]);
      TableBounds(a[..|a| - 1], b);
      TableBounds(a[..|a| - 1], b[..|b| - 1]);
    }
  }

  lemma {:induction false} TableZero<T>(a: seq<T>, b: seq<T>)
    ensures Table(a, b) == 0 <==> a == b
    decreases |a| + |b|
  {
    if |a| != 0 && |b| != 0 {
      var a', b' := a[..|a| - 1], b[..|b| - 1];
      TableZero(a', b');
      assert a == a' + [a[|a| - 1]] && b == b' + [b[|b| - 1]];
    }
  }

  lemma {:induction false} TableTriangle<T>(a: seq<T>, b: seq<T>, c: seq<T>)
    ensures Table(a, c) <= Table(a, b) + Table(b, c)
    decreases |a| + |b| + |c|
  {
    TableBounds(a, c);
    TableBounds(a, b);
    TableBounds(b, c);
    if |a| != 0 && |b| != 0 && |c| != 0 {
      var a', b', c' := a[..|a| - 1], b[..|b| - 1], c[..|c| - 1];
      TableTriangle(a', b, c);
      TableTriangle(a, b, c');
      TableTriangle(a, b', c);
      TableTriangle(a, b', c');
      TableTriangle(a', b', c);
      TableTriangle(a', b', c');
    }
  }

  // ---------------------------------------------------------------------
  // The table is the distance
  // ---------------------------------------------------------------------

  lemma TableCommonLast<T>(u: seq<T>, v: seq<T>, x: T)
    ensures Table(u + [x], v + [x]) <= Table(u, v)
  {
    assert (u + [x])[..|u|] == u && (v + [x])[..|v|] == v;
  }

  lemma {:induction false} TableCommonSuffix<T>(u: seq<T>, v: seq<T>, w: seq<T>)
    ensures Table(u + w, v + w) <= Table(u, v)
    decreases |w|
  {
    hide Table;
    if |w| == 0 {
      assert u + w == u && v + w == v;
    } else {
      var w', last := w[..|w| - 1], w[|w| - 1];
      TableCommonSuffix(u, v, w');
      TableCommonLast(u + w', v + w', last);
      assert (u + w') + [last] == u + w && (v + w') + [last] == v + w;
    }
  }

  lemma AppendCostsOne<T>(u: seq<T>, x: T, y: T)
    ensures Table(u, u + [x]) <= 1
    ensures Table(u + [x], u) <= 1
    ensures Table(u + [x], u + [y]) <= 1
  {
    assert (u + [x])[..|u|] == u && (u + [y])[..|u|] == u;
    TableSelf(u);
    TableSymmetric(u, u + [x]);
    assert Table(u, u + [x]) <= Table(u, u) + 1;
    assert Table(u + [x], u + [y]) <= Table(u, u) + 1;
  }

  lemma OneEditCostsAtMostOne<T>(s: seq<T>, e: Edit<T>)
    requires Applicable(s, e)
    ensures Table(s, Apply(s, e)) <= 1
  {
    hide Table;
    var u := s[..e.at];
    match e {
      case Insert(at, x) =>
        AppendCostsOne(u, x, x);
        TableCommonSuffix(u, u + [x], s[at..]);
        assert u + s[at..] == s;
      case Delete(at) =>
        AppendCostsOne(u, s[at], s[at]);
        TableCommonSuffix(u + [s[at]], u, s[at + 1..]);
        assert u + [s[at]] + s[at + 1..] == s;
      case Substitute(at, x) =>
        AppendCostsOne(u, s[at], x);
        TableCommonSuffix(u + [s[at]], u + [x], s[at + 1..]);
        assert u + [s[at]] + s[at + 1..] == s;
    }
  }

  lemma {:induction false} NoCheaperScript<T>(script: Script<T>, a: seq<T>, b: seq<T>)
    requires Turns(script, a, b)
    ensures Table(a, b) <= |script|
  {
    if script == [] {
      TableSelf(a);
    } else {
      var next := Apply(a, script[0]);
      OneEditCostsAtMostOne(a, script[0]);
      NoCheaperScript(script[1..], next, b);
      TableTriangle(a, next, b);
    }
  }

  lemma {:induction false} ScriptsCompose<T>(first: Script<T>, second: Script<T>, a: seq<T>, m: seq<T>, b: seq<T>)
    requires Turns(first, a, m) && Turns(second, m, b)
    ensures Turns(first + second, a, b)
  {
    if first == [] {
      assert first + second == second;
    } else {
      assert (first + second)[1..] == first[1..] + second;
      ScriptsCompose(first[1..], second, Apply(a, first[0]), m, b);
    }
  }

  lemma {:induction false} ScriptsExtend<T>(script: Script<T>, a: seq<T>, b: seq<T>, y: T)
    requires Turns(script, a, b)
    ensures Turns(script, a + [y], b + [y])
  {
    if script != [] {
      assert Apply(a + [y], script[0]) == Apply(a, script[0]) + [y];
      ScriptsExtend(script[1..], Apply(a, script[0]), b, y);
    }
  }

  /** A script that realises the table entry. */
  function CheapestScript<T(==)>(a: seq<T>, b: seq<T>): (script: Script<T>)
    ensures Turns(script, a, b)
    ensures |script| == Table(a, b)
    decreases |a| + |b|
  {
    if |a| == 0 then
      if |b| == 0 then [] else
      var b' := b[..|b| - 1];
      var script := CheapestScript(a, b') + [Insert(|b'|, b[|b'|])];
      assert Turns(script, a, b) by { AppendInsert(CheapestScript(a, b'), a, b); }
      script
    else if |b| == 0 then
      var a' := a[..|a| - 1];
      assert Apply(a, Delete(|a'|)) == a';
      [Delete(|a'|)] + CheapestScript(a', b)
    else
      var a', b' := a[..|a| - 1], b[..|b| - 1];
      var x, y := a[|a'|], b[|b'|];
      assert a == a' + [x] && b == b' + [y];
      if Table(a, b) == Table(a, b') + 1 then
        var script := CheapestScript(a, b') + [Insert(|b'|, y)];
        assert Turns(script, a, b) by { AppendInsert(CheapestScript(a, b'), a, b); }
        script
      else if Table(a, b) == Table(a', b) + 1 then
        assert Apply(a, Delete(|a'|)) == a';
        [Delete(|a'|)] + CheapestScript(a', b)
      else
        var rest := CheapestScript(a', b');
        assert Turns(rest, a' + [y], b' + [y]) by { ScriptsExtend(rest, a', b', y); }
        if x == y then rest
        else
          assert Apply(a, Substitute(|a'|, y)) == a' + [y];
          [Substitute(|a'|, y)] + rest
  }

  lemma AppendInsert<T>(script: Script<T>, a: seq<T>, b: seq<T>)
    requires |b| != 0 && Turns(script, a, b[..|b| - 1])
    ensures Turns(script + [Insert(|b| - 1, b[|b| - 1])], a, b)
  {
    var b', last := b[..|b| - 1], [Insert(|b| - 1, b[|b| - 1])];
    assert Apply(b', last[0]) == b && last[1..] == [];
    assert Turns(last, b', b);
    ScriptsCompose(script, last, a, b', b);
  }

  lemma TableIsDistance<T(!new)>(a: seq<T>, b: seq<T>)
    ensures IsDistance(a, b, Table(a, b))
  {
    var script := CheapestScript(a, b);
    assert Turns(script, a, b) && |script| == Table(a, b);
    forall other: Script<T> | Turns(other, a, b) ensures Table(a, b) <= |other| {
      NoCheaperScript(other, a, b);
    }
  }

  // ---------------------------------------------------------------------
  // Metric laws of the distance, whatever computes it
  // ---------------------------------------------------------------------

  lemma DistanceUnique<T(!new)>(a: seq<T>, b: seq<T>, d: nat, d': nat)
    ensures IsDistance(a, b, d) && IsDistance(a, b, d') ==> d == d'
  {
    if IsDistance(a, b, d) && IsDistance(a, b, d') {
      var script: Script<T> :| Turns(script, a, b) && |script| == d;
      var script': Script<T> :| Turns(script', a, b) && |script'| == d';
    }
  }

  ghost function Distance<T(!new)>(a: seq<T>, b: seq<T>): (d: nat)
    ensures IsDistance(a, b, d)
  {
    TableIsDistance(a, b);
    var d: nat :| IsDistance(a, b, d);
    d
  }

  lemma DistanceIsTable<T(!new)>(a: seq<T>, b: seq<T>)
    ensures Distance(a, b) == Table(a, b)
  {
    TableIsDistance(a, b);
    DistanceUnique(a, b, Distance(a, b), Table(a, b));
  }

  lemma DistanceIsMetric<T(!new)>(a: seq<T>, b: seq<T>, c: seq<T>)
    ensures Distance(a, b) == 0 <==> a == b
    ensures Distance(a, b) == Distance(b, a)
    ensures Distance(a, c) <= Distance(a, b) + Distance(b, c)
  {
    DistanceIsTable(a, b);
    DistanceIsTable(b, a);
    DistanceIsTable(b, c);
    DistanceIsTable(a, c);
    TableZero(a, b);
    TableSymmetric(a, b);
    TableTriangle(a, b, c);
  }

  // ---------------------------------------------------------------------
  // levenshtein and closestMatch
  // ---------------------------------------------------------------------

  /** Entry (i, j) of the table for `a` and `b`. */
  ghost function Cell(a: string, b: string, i: nat, j: nat): nat
    requires i <= |a| && j <= |b|
  {
    Table(a[..i], b[..j])
  }

  lemma CellEdges(a: string, b: string)
    ensures forall j :: 0 <= j <= |b| ==> Cell(a, b, 0, j) == j
    ensures forall i :: 0 <= i <= |a| ==> Cell(a, b, i, 0) == i
    ensures Cell(a, b, |a|, |b|) == Distance(a, b)
  {
    assert a[..|a|] == a && b[..|b|] == b;
    DistanceIsTable(a, b);
  }

  lemma CellStep(a: string, b: string, i: nat, j: nat)
    requires 0 < i <= |a| && 0 < j <= |b|
    ensures Cell(a, b, i, j) ==
            Min(Cell(a, b, i, j - 1) + 1,
                Min(Cell(a, b, i - 1, j) + 1, Cell(a, b, i - 1, j - 1) + Cost(a[i - 1], b[j - 1])))
  {
    assert a[..i][..i - 1] == a[..i - 1] && b[..j][..j - 1] == b[..j - 1];
  }

  /** `row` agrees with row `i` of the table in its first `n` columns. */
  ghost predicate HoldsRow(row: array<nat>, a: string, i: nat, b: string, n: nat)
    requires i <= |a| && n <= |b| + 1 == row.Length
    reads row
  {
    forall j :: 0 <= j < n ==> row[j] == Cell(a, b, i, j)
  }

  /** The two-row computation; the rows are swapped after each line. */
  method Levenshtein(a: string, b: string) returns (d: nat)
    ensures IsDistance(a, b, d)
    ensures d == Distance(a, b)
  {
    hide Table, Cell, Turns, IsDistance, Distance;
    CellEdges(a, b);
    var la, lb := |a|, |b|;
    if la == 0 {
      return lb;
    }
    if lb == 0 {
      return la;
    }
    var prev := new nat[lb + 1](_ => 0);
    var curr := new nat[lb + 1](_ => 0);
    for j := 0 to lb + 1
      invariant forall k :: 0 <= k < j ==> prev[k] == k
    {
      prev[j] := j;
    }
    for i := 1 to la + 1
      invariant fresh(prev) && fresh(curr)
      invariant prev != curr && prev.Length == curr.Length == lb + 1
      invariant HoldsRow(prev, a, i - 1, b, lb + 1)
    {
      curr[0] := i;
      for j := 1 to lb + 1
        invariant fresh(prev) && fresh(curr)
        invariant HoldsRow(prev, a, i - 1, b, lb + 1)
        invariant HoldsRow(curr, a, i, b, j)
      {
        var cost := 1;
        if a[i - 1] == b[j - 1] {
          cost := 0;
        }
        CellStep(a, b, i, j);
        curr[j] := Min(curr[j - 1] + 1, Min(prev[j] + 1, prev[j - 1] + cost));
      }
      prev, curr := curr, prev;
    }
    return prev[lb];
  }

  /** Among the first `n` candidates, `k` is the first of least distance, and within half the input's length. */
  ghost predicate IsFirstBest(input: string, candidates: seq<string>, n: nat, k: nat)
    requires n <= |candidates|
  {
    && k < n
    && Distance(input, candidates[k]) <= |input| / 2
    && (forall i :: 0 <= i < k ==> Distance(input, candidates[k]) < Distance(input, candidates[i]))
    && (forall i :: k <= i < n ==> Distance(input, candidates[k]) <= Distance(input, candidates[i]))
  }

  ghost predicate NoneWithinBound(input: string, candidates: seq<string>, n: nat)
    requires n <= |candidates|
  {
    forall i :: 0 <= i < n ==> |input| / 2 < Distance(input, candidates[i])
  }

  /** An empty answer stands for "no suggestion", also when the best candidate is itself empty. */
  method ClosestMatch(input: string, candidates: seq<string>) returns (best: string)
    ensures NoneWithinBound(input, candidates, |candidates|) ==> best == ""
    ensures !NoneWithinBound(input, candidates, |candidates|) ==>
              exists k: nat :: IsFirstBest(input, candidates, |candidates|, k) && best == candidates[k]
  {
    hide Distance, IsDistance;
    best := "";
    var bestDist := |input| / 2 + 1;
    ghost var at: nat := 0;
    for n := 0 to |candidates|
      invariant bestDist == |input| / 2 + 1 ==> best == "" && NoneWithinBound(input, candidates, n)
      invariant bestDist != |input| / 2 + 1 ==>
                  && IsFirstBest(input, candidates, n, at)
                  && best == candidates[at]
                  && bestDist == Distance(input, candidates[at])
    {
      var d := Levenshtein(input, candidates[n]);
      if d < bestDist {
        bestDist := d;
        best := candidates[n];
        at := n;
      }
    }
  }
}
