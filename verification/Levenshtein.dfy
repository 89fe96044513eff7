/** The edit distance of llm-runner/template/levenshtein.go. */
module Levenshtein {
  import opened Strings

  datatype Edit = Insert(at: nat, c: char) | Delete(at: nat) | Substitute(at: nat, c: char)

  /** One edit, at any position of s. */
  function Apply(e: Edit, s: string): Option<string> {
    match e
    case Insert(i, c) => if i <= |s| then Some(s[..i] + [c] + s[i..]) else None
    case Delete(i) => if i < |s| then Some(s[..i] + s[i + 1..]) else None
    case Substitute(i, c) => if i < |s| then Some(s[..i] + [c] + s[i + 1..]) else None
  }

  /** An edit script: its edits one after the other. */
  function Run(script: seq<Edit>, s: string): Option<string> {
    if script == [] then Some(s)
    else match Apply(script[0], s)
      case None => None
      case Some(t) => Run(script[1..], t)
  }

  predicate Turns(script: seq<Edit>, a: string, b: string) {
    Run(script, a) == Some(b)
  }

  function Min(x: int, y: int): int { if x <= y then x else y }

  /** From the entries above, to the left and between them. */
  function Best(up: nat, left: nat, corner: nat, same: bool): nat {
    Min(Min(up + 1, left + 1), corner + if same then 0 else 1)
  }

  /** The recurrence behind the table, on the last runes of both strings. */
  function Dist(a: string, b: string): nat
    decreases |a| + |b|
  {
    if a == [] then |b|
    else if b == [] then |a|
    else
      var a', b' := a[..|a| - 1], b[..|b| - 1];
      Best(Dist(a', b), Dist(a, b'), Dist(a', b'), a[|a| - 1] == b[|b| - 1])
  }

  // ---------- Dist is a metric ----------

  lemma {:induction false} DistZero(a: string, b: string)
    ensures Dist(a, b) == 0 <==> a == b
    decreases |a| + |b|
  {
    if a != [] && b != [] {
      DistZero(a[..|a| - 1], b[..|b| - 1]);
      assert a == a[..|a| - 1] + [a[|a| - 1]] && b == b[..|b| - 1] + [b[|b| - 1]];
    }
  }

  lemma {:induction false} DistSymmetric(a: string, b: string)
    ensures Dist(a, b) == Dist(b, a)
    decreases |a| + |b|
  {
    if a != [] && b != [] {
      DistSymmetric(a[..|a| - 1], b);
      DistSymmetric(a, b[..|b| - 1]);
      DistSymmetric(a[..|a| - 1], b[..|b| - 1]);
    }
  }

  lemma {:induction false} DistLengths(a: string, b: string)
    ensures Dist(a, b) >= |a| - |b| && Dist(a, b) >= |b| - |a| && Dist(a, b) <= |a| + |b|
    decreases |a| + |b|
  {
    if a != [] && b != [] {
      DistLengths(a[..|a| - 1], b);
      DistLengths(a, b[..|b| - 1]);
      DistLengths(a[..|a| - 1], b[..|b| - 1]);
    }
  }

  lemma {:induction false} DistTriangle(a: string, b: string, c: string)
    ensures Dist(a, c) <= Dist(a, b) + Dist(b, c)
    decreases |a| + |b| + |c|
  {
    if a == [] || b == [] || c == [] {
      DistLengths(a, b);
      DistLengths(b, c);
      DistLengths(a, c);
    } else {
      var a', b', c' := a[..|a| - 1], b[..|b| - 1], c[..|c| - 1];
      DistTriangle(a', b, c);
      DistTriangle(a, b, c');
      DistTriangle(a, b', c);
      DistTriangle(a, b', c');
      DistTriangle(a', b', c);
      DistTriangle(a', b', c');
      var x, y, z := a[|a| - 1], b[|b| - 1], c[|c| - 1];
      BestTriangle(Dist(a', b), Dist(a, b'), Dist(a', b'), x == y, Dist(b', c), Dist(b, c'), Dist(b', c'), y == z,
                   Dist(a', c), Dist(a, c'), Dist(a', c'), x == z, Dist(a, c));
    }
  }

  /** The entries for a and b, for b and c, and for a and c, from those around them. */
  lemma BestTriangle(abUp: nat, abLeft: nat, abCorner: nat, abSame: bool,
                     bcUp: nat, bcLeft: nat, bcCorner: nat, bcSame: bool,
                     acUp: nat, acLeft: nat, acCorner: nat, acSame: bool, ac: nat)
    requires abSame && bcSame ==> acSame
    requires ac == Best(acUp, acLeft, acCorner, acSame)
    requires acUp <= abUp + Best(bcUp, bcLeft, bcCorner, bcSame) && acUp <= abCorner + bcUp
    requires acLeft <= Best(abUp, abLeft, abCorner, abSame) + bcLeft && acLeft <= abLeft + bcCorner
    requires ac <= abLeft + bcUp && acCorner <= abCorner + bcCorner
    ensures ac <= Best(abUp, abLeft, abCorner, abSame) + Best(bcUp, bcLeft, bcCorner, bcSame)
  {
  }

  // ---------- Dist against edit scripts ----------

  /** A common suffix never makes two strings further apart. */
  lemma {:induction false} DistSuffix(a: string, b: string, t: string)
    ensures Dist(a + t, b + t) <= Dist(a, b)
    decreases |t|
  {
    if t == [] {
      assert a + t == a && b + t == b;
    } else {
      var t', x := t[..|t| - 1], t[|t| - 1];
      DistSuffix(a, b, t');
      LastOf(a, t);
      LastOf(b, t);
      DistSnoc(a + t', x, b + t', x);
    }
  }

  lemma LastOf(a: string, t: string)
    requires t != []
    ensures a + t == a + t[..|t| - 1] + [t[|t| - 1]]
  {
  }

  lemma CutAt(a: string, i: nat)
    requires i < |a|
    ensures a == a[..i] + [a[i]] + a[i + 1..]
  {
  }

  lemma AppendRuneMovesByOne(p: string, c: char)
    ensures Dist(p, p + [c]) <= 1 && Dist(p + [c], p) <= 1
  {
    DistZero(p, p);
    assert (p + [c])[..|p|] == p;
  }

  lemma LastRuneMovesByOne(p: string, c: char, d: char)
    ensures Dist(p + [c], p + [d]) <= 1
  {
    DistZero(p, p);
    assert (p + [c])[..|p|] == p && (p + [d])[..|p|] == p;
  }

  lemma InsertMovesByOne(a: string, i: nat, c: char)
    requires i <= |a|
    ensures Dist(a, a[..i] + [c] + a[i..]) <= 1
  {
    InsertBetween(a[..i], c, a[i..]);
    assert a == a[..i] + a[i..];
  }

  lemma InsertBetween(p: string, c: char, t: string)
    ensures Dist(p + t, p + [c] + t) <= 1
  {
    AppendRuneMovesByOne(p, c);
    DistSuffix(p, p + [c], t);
  }

  lemma DeleteMovesByOne(a: string, i: nat)
    requires i < |a|
    ensures Dist(a, a[..i] + a[i + 1..]) <= 1
  {
    CutAt(a, i);
    DeleteBetween(a[..i], a[i], a[i + 1..]);
  }

  lemma DeleteBetween(p: string, c: char, t: string)
    ensures Dist(p + [c] + t, p + t) <= 1
  {
    AppendRuneMovesByOne(p, c);
    DistSuffix(p + [c], p, t);
  }

  lemma SubstituteMovesByOne(a: string, i: nat, c: char)
    requires i < |a|
    ensures Dist(a, a[..i] + [c] + a[i + 1..]) <= 1
  {
    var p, t := a[..i], a[i + 1..];
    LastRuneMovesByOne(p, a[i], c);
    assert a == p + [a[i]] + t;
    DistSuffix(p + [a[i]], p + [c], t);
  }

  lemma EditMovesByOne(e: Edit, a: string, b: string)
    requires Apply(e, a) == Some(b)
    ensures Dist(a, b) <= 1
  {
    match e
    case Insert(i, c) => InsertMovesByOne(a, i, c);
    case Delete(i) => DeleteMovesByOne(a, i);
    case Substitute(i, c) => SubstituteMovesByOne(a, i, c);
  }

  /** No script is shorter than the distance. */
  lemma {:induction false} ScriptsAreLong(script: seq<Edit>, a: string, b: string)
    requires Turns(script, a, b)
    ensures Dist(a, b) <= |script|
    decreases |script|
  {
    if script == [] {
      DistZero(a, b);
    } else {
      var t := Apply(script[0], a).value;
      EditMovesByOne(script[0], a, t);
      ScriptsAreLong(script[1..], t, b);
      DistTriangle(a, t, b);
    }
  }

  /** Scripts run one after the other. */
  lemma {:induction false} RunAppend(s1: seq<Edit>, s2: seq<Edit>, a: string, b: string, c: string)
    requires Turns(s1, a, b) && Turns(s2, b, c)
    ensures Turns(s1 + s2, a, c)
    decreases |s1|
  {
    if s1 == [] {
      assert s1 + s2 == s2;
    } else {
      RunAppend(s1[1..], s2, Apply(s1[0], a).value, b, c);
      assert (s1 + s2)[1..] == s1[1..] + s2;
    }
  }

  /** A script does the same to the front of a longer string. */
  lemma {:induction false} RunBeforeSuffix(script: seq<Edit>, a: string, b: string, t: string)
    requires Turns(script, a, b)
    ensures Turns(script, a + t, b + t)
    decreases |script|
  {
    if script != [] {
      var m := Apply(script[0], a).value;
      RunBeforeSuffix(script[1..], m, b, t);
      ApplyBeforeSuffix(script[0], a, m, t);
    }
  }

  lemma ApplyBeforeSuffix(e: Edit, a: string, b: string, t: string)
    requires Apply(e, a) == Some(b)
    ensures Apply(e, a + t) == Some(b + t)
  {
    var i := e.at;
    assert (a + t)[..i] == a[..i];
    if e.Insert? {
      assert (a + t)[i..] == a[i..] + t;
      assert a[..i] + [e.c] + a[i..] + t == a[..i] + [e.c] + (a[i..] + t);
    } else {
      assert (a + t)[i + 1..] == a[i + 1..] + t;
      if e.Delete? {
        assert a[..i] + a[i + 1..] + t == a[..i] + (a[i + 1..] + t);
      } else {
        assert a[..i] + [e.c] + a[i + 1..] + t == a[..i] + [e.c] + (a[i + 1..] + t);
      }
    }
  }

  lemma ThenInsertLast(s: seq<Edit>, a: string, b: string, c: char)
    requires Turns(s, a, b)
    ensures Turns(s + [Insert(|b|, c)], a, b + [c])
  {
    var last := [Insert(|b|, c)];
    assert b[..|b|] + [c] + b[|b|..] == b + [c];
    assert last[1..] == [];
    RunAppend(s, last, a, b, b + [c]);
  }

  lemma DeleteLastFirst(s: seq<Edit>, a: string, b: string, x: char)
    requires Turns(s, a, b)
    ensures Turns([Delete(|a|)] + s, a + [x], b)
  {
    var script := [Delete(|a|)] + s;
    assert (a + [x])[..|a|] + (a + [x])[|a| + 1..] == a;
    assert script[1..] == s;
  }

  lemma SubstituteLastFirst(s: seq<Edit>, a: string, b: string, x: char, c: char)
    requires Turns(s, a, b)
    ensures Turns([Substitute(|a|, c)] + s, a + [x], b + [c])
  {
    var script := [Substitute(|a|, c)] + s;
    assert (a + [x])[..|a|] + [c] + (a + [x])[|a| + 1..] == a + [c];
    assert script[1..] == s;
    RunBeforeSuffix(s, a, b, [c]);
  }

  /** Some script is exactly as long as the distance. */
  lemma {:induction false} ShortestScript(a: string, b: string) returns (script: seq<Edit>)
    ensures Turns(script, a, b) && |script| == Dist(a, b)
    decreases |a| + |b|
  {
    var m, n := |a| - 1, |b| - 1;
    assert a != [] ==> a == a[..m] + [a[m]];
    assert b != [] ==> b == b[..n] + [b[n]];
    if a == [] && b == [] {
      script := [];
    } else if a == [] || (b != [] && Dist(a, b) == Dist(a, b[..n]) + 1) {
      var s := ShortestScript(a, b[..n]);
      ThenInsertLast(s, a, b[..n], b[n]);
      script := s + [Insert(n, b[n])];
    } else if b == [] || Dist(a, b) == Dist(a[..m], b) + 1 {
      var s := ShortestScript(a[..m], b);
      DeleteLastFirst(s, a[..m], b, a[m]);
      script := [Delete(m)] + s;
    } else {
      var s := ShortestScript(a[..m], b[..n]);
      if a[m] == b[n] {
        RunBeforeSuffix(s, a[..m], b[..n], [a[m]]);
        script := s;
      } else {
        SubstituteLastFirst(s, a[..m], b[..n], a[m], b[n]);
        script := [Substitute(m, b[n])] + s;
      }
    }
  }

  /** Dist is the least number of edits over all scripts turning a into b. */
  ghost predicate LeastEdits(d: nat, a: string, b: string) {
    && (exists script :: Turns(script, a, b) && |script| == d)
    && (forall script :: Turns(script, a, b) ==> d <= |script|)
  }

  lemma DistIsLeast(a: string, b: string)
    ensures LeastEdits(Dist(a, b), a, b)
    ensures forall d: nat :: LeastEdits(d, a, b) ==> d == Dist(a, b)
  {
    var s := ShortestScript(a, b);
    assert Turns(s, a, b);
    forall script | Turns(script, a, b) ensures Dist(a, b) <= |script| {
      ScriptsAreLong(script, a, b);
    }
  }

  /** Least edit counts form a metric, whatever computed them. */
  lemma LeastEditsMetric(a: string, b: string, c: string, ab: nat, ba: nat, bc: nat, ac: nat)
    requires LeastEdits(ab, a, b) && LeastEdits(ba, b, a) && LeastEdits(bc, b, c) && LeastEdits(ac, a, c)
    ensures (ab == 0 <==> a == b) && ab == ba && ac <= ab + bc
  {
    DistIsLeast(a, b);
    DistIsLeast(b, a);
    DistIsLeast(b, c);
    DistIsLeast(a, c);
    DistZero(a, b);
    DistSymmetric(a, b);
    DistTriangle(a, b, c);
  }

  // ---------- the one-row table ----------

  /** t[i][j] obeys the recurrence for the first i runes of a and the first j runes of b. */
  ghost predicate IsTable(t: seq<seq<nat>>, a: string, b: string) {
    && |t| == |a| + 1
    && (forall i :: 0 <= i < |t| ==> |t[i]| == |b| + 1)
    && (forall i :: 0 <= i < |t| ==> t[i][0] == i)
    && (forall j :: 0 <= j <= |b| ==> t[0][j] == j)
    && forall i, j :: 0 < i < |t| && 0 < j <= |b| ==> Entry(t, a, b, i, j)
  }

  ghost predicate Entry(t: seq<seq<nat>>, a: string, b: string, i: int, j: int)
    requires |t| == |a| + 1 && forall k :: 0 <= k < |t| ==> |t[k]| == |b| + 1
    requires 0 < i < |t| && 0 < j <= |b|
  {
    t[i][j] == Best(t[i - 1][j], t[i][j - 1], t[i - 1][j - 1], a[i - 1] == b[j - 1])
  }

  lemma DistPrefixes(a: string, b: string, i: nat, j: nat)
    requires 0 < i <= |a| && 0 < j <= |b|
    ensures Dist(a[..i], b[..j])
            == Best(Dist(a[..i - 1], b[..j]), Dist(a[..i], b[..j - 1]), Dist(a[..i - 1], b[..j - 1]),
                    a[i - 1] == b[j - 1])
  {
    assert a[..i] == a[..i - 1] + [a[i - 1]] && b[..j] == b[..j - 1] + [b[j - 1]];
    DistSnoc(a[..i - 1], a[i - 1], b[..j - 1], b[j - 1]);
  }

  lemma DistSnoc(p: string, x: char, q: string, y: char)
    ensures Dist(p + [x], q + [y])
            == Best(Dist(p, q + [y]), Dist(p + [x], q), Dist(p, q), x == y)
  {
    assert (p + [x])[..|p|] == p && (q + [y])[..|q|] == q;
  }

  ghost function DistTable(a: string, b: string): seq<seq<nat>> {
    seq(|a| + 1, i requires 0 <= i <= |a| => seq(|b| + 1, j requires 0 <= j <= |b| => Dist(a[..i], b[..j])))
  }

  lemma DistTableEntry(a: string, b: string, i: nat, j: nat)
    requires 0 < i <= |a| && 0 < j <= |b|
    ensures Entry(DistTable(a, b), a, b, i, j)
  {
    DistPrefixes(a, b, i, j);
  }

  lemma TableOf(a: string, b: string) returns (t: seq<seq<nat>>)
    ensures IsTable(t, a, b) && LeastEdits(t[|a|][|b|], a, b)
  {
    t := DistTable(a, b);
    forall i, j | 0 < i < |t| && 0 < j <= |b| ensures Entry(t, a, b, i, j) {
      DistTableEntry(a, b, i, j);
    }
    assert a[..|a|] == a && b[..|b|] == b;
    DistIsLeast(a, b);
  }

  method StringEditDistance(a: string, b: string) returns (d: nat)
    ensures LeastEdits(d, a, b)
  {
    ghost var t := TableOf(a, b);
    var m, n := |a|, |b|;
    if m == 0 { return n; }
    if n == 0 { return m; }

    var row := new nat[n + 1];
    for j := 0 to n + 1
      invariant forall k :: 0 <= k < j ==> row[k] == t[0][k]
    {
      row[j] := j;
    }

    for i := 1 to m + 1
      invariant row[..] == t[i - 1]
    {
      NextRow(row, a, b, i, t);
    }
    return row[n];
  }

  /** The pass of the outer loop: row i takes the place of the row above it. */
  method NextRow(row: array<nat>, a: string, b: string, i: nat, ghost t: seq<seq<nat>>)
    requires IsTable(t, a, b) && 0 < i <= |a| && row[..] == t[i - 1]
    modifies row
    ensures row[..] == t[i]
  {
    var n := |b|;
    ghost var above, current := t[i - 1], t[i];
    var prev := row[0];
    row[0] := i;
    for j := 1 to n + 1
      invariant prev == above[j - 1]
      invariant forall k :: 0 <= k < j ==> row[k] == current[k]
      invariant forall k :: j <= k <= n ==> row[k] == above[k]
    {
      NextEntry(t, a, b, i, j);
      var cost := if a[i - 1] == b[j - 1] then 0 else 1;
      var tmp := row[j];
      row[j] := Min(Min(row[j] + 1, row[j - 1] + 1), prev + cost);
      prev := tmp;
    }
  }

  lemma NextEntry(t: seq<seq<nat>>, a: string, b: string, i: nat, j: nat)
    requires IsTable(t, a, b) && 0 < i <= |a| && 0 < j <= |b|
    ensures |t[i - 1]| == |t[i]| == |b| + 1
    ensures t[i][j] == Best(t[i - 1][j], t[i][j - 1], t[i - 1][j - 1], a[i - 1] == b[j - 1])
  {
    assert Entry(t, a, b, i, j);
  }
}
