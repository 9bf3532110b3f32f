/** The bounded edit distance of the text verifier, against the recursive definition,
    and that definition against the least number of single-character edits. */
module EditDistance {
  import opened Pieces

  function Cost(c: char, d: char): nat { if c == d then 0 else 1 }

  function Front(s: string): string
    requires s != ""
  {
    s[..|s| - 1]
  }

  function Last(s: string): char
    requires s != ""
  {
    s[|s| - 1]
  }

  /** A deletion, an insertion or a replacement on top of the three smaller distances. */
  function Least(up: nat, left: nat, diagonal: nat, cost: nat): (d: nat)
    ensures d <= up + 1 && d <= left + 1 && d <= diagonal + cost
    ensures d == up + 1 || d == left + 1 || d == diagonal + cost
  {
    Min(Min(up + 1, left + 1), diagonal + cost)
  }

  function Dist(a: string, b: string): nat
    decreases |a| + |b|
  {
    if a == "" then |b|
    else if b == "" then |a|
    else
      Least(Dist(Front(a), b), Dist(a, Front(b)), Dist(Front(a), Front(b)), Cost(Last(a), Last(b)))
  }

  // ---- bounds used by the early exits ------------------------------------- //

  lemma {:induction false} LengthBound(a: string, b: string)
    ensures Dist(a, b) >= |a| - |b| && Dist(a, b) >= |b| - |a|
    decreases |a| + |b|
  {
    if a != "" && b != "" {
      LengthBound(a[..|a| - 1], b);
      LengthBound(a, b[..|b| - 1]);
      LengthBound(a[..|a| - 1], b[..|b| - 1]);
    }
  }

  /** An entry of the table: the distance between two prefixes. */
  function Entry(a: string, b: string, i: nat, j: nat): nat
    requires i <= |a| && j <= |b|
  {
    Dist(a[..i], b[..j])
  }

  lemma Corner(a: string, b: string)
    ensures Entry(a, b, |a|, |b|) == Dist(a, b)
  {
    assert a[..|a|] == a && b[..|b|] == b;
  }

  lemma Edges(a: string, b: string, i: nat)
    ensures i <= |a| ==> Entry(a, b, i, 0) == i
    ensures i <= |b| ==> Entry(a, b, 0, i) == i
  {
  }

  lemma Cell(a: string, b: string, i: nat, j: nat)
    requires i < |a| && j < |b|
    ensures Entry(a, b, i + 1, j + 1) ==
            Least(Entry(a, b, i, j + 1), Entry(a, b, i + 1, j), Entry(a, b, i, j), Cost(a[i], b[j]))
  {
    assert a[..i + 1][..i] == a[..i] && b[..j + 1][..j] == b[..j];
  }

  ghost predicate RowAbove(a: string, b: string, i: nat, m: int)
    requires i <= |a|
  {
    forall j: nat :: j <= |b| ==> Entry(a, b, i, j) > m
  }

  lemma {:induction false} NextCellAbove(a: string, b: string, i: nat, j: nat, m: int)
    requires i < |a| && j <= |b| && RowAbove(a, b, i, m)
    ensures Entry(a, b, i + 1, j) > m
  {
    if j == 0 {
      Edges(a, b, i);
      Edges(a, b, i + 1);
      assert Entry(a, b, i, 0) > m;
    } else {
      NextCellAbove(a, b, i, j - 1, m);
      Cell(a, b, i, j - 1);
      assert Entry(a, b, i, j) > m && Entry(a, b, i, j - 1) > m;
    }
  }

  /** Once a whole row exceeds the bound, so does the distance. */
  lemma {:induction false} RowExit(a: string, b: string, i: nat, m: int)
    requires i <= |a| && RowAbove(a, b, i, m)
    ensures Dist(a, b) > m
    decreases |a| - i
  {
    if i == |a| {
      Corner(a, b);
      assert Entry(a, b, i, |b|) > m;
    } else {
      var next := i + 1;
      forall j: nat | j <= |b| ensures Entry(a, b, next, j) > m {
        NextCellAbove(a, b, i, j, m);
      }
      RowExit(a, b, next, m);
    }
  }

  /** The first `n` entries of `row` are those of table row `i`. */
  ghost predicate RowHolds(row: seq<int>, a: string, b: string, i: nat, n: nat)
    requires i <= |a|
  {
    n <= |b| + 1 == |row| && forall j: nat :: j < n ==> row[j] == Entry(a, b, i, j)
  }

  /** One turn of the inner loops: `cur` becomes row `i`, with its minimum. */
  method FillRow(a: string, b: string, i: nat, prev: array<int>, cur: array<int>) returns (rowMin: int)
    requires 0 < i <= |a| && prev != cur && cur.Length == |b| + 1
    requires RowHolds(prev[..], a, b, i - 1, |b| + 1)
    modifies cur
    ensures RowHolds(cur[..], a, b, i, |b| + 1)
    ensures forall j: nat :: j <= |b| ==> rowMin <= Entry(a, b, i, j)
  {
    cur[0] := i;
    rowMin := cur[0];
    Edges(a, b, i);
    for j := 1 to |b| + 1
      invariant RowHolds(prev[..], a, b, i - 1, |b| + 1)
      invariant RowHolds(cur[..], a, b, i, j)
      invariant forall k: nat :: k < j ==> rowMin <= Entry(a, b, i, k)
    {
      var cost := if a[i - 1] == b[j - 1] then 0 else 1;
      Cell(a, b, i - 1, j - 1);
      assert prev[..][j] == prev[j] && prev[..][j - 1] == prev[j - 1] && cur[..][j - 1] == cur[j - 1];
      ghost var before := cur[..];
      cur[j] := Min(Min(prev[j] + 1, cur[j - 1] + 1), prev[j - 1] + cost);
      assert cur[..] == before[j := cur[j]];
      if cur[j] < rowMin {
        rowMin := cur[j];
      }
    }
  }

  /** Two rows, swapped after each character of `a`; gives up as soon as the lengths or
      a whole row show that the distance exceeds `maxD`. */
  method Levenshtein(a: string, b: string, maxD: int) returns (d: int)
    ensures d <= maxD <==> Dist(a, b) <= maxD
    ensures d <= maxD ==> d == Dist(a, b)
  {
    LengthBound(a, b);
    var gap := if |a| < |b| then |b| - |a| else |a| - |b|;
    if gap > maxD {
      return maxD + 1;
    }
    var prev := new int[|b| + 1](j => j);
    var cur := new int[|b| + 1](_ => 0);
    forall j: nat | j <= |b| ensures prev[..][j] == Entry(a, b, 0, j) {
      Edges(a, b, j);
    }
    for i := 1 to |a| + 1
      invariant fresh(prev) && fresh(cur) && prev != cur && prev.Length == cur.Length == |b| + 1
      invariant RowHolds(prev[..], a, b, i - 1, |b| + 1)
    {
      var rowMin := FillRow(a, b, i, prev, cur);
      if rowMin > maxD {
        RowExit(a, b, i, maxD);
        return maxD + 1;
      }
      prev, cur := cur, prev;
    }
    Corner(a, b);
    d := prev[|b|];
    assert prev[..][|b|] == d;
  }

  // ---- single-character edits ------------------------------------------------ //

  datatype Edit = Insert(at: nat, c: char) | Delete(at: nat) | Replace(at: nat, c: char)

  predicate Fits(e: Edit, s: string) {
    if e.Insert? then e.at <= |s| else e.at < |s|
  }

  function Apply(e: Edit, s: string): string
    requires Fits(e, s)
  {
    match e
    case Insert(at, c) => s[..at] + [c] + s[at..]
    case Delete(at) => s[..at] + s[at + 1..]
    case Replace(at, c) => s[at := c]
  }

  /** The edits of `es`, in order, turn `s` into `t`. */
  predicate Turns(es: seq<Edit>, s: string, t: string) {
    if es == [] then s == t
    else Fits(es[0], s) && Turns(es[1..], Apply(es[0], s), t)
  }

  lemma DistStep(a: string, b: string)
    requires a != "" && b != ""
    ensures Dist(a, b) ==
            Least(Dist(Front(a), b), Dist(a, Front(b)), Dist(Front(a), Front(b)), Cost(Last(a), Last(b)))
  {
  }

  lemma DistEmpty(a: string)
    ensures Dist(a, "") == |a| && Dist("", a) == |a|
  {
  }

  /** How an edit of a nonempty string relates to its front: it edits the end, or it
      edits the front and leaves the last character. */
  lemma EditEnds(e: Edit, a: string)
    requires Fits(e, a) && a != "" && Apply(e, a) != ""
    ensures var a2 := Apply(e, a);
            (e.Insert? && Front(a2) == a) ||
            (e.Delete? && a2 == Front(a)) ||
            (e.Replace? && Front(a2) == Front(a)) ||
            (Fits(e, Front(a)) && Front(a2) == Apply(e, Front(a)) && Last(a2) == Last(a))
  {
    var a2 := Apply(e, a);
    if e.Insert? && e.at == |a| {
      assert Front(a2) == a;
    } else if e.Delete? && e.at == |a| - 1 {
      assert a2 == Front(a);
    } else if e.Replace? && e.at == |a| - 1 {
      assert Front(a2) == Front(a);
    } else {
      assert Front(a2) == Apply(e, Front(a));
    }
  }

  /** One edit changes the distance to any `b` by at most one. */
  lemma {:induction false} OneEdit(e: Edit, a: string, b: string)
    requires Fits(e, a)
    ensures Dist(a, b) <= Dist(Apply(e, a), b) + 1
    decreases |a| + |b|, 1
  {
    var a2 := Apply(e, a);
    if a != "" && a2 != "" && b != "" {
      OneEditInside(e, a, b);
    } else {
      DistEmpty(a);
      DistEmpty(a2);
      DistEmpty(b);
      if b != "" {
        LengthBound(a2, b);
        LengthBound(a, b);
        if a != "" {
          DistStep(a, b);
          assert Front(a) == "";
        }
      }
    }
  }

  lemma {:induction false} OneEditInside(e: Edit, a: string, b: string)
    requires Fits(e, a) && a != "" && Apply(e, a) != "" && b != ""
    ensures Dist(a, b) <= Dist(Apply(e, a), b) + 1
    decreases |a| + |b|, 0
  {
    var a2 := Apply(e, a);
    DistStep(a, b);
    DistStep(a2, b);
    EditEnds(e, a);
    OneEdit(e, a, Front(b));
    if Fits(e, Front(a)) && Front(a2) == Apply(e, Front(a)) {
      OneEdit(e, Front(a), b);
      OneEdit(e, Front(a), Front(b));
    }
  }

  lemma {:induction false} SameIsNear(a: string)
    ensures Dist(a, a) == 0
  {
    if a != "" {
      SameIsNear(Front(a));
      DistStep(a, a);
    }
  }

  lemma {:induction false} NoScriptIsShorter(es: seq<Edit>, a: string, b: string)
    requires Turns(es, a, b)
    ensures Dist(a, b) <= |es|
  {
    if es == [] {
      SameIsNear(a);
    } else {
      NoScriptIsShorter(es[1..], Apply(es[0], a), b);
      OneEdit(es[0], a, b);
    }
  }

  lemma {:induction false} TurnsAppend(es: seq<Edit>, s: string, t: string, e: Edit)
    requires Turns(es, s, t) && Fits(e, t)
    ensures Turns(es + [e], s, Apply(e, t))
  {
    if es == [] {
      assert Turns([], Apply(e, s), Apply(e, t));
    } else {
      TurnsAppend(es[1..], Apply(es[0], s), t, e);
      assert (es + [e])[1..] == es[1..] + [e];
    }
  }

  /** A script works the same way in front of a common last character. */
  lemma {:induction false} TurnsBefore(es: seq<Edit>, s: string, t: string, c: char)
    requires Turns(es, s, t)
    ensures Turns(es, s + [c], t + [c])
  {
    if es != [] {
      assert Apply(es[0], s + [c]) == Apply(es[0], s) + [c];
      TurnsBefore(es[1..], Apply(es[0], s), t, c);
    }
  }

  /** A script as long as the distance: the last characters are inserted, deleted,
      replaced or kept as the minimum says. */
  lemma {:induction false} ShortestScript(a: string, b: string) returns (es: seq<Edit>)
    ensures Turns(es, a, b) && |es| == Dist(a, b)
    decreases |a| + |b|
  {
    DistEmpty(a);
    DistEmpty(b);
    if a == "" && b == "" {
      es := [];
    } else if a == "" {
      es := InsertLast(a, b);
    } else if b == "" {
      es := DeleteLast(a, b);
    } else {
      DistStep(a, b);
      if Dist(a, b) == Dist(a, Front(b)) + 1 {
        es := InsertLast(a, b);
      } else if Dist(a, b) == Dist(Front(a), b) + 1 {
        es := DeleteLast(a, b);
      } else {
        es := MatchLast(a, b);
      }
    }
  }

  lemma {:induction false} InsertLast(a: string, b: string) returns (es: seq<Edit>)
    requires b != ""
    ensures Turns(es, a, b) && |es| == Dist(a, Front(b)) + 1
    decreases |a| + |b|, 0
  {
    es := ShortestScript(a, Front(b));
    es := ExtendInsert(es, a, b);
  }

  lemma ExtendInsert(es: seq<Edit>, a: string, b: string) returns (r: seq<Edit>)
    requires b != "" && Turns(es, a, Front(b))
    ensures Turns(r, a, b) && |r| == |es| + 1
  {
    var e := Insert(|b| - 1, Last(b));
    assert Apply(e, Front(b)) == b;
    TurnsAppend(es, a, Front(b), e);
    r := es + [e];
  }

  lemma {:induction false} DeleteLast(a: string, b: string) returns (es: seq<Edit>)
    requires a != ""
    ensures Turns(es, a, b) && |es| == Dist(Front(a), b) + 1
    decreases |a| + |b|, 0
  {
    var rest := ShortestScript(Front(a), b);
    assert Apply(Delete(|a| - 1), a) == Front(a);
    es := [Delete(|a| - 1)] + rest;
    assert es[1..] == rest;
  }

  lemma {:induction false} MatchLast(a: string, b: string) returns (es: seq<Edit>)
    requires a != "" && b != ""
    ensures Turns(es, a, b) && |es| == Dist(Front(a), Front(b)) + Cost(Last(a), Last(b))
    decreases |a| + |b|, 0
  {
    es := ShortestScript(Front(a), Front(b));
    es := ExtendMatch(es, a, b);
  }

  lemma ExtendMatch(es: seq<Edit>, a: string, b: string) returns (r: seq<Edit>)
    requires a != "" && b != "" && Turns(es, Front(a), Front(b))
    ensures Turns(r, a, b) && |r| == |es| + Cost(Last(a), Last(b))
  {
    r := es;
    TurnsBefore(es, Front(a), Front(b), Last(a));
    Ends(a);
    Ends(b);
    if Last(a) != Last(b) {
      r := ReplaceLast(es, a, b, Last(a));
    }
  }

  lemma Ends(s: string)
    requires s != ""
    ensures Front(s) + [Last(s)] == s
  {
  }

  lemma ReplaceLast(es: seq<Edit>, a: string, b: string, c: char) returns (longer: seq<Edit>)
    requires b != "" && Turns(es, a, Front(b) + [c])
    ensures Turns(longer, a, b) && |longer| == |es| + 1
  {
    var t := Front(b) + [c];
    var e := Replace(|b| - 1, Last(b));
    assert Apply(e, t) == b;
    TurnsAppend(es, a, t, e);
    longer := es + [e];
  }

  /** The recursive distance is the least number of single-character insertions,
      deletions and replacements that turn `a` into `b`. */
  lemma DistIsLeastEdits(a: string, b: string)
    ensures exists es :: Turns(es, a, b) && |es| == Dist(a, b)
    ensures forall es :: Turns(es, a, b) ==> |es| >= Dist(a, b)
  {
    var shortest := ShortestScript(a, b);
    forall es | Turns(es, a, b) ensures |es| >= Dist(a, b) {
      NoScriptIsShorter(es, a, b);
    }
  }
}
