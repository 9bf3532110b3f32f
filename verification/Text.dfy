/** Python string helpers: the whitespace test shared by `str.strip` and the `\s` of
    `re`, and stripping. */
module Text {
  /** `str.isspace`, which is also what `\s` matches in a `str` pattern. */
  predicate IsSpace(c: char) {
    var n := c as int;
    9 <= n <= 13 || 28 <= n <= 32 || n == 0x85 || n == 0xa0 || n == 0x1680 ||
    0x2000 <= n <= 0x200a || n == 0x2028 || n == 0x2029 || n == 0x202f || n == 0x205f || n == 0x3000
  }

  function StripLeft(s: string): string {
    if s != "" && IsSpace(s[0]) then StripLeft(s[1..]) else s
  }

  function StripRight(s: string): string {
    if s != "" && IsSpace(s[|s| - 1]) then StripRight(s[..|s| - 1]) else s
  }

  function Strip(s: string): string { StripRight(StripLeft(s)) }

  /** Nothing left to strip at either end. */
  predicate Trimmed(s: string) {
    s == "" || (!IsSpace(s[0]) && !IsSpace(s[|s| - 1]))
  }

  lemma {:induction false} StripLeftEnds(s: string)
    ensures StripLeft(s) == "" || !IsSpace(StripLeft(s)[0])
  {
    if s != "" && IsSpace(s[0]) {
      StripLeftEnds(s[1..]);
    }
  }

  lemma {:induction false} StripRightEnds(s: string)
    ensures var r := StripRight(s);
            (r == "" || (!IsSpace(r[|r| - 1]) && s != "" && r[0] == s[0])) && r <= s
  {
    if s != "" && IsSpace(s[|s| - 1]) {
      StripRightEnds(s[..|s| - 1]);
    }
  }

  lemma StripTrims(s: string)
    ensures Trimmed(Strip(s))
  {
    StripLeftEnds(s);
    StripRightEnds(StripLeft(s));
  }

  lemma StripOfTrimmed(s: string)
    requires Trimmed(s)
    ensures Strip(s) == s
  {
  }

  // ---- whitespace runs ------------------------------------------------------ //

  predicate AllSpace(s: string) { forall i :: 0 <= i < |s| ==> IsSpace(s[i]) }

  /** How many leading characters are whitespace. */
  function SpaceLen(s: string): (n: nat)
    ensures n <= |s| && AllSpace(s[..n]) && (n < |s| ==> !IsSpace(s[n]))
  {
    if s != "" && IsSpace(s[0]) then 1 + SpaceLen(s[1..]) else 0
  }

  /** What one character adds to the collapsed text; `after` says whether the previous
      character was whitespace. */
  function Squeeze(c: char, after: bool): string {
    if !IsSpace(c) then [c] else if after then "" else " "
  }

  /** `re.sub(r"\s+", " ", s)`, one character at a time. */
  function CollapseFrom(s: string, after: bool): string {
    if s == "" then "" else Squeeze(s[0], after) + CollapseFrom(s[1..], IsSpace(s[0]))
  }

  function Collapse(s: string): string { CollapseFrom(s, false) }

  /** `re.sub(r"\s+", "", s)`. */
  function RemoveSpace(s: string): string {
    if s == "" then "" else (if IsSpace(s[0]) then "" else [s[0]]) + RemoveSpace(s[1..])
  }

  /** `re.findall(r"\s+", s)`. */
  function Runs(s: string): seq<string>
    decreases |s|
  {
    if s == "" then []
    else
      var n := SpaceLen(s);
      if n == 0 then Runs(s[1..]) else [s[..n]] + Runs(s[n..])
  }

  // ---- line breaks ------------------------------------------------------------ //

  predicate IsLineBreak(c: char) {
    var n := c as int;
    10 <= n <= 13 || 28 <= n <= 30 || n == 0x85 || n == 0x2028 || n == 0x2029
  }

  predicate IsBoundary(c: char) { c == ' ' || c == '\t' || IsLineBreak(c) }

  function BoundaryLen(s: string): (n: nat)
    ensures n <= |s| && forall i :: 0 <= i < n ==> IsBoundary(s[i])
  {
    if s != "" && IsBoundary(s[0]) then 1 + BoundaryLen(s[1..]) else 0
  }

  predicate HasLineBreak(s: string) { exists i :: 0 <= i < |s| && IsLineBreak(s[i]) }

  /** Each maximal run of blanks and line breaks that holds a line break becomes one
      space; every other run is kept as it is. */
  function FlattenRuns(s: string): string
    decreases |s|
  {
    if s == "" then ""
    else
      var n := BoundaryLen(s);
      if n == 0 then [s[0]] + FlattenRuns(s[1..])
      else (if HasLineBreak(s[..n]) then " " else s[..n]) + FlattenRuns(s[n..])
  }

  function FlattenLineBreaks(s: string): string {
    if HasLineBreak(s) then FlattenRuns(s) else s
  }

  // ---- collapsing commutes with flattening and stripping ---------------------- //

  function AfterSpace(s: string, after: bool): bool {
    if s == "" then after else IsSpace(s[|s| - 1])
  }

  lemma Associate(x: string, y: string, z: string)
    ensures x + (y + z) == (x + y) + z
  {
  }

  lemma {:induction false} CollapseConcat(s: string, t: string, after: bool)
    ensures CollapseFrom(s + t, after) == CollapseFrom(s, after) + CollapseFrom(t, AfterSpace(s, after))
  {
    if s == "" {
      assert s + t == t;
    } else {
      var space := IsSpace(s[0]);
      var tail := CollapseFrom(t, AfterSpace(s, after));
      assert AfterSpace(s, after) == AfterSpace(s[1..], space);
      assert (s + t)[0] == s[0] && (s + t)[1..] == s[1..] + t;
      CollapseConcat(s[1..], t, space);
      Associate(Squeeze(s[0], after), CollapseFrom(s[1..], space), tail);
    }
  }

  lemma {:induction false} CollapseSpaces(u: string, after: bool)
    requires u != "" && AllSpace(u)
    ensures CollapseFrom(u, after) == (if after then "" else " ") && AfterSpace(u, after)
  {
    if |u| > 1 {
      CollapseSpaces(u[1..], true);
    }
  }

  /** Two whitespace runs in front of the same text collapse alike. */
  lemma CollapseSwap(u: string, v: string, t: string, after: bool)
    requires u != "" && v != "" && AllSpace(u) && AllSpace(v)
    ensures CollapseFrom(u + t, after) == CollapseFrom(v + t, after)
    ensures CollapseFrom(u + t, after) == Squeeze(' ', after) + CollapseFrom(t, true)
  {
    CollapseSpaces(u, after);
    CollapseSpaces(v, after);
    CollapseConcat(u, t, after);
    CollapseConcat(v, t, after);
  }

  lemma {:induction false} CollapseFlattenRuns(s: string, after: bool)
    ensures CollapseFrom(FlattenRuns(s), after) == CollapseFrom(s, after)
    decreases |s|
  {
    if s != "" {
      var n := BoundaryLen(s);
      if n == 0 {
        CollapseFlattenRuns(s[1..], IsSpace(s[0]));
      } else {
        var run, rest := s[..n], s[n..];
        var kept := if HasLineBreak(run) then " " else run;
        assert s == run + rest;
        CollapseFlattenRuns(rest, true);
        CollapseSwap(run, kept, rest, after);
        CollapseSwap(kept, kept, FlattenRuns(rest), after);
      }
    }
  }

  /** Flattening only rewrites whitespace to whitespace. */
  lemma CollapseFlatten(s: string)
    ensures Collapse(FlattenLineBreaks(s)) == Collapse(s)
  {
    CollapseFlattenRuns(s, false);
  }

  lemma {:induction false} SplitLeft(s: string)
    ensures exists u :: AllSpace(u) && s == u + StripLeft(s)
  {
    if s != "" && IsSpace(s[0]) {
      SplitLeft(s[1..]);
      var u :| AllSpace(u) && s[1..] == u + StripLeft(s[1..]);
      assert s == ([s[0]] + u) + StripLeft(s);
      assert AllSpace([s[0]] + u);
    } else {
      assert s == "" + s && AllSpace("");
    }
  }

  lemma {:induction false} SplitRight(s: string)
    ensures exists u :: AllSpace(u) && s == StripRight(s) + u
  {
    if s != "" && IsSpace(s[|s| - 1]) {
      var t := s[..|s| - 1];
      SplitRight(t);
      var u :| AllSpace(u) && t == StripRight(t) + u;
      assert s == StripRight(s) + (u + [s[|s| - 1]]);
      assert AllSpace(u + [s[|s| - 1]]);
    } else {
      assert s == s + "" && AllSpace("");
    }
  }

  lemma CollapseStarts(s: string)
    requires s != "" && !IsSpace(s[0])
    ensures CollapseFrom(s, true) == CollapseFrom(s, false) && Collapse(s) != "" && Collapse(s)[0] == s[0]
  {
  }

  lemma CollapseEnds(s: string)
    requires s != "" && !IsSpace(s[|s| - 1])
    ensures Collapse(s) != "" && Collapse(s)[|Collapse(s)| - 1] == s[|s| - 1]
  {
    var t := s[..|s| - 1];
    assert s == t + [s[|s| - 1]];
    CollapseConcat(t, [s[|s| - 1]], false);
    assert CollapseFrom([s[|s| - 1]], AfterSpace(t, false)) == [s[|s| - 1]];
  }

  /** Leading whitespace collapses to at most one space, which leaves the rest alone
      unless the rest starts with whitespace too. */
  lemma CollapseLead(u: string, t: string)
    requires AllSpace(u) && (t == "" || !IsSpace(t[0]))
    ensures Collapse(u + t) == (if u == "" then "" else " ") + Collapse(t)
  {
    if u == "" {
      assert u + t == t;
    } else {
      CollapseSwap(u, u, t, false);
      if t != "" { CollapseStarts(t); }
    }
  }

  lemma CollapseTail(t: string, v: string)
    requires AllSpace(v) && t != "" && !IsSpace(t[|t| - 1])
    ensures Collapse(t + v) == Collapse(t) + (if v == "" then "" else " ")
  {
    CollapseConcat(t, v, false);
    if v != "" { CollapseSpaces(v, false); }
  }

  lemma StripAround(lead: string, t: string, tail: string)
    requires lead in ["", " "] && tail in ["", " "] && t != "" && Trimmed(t)
    ensures Strip(lead + (t + tail)) == t
  {
    var s := lead + (t + tail);
    var body := t + tail;
    assert StripLeft(body) == body;
    if lead == " " {
      assert s[0] == ' ' && s[1..] == body;
    } else {
      assert s == body;
    }
    assert StripRight(t) == t;
    if tail == " " {
      assert body[|body| - 1] == ' ' && body[..|body| - 1] == t;
    } else {
      assert body == t;
    }
    assert StripRight(body) == t;
  }

  /** A trimmed string between whitespace, collapsed and stripped, is the string
      collapsed. */
  lemma StripPadded(u: string, t: string, v: string)
    requires AllSpace(u) && AllSpace(v) && Trimmed(t) && t != ""
    ensures Strip(Collapse(u + (t + v))) == Collapse(t)
  {
    CollapseLead(u, t + v);
    CollapseTail(t, v);
    CollapseStarts(t);
    CollapseEnds(t);
    StripAround(if u == "" then "" else " ", Collapse(t), if v == "" then "" else " ");
  }

  /** Stripping and collapsing commute. */
  lemma StripCollapse(s: string)
    ensures Strip(Collapse(s)) == Collapse(Strip(s))
  {
    SplitLeft(s);
    var u :| AllSpace(u) && s == u + StripLeft(s);
    SplitRight(StripLeft(s));
    var v :| AllSpace(v) && StripLeft(s) == Strip(s) + v;
    StripTrims(s);
    if Strip(s) == "" {
      assert s == u + v;
      if s != "" { CollapseSpaces(s, false); }
      assert StripLeft(" ") == "";
    } else {
      StripPadded(u, Strip(s), v);
    }
  }

  // ---- collapsed text plus its runs is the text ------------------------------- //

  lemma {:induction false} RemoveCollapsed(s: string, after: bool)
    ensures RemoveSpace(CollapseFrom(s, after)) == RemoveSpace(s)
  {
    if s != "" {
      var rest := CollapseFrom(s[1..], IsSpace(s[0]));
      RemoveCollapsed(s[1..], IsSpace(s[0]));
      assert Squeeze(s[0], after) == "" ==> "" + rest == rest;
      assert Squeeze(s[0], after) != "" ==> (Squeeze(s[0], after) + rest)[1..] == rest;
    }
  }

  lemma CollapseRun(s: string)
    requires s != "" && IsSpace(s[0])
    ensures var n := SpaceLen(s);
            n > 0 && Collapse(s) == " " + Collapse(s[n..]) && Runs(s) == [s[..n]] + Runs(s[n..])
  {
    var n := SpaceLen(s);
    assert s == s[..n] + s[n..];
    CollapseConcat(s[..n], s[n..], false);
    CollapseSpaces(s[..n], false);
    if s[n..] != "" { CollapseStarts(s[n..]); }
  }

  /** Two strings that collapse alike and have the same whitespace runs are equal. */
  lemma {:induction false} CollapseAndRuns(l: string, r: string)
    requires Collapse(l) == Collapse(r) && Runs(l) == Runs(r)
    ensures l == r
    decreases |l|
  {
    if l == "" {
      assert r != "" ==> Collapse(r) != "";
    } else if IsSpace(l[0]) {
      CollapseRun(l);
      assert Collapse(l)[0] == ' ';
      assert r != "" && IsSpace(r[0]);
      CollapseRun(r);
      var n, m := SpaceLen(l), SpaceLen(r);
      assert Runs(l)[0] == l[..n] && Runs(r)[0] == r[..m];
      assert n == m;
      assert Runs(l)[1..] == Runs(l[n..]) && Runs(r)[1..] == Runs(r[n..]);
      assert Collapse(l)[1..] == Collapse(l[n..]) && Collapse(r)[1..] == Collapse(r[n..]);
      CollapseAndRuns(l[n..], r[n..]);
      assert l == l[..n] + l[n..] && r == r[..n] + r[n..];
    } else {
      assert Collapse(l)[0] == l[0];
      assert r != "" && r[0] == l[0];
      assert Collapse(l)[1..] == Collapse(l[1..]) && Collapse(r)[1..] == Collapse(r[1..]);
      CollapseAndRuns(l[1..], r[1..]);
      assert l == [l[0]] + l[1..] && r == [r[0]] + r[1..];
    }
  }
}
