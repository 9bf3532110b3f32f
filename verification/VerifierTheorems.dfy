/** What the read-back verifier promises. */
module VerifierTheorems {
  import opened Options
  import opened Text
  import opened Overlap
  import opened Verification

  // ---- normal forms ---------------------------------------------------------- //

  /** Every whitespace character is a plain space. */
  predicate PlainSpaces(s: string) { forall i :: 0 <= i < |s| && IsSpace(s[i]) ==> s[i] == ' ' }

  lemma {:induction false} CollapsedShape(s: string, after: bool)
    ensures PlainSpaces(CollapseFrom(s, after))
    ensures Spaced(CollapseFrom(s, after) + "x", after)
  {
    if s != "" {
      var rest := CollapseFrom(s[1..], IsSpace(s[0]));
      CollapsedShape(s[1..], IsSpace(s[0]));
      var piece := Squeeze(s[0], after);
      if piece == "" {
        assert piece + rest == rest;
      } else {
        assert (piece + rest + "x")[0] == piece[0] && (piece + rest + "x")[1..] == rest + "x";
      }
    }
  }

  lemma {:induction false} SpacedFront(s: string, t: string, after: bool)
    requires Spaced(s + t, after) && s != "" && s[|s| - 1] != ' '
    ensures Spaced(s, after)
  {
    assert (s + t)[0] == s[0] && (s + t)[1..] == s[1..] + t;
    if |s| > 1 {
      SpacedFront(s[1..], t, s[0] == ' ');
    } else {
      assert s[1..] == "";
    }
  }

  lemma {:induction false} CollapseIsIdentity(s: string, after: bool)
    requires PlainSpaces(s) && (s == "" || Spaced(s, after))
    ensures CollapseFrom(s, after) == s
  {
    if s != "" {
      assert PlainSpaces(s[1..]);
      if |s| > 1 {
        CollapseIsIdentity(s[1..], IsSpace(s[0]));
      }
      assert s == [s[0]] + s[1..];
    }
  }

  predicate Normal(s: string) { PlainSpaces(s) && SingleSpaced(s) && Trimmed(s) }

  lemma CompactIsNormal(s: string)
    ensures Normal(Strip(Collapse(s)))
  {
    var t := Strip(s);
    StripCollapse(s);
    StripTrims(s);
    CollapsedShape(t, true);
    if t != "" {
      CollapseStarts(t);
      CollapseEnds(t);
      SpacedFront(Collapse(t), "x", true);
    }
  }

  lemma {:induction false} LowerKeepsSpaced(s: string, after: bool)
    requires Spaced(s, after)
    ensures Spaced(Lower(s), after)
  {
    if s != "" {
      LowerKeepsSpaced(s[1..], s[0] == ' ');
      assert Lower(s)[1..] == Lower(s[1..]);
    }
  }

  lemma LowerKeepsNormal(s: string)
    requires Normal(s)
    ensures Normal(Lower(s))
  {
    if s != "" {
      LowerKeepsSpaced(s, true);
      assert forall i :: 0 <= i < |s| ==> IsSpace(Lower(s)[i]) == IsSpace(s[i]);
    }
  }

  lemma NormIsNormal(s: string, precise: bool)
    ensures Normal(Norm(s, precise))
  {
    var compact := Strip(Collapse(Quotes(s)));
    CompactIsNormal(Quotes(s));
    LowerKeepsNormal(compact);
  }

  predicate QuotesFolded(s: string) { forall i :: 0 <= i < |s| ==> FoldQuote(s[i]) == s[i] }

  lemma {:induction false} CollapseKeepsFolded(s: string, after: bool)
    requires QuotesFolded(s)
    ensures QuotesFolded(CollapseFrom(s, after))
  {
    if s != "" {
      CollapseKeepsFolded(s[1..], IsSpace(s[0]));
    }
  }

  lemma StripIsSlice(s: string)
    ensures exists i, j :: 0 <= i <= j <= |s| && Strip(s) == s[i..j]
  {
    SplitLeft(s);
    var u :| AllSpace(u) && s == u + StripLeft(s);
    SplitRight(StripLeft(s));
    var v :| AllSpace(v) && StripLeft(s) == Strip(s) + v;
    assert Strip(s) == s[|u|..|u| + |Strip(s)|];
  }

  lemma CompactIsFolded(s: string)
    requires QuotesFolded(s)
    ensures QuotesFolded(Strip(Collapse(s)))
  {
    CollapseKeepsFolded(s, false);
    StripIsSlice(Collapse(s));
  }

  lemma LowerKeepsFolded(s: string)
    requires QuotesFolded(s)
    ensures QuotesFolded(Lower(s)) && Lower(Lower(s)) == Lower(s)
  {
  }

  lemma QuotesAreFolded(s: string)
    ensures QuotesFolded(Quotes(s))
  {
  }

  /** Folding, collapsing and trimming leave a folded normal text alone. */
  lemma CompactFixed(n: string)
    requires Normal(n) && QuotesFolded(n)
    ensures Strip(Collapse(Quotes(n))) == n
  {
    assert Quotes(n) == n;
    CollapseIsIdentity(n, true);
    if n != "" { CollapseStarts(n); }
    StripOfTrimmed(n);
  }

  /** Normalising twice changes nothing. */
  lemma NormIdempotent(s: string, precise: bool)
    ensures Norm(Norm(s, precise), precise) == Norm(s, precise)
  {
    var compact := Strip(Collapse(Quotes(s)));
    CompactIsNormal(Quotes(s));
    QuotesAreFolded(s);
    CompactIsFolded(Quotes(s));
    if precise {
      CompactFixed(compact);
    } else {
      LowerKeepsNormal(compact);
      LowerKeepsFolded(compact);
      CompactFixed(Lower(compact));
    }
  }

  // ---- the two trees --------------------------------------------------------------- //

  lemma {:induction false} SuffixIsWithin(x: string, y: string)
    requires EndsWith(y, x)
    ensures Within(x, y)
  {
    if |x| == |y| {
      assert y[0..] == y;
    } else {
      assert EndsWith(y[1..], x) by { assert y[1..][|y| - 1 - |x|..] == y[|y| - |x|..]; }
      SuffixIsWithin(x, y[1..]);
    }
  }

  lemma {:induction false} NoAlnumNoCase(s: string)
    requires KeepAlnum(Lower(s)) == ""
    ensures Lower(s) == s
  {
    if s != "" {
      assert Lower(s)[1..] == Lower(s[1..]);
      NoAlnumNoCase(s[1..]);
      assert s == [s[0]] + s[1..] && Lower(s) == [LowerChar(s[0])] + Lower(s[1..]);
    }
  }

  /** Texts that differ in letter case alone have letters. */
  lemma CaseNeedsAlnum(ni: string, nr: string)
    requires Lower(ni) == Lower(nr) && ni != nr
    ensures AlnumFoldCase(ni) != ""
  {
    if AlnumFoldCase(ni) == "" {
      NoAlnumNoCase(ni);
      NoAlnumNoCase(nr);
    }
  }

  /** The same words in any order overlap completely. */
  lemma SameWordsOverlap(intended: string, read: string, precise: bool)
    requires WordSet(Norm(intended, precise), precise) == WordSet(Norm(read, precise), precise)
    ensures OverlapRatio(Norm(intended, precise), Norm(read, precise)) == 1.0
  {
    var ni, nr := Norm(intended, precise), Norm(read, precise);
    NormIdempotent(intended, precise);
    NormIdempotent(read, precise);
    NormIsNormal(intended, precise);
    NormIsNormal(read, precise);
    SortedWordsPermute(ni);
    SortedWordsPermute(nr);
    FullOverlap(ni, nr);
  }

  lemma NormOfEmpty(precise: bool)
    ensures Norm("", precise) == ""
  {
    assert Quotes("") == "" && Lower("") == "";
  }

  /** In precise mode the trees agree on any two normal forms. */
  lemma PreciseTreesAgree(ni: string, nr: string, ck: string, cr: string, same: bool, allowed: int)
    ensures StrippedVerdict(ni, nr, ck, cr, true, allowed) == Mismatch <==>
            StrippedKind(ni, nr, ck, cr, same, true, allowed).Some?
  {
    if ni != nr {
      if nr == "" { EmptyOverlap(ni); }
      if Lower(ni) == Lower(nr) { CaseNeedsAlnum(ni, nr); }
    }
  }

  /** In lenient mode they agree as well: a suffix was found before, and equal words
      overlap completely. */
  lemma LenientTreesAgree(ni: string, nr: string, ck: string, cr: string, same: bool, allowed: int)
    requires same ==> OverlapRatio(ni, nr) == 1.0
    ensures StrippedVerdict(ni, nr, ck, cr, false, allowed) == Mismatch <==>
            StrippedKind(ni, nr, ck, cr, same, false, allowed).Some?
  {
    if ni != nr {
      if nr == "" { EmptyOverlap(ni); }
      if EndsWith(nr, ni) { SuffixIsWithin(ni, nr); }
    }
  }

  /** The verdict is a mismatch exactly when the classifier names a kind and neither of
      the verdict's own two guards fires: a whitespace-only difference, or an unstripped
      read that already equals the intended text. */
  lemma TreesAgree(intended: string, read: string, precise: bool, strip: string -> string, tolerance: nat -> int)
    requires strip("") == ""
    ensures ComputeVerdict(intended, read, precise, strip, tolerance) == Mismatch <==>
            && ClassifyMismatch(intended, read, precise, strip, tolerance).Some?
            && !WhitespaceOnly(intended, read, strip)
            && Norm(intended, precise) != Norm(read, precise)
  {
    var ni, nr := Norm(intended, precise), Norm(strip(read), precise);
    var ck, cr := ConfKey(intended, precise), ConfKey(read, precise);
    var same := WordSet(ni, precise) == WordSet(nr, precise);
    NormOfEmpty(precise);
    if precise {
      PreciseTreesAgree(ni, nr, ck, cr, same, tolerance(|ni|));
    } else {
      if same { SameWordsOverlap(intended, strip(read), precise); }
      LenientTreesAgree(ni, nr, ck, cr, same, tolerance(|ni|));
    }
  }

  // ---- precise mode ------------------------------------------------------------------ //

  /** The precise normal form is the displayed line with its space runs collapsed. */
  lemma NormIsCollapsedLine(s: string)
    ensures Norm(s, true) == Collapse(Line(s))
  {
    StripCollapse(FlattenLineBreaks(Quotes(s)));
    CollapseFlatten(Quotes(s));
  }

  /** Equal normal forms and no spacing difference mean the same line. */
  lemma SameLine(intended: string, observed: string)
    ensures Norm(intended, true) == Norm(observed, true) && !SpacingDiffers(Line(intended), Line(observed))
            <==> Line(intended) == Line(observed)
  {
    var left, right := Line(intended), Line(observed);
    NormIsCollapsedLine(intended);
    NormIsCollapsedLine(observed);
    RemoveCollapsed(left, false);
    RemoveCollapsed(right, false);
    if Collapse(left) == Collapse(right) && Runs(left) == Runs(right) {
      CollapseAndRuns(left, right);
    }
  }

  lemma PreciseStrippedMatch(ni: string, nr: string, ck: string, cr: string, allowed: int)
    ensures StrippedVerdict(ni, nr, ck, cr, true, allowed) == Match <==> ni == nr
  {
  }

  lemma PreciseMatches(intended: string, observed: string, strip: string -> string, tolerance: nat -> int)
    ensures ComputeVerdict(intended, observed, true, strip, tolerance) == Match <==>
            && observed != "" && !WhitespaceOnly(intended, observed, strip)
            && Norm(intended, true) in [Norm(observed, true), Norm(strip(observed), true)]
  {
    var ni := Norm(intended, true);
    PreciseStrippedMatch(ni, Norm(strip(observed), true), ConfKey(intended, true), ConfKey(observed, true),
                         tolerance(|ni|));
  }

  lemma PreciseStatusOf(v: Verdict, spacing: bool, kind: Option<Kind>, ni: string, nr: string)
    ensures IsVerified(StatusOf(v, spacing, kind, ni, nr, true)) <==> v == Match
    ensures v == Match ==> StatusOf(v, spacing, kind, ni, nr, true) == VerifiedExact
  {
  }

  lemma PreciseStatus(intended: string, observed: string, strip: string -> string, tolerance: nat -> int)
    ensures var status := VerifyText(intended, observed, true, strip, tolerance);
            && (IsVerified(status) <==> ComputeVerdict(intended, observed, true, strip, tolerance) == Match)
            && (IsVerified(status) ==> status == VerifiedExact)
  {
    PreciseStatusOf(ComputeVerdict(intended, observed, true, strip, tolerance),
                    WhitespaceOnly(intended, observed, strip),
                    ClassifyMismatch(intended, observed, true, strip, tolerance),
                    Norm(intended, true), Norm(strip(observed), true));
  }

  /** On a read without a prompt-shaped prefix, precise mode verifies exactly the reads
      that are not empty and equal the intended text character for character, once quotes
      are folded, line breaks flattened and the ends trimmed; every space run counts. */
  lemma PreciseIsExact(intended: string, observed: string, strip: string -> string, tolerance: nat -> int)
    requires strip(observed) == observed
    ensures IsVerified(VerifyText(intended, observed, true, strip, tolerance)) <==>
            observed != "" && Line(intended) == Line(observed)
    ensures IsVerified(VerifyText(intended, observed, true, strip, tolerance)) ==>
            VerifyText(intended, observed, true, strip, tolerance) == VerifiedExact
  {
    PreciseStatus(intended, observed, strip, tolerance);
    PreciseMatches(intended, observed, strip, tolerance);
    SameLine(intended, observed);
  }

  /** For any read: precise mode verifies when the stripped read is the same line, and
      otherwise only when the unstripped read agrees up to the width of its space runs
      while the spacing test, which looks at the stripped read, stays silent. */
  lemma PreciseWithPrompt(intended: string, observed: string, strip: string -> string, tolerance: nat -> int)
    ensures IsVerified(VerifyText(intended, observed, true, strip, tolerance)) <==>
            && observed != ""
            && (Line(intended) == Line(strip(observed)) ||
                (Norm(intended, true) == Norm(observed, true) && !WhitespaceOnly(intended, observed, strip)))
  {
    PreciseStatus(intended, observed, strip, tolerance);
    PreciseMatches(intended, observed, strip, tolerance);
    SameLine(intended, strip(observed));
  }

  /** The widths of the space runs are all that equal normal forms leave open. */
  lemma WidthsDecide(intended: string, observed: string)
    requires Norm(intended, true) == Norm(observed, true)
    ensures Runs(Line(intended)) == Runs(Line(observed)) <==> Line(intended) == Line(observed)
  {
    SameLine(intended, observed);
    NormIsCollapsedLine(intended);
    NormIsCollapsedLine(observed);
    RemoveCollapsed(Line(intended), false);
    RemoveCollapsed(Line(observed), false);
  }

  /** Two texts pass the spacing test unalike when the glyphs differ, or when every run is
      as wide but some run stands elsewhere. */
  lemma SilentYetUnlike(left: string, right: string)
    ensures !SpacingDiffers(left, right) && left != right <==>
            || RemoveSpace(left) != RemoveSpace(right)
            || (Runs(left) == Runs(right) && Collapse(left) != Collapse(right))
  {
    RemoveCollapsed(left, false);
    RemoveCollapsed(right, false);
    if Collapse(left) == Collapse(right) && Runs(left) == Runs(right) {
      CollapseAndRuns(left, right);
    }
  }

  /** What a verified precise read should mean fails in exactly one family: the unstripped
      read has the intended glyphs and gaps but the width of some space run is wrong, and
      stripping the prompt either changed the glyphs or moved a run without changing the
      widths, which silences the spacing test. */
  lemma VerifiedMeansSameLineIff(
    intended: string, observed: string, strip: string -> string, tolerance: nat -> int)
    ensures (IsVerified(VerifyText(intended, observed, true, strip, tolerance)) ==>
               Line(intended) == Line(observed) || Line(intended) == Line(strip(observed)))
            <==>
            !(&& observed != "" && Norm(intended, true) == Norm(observed, true)
              && Runs(Line(intended)) != Runs(Line(observed))
              && (|| RemoveSpace(Line(intended)) != RemoveSpace(Line(strip(observed)))
                  || (&& Runs(Line(intended)) == Runs(Line(strip(observed)))
                      && Norm(intended, true) != Norm(strip(observed), true))))
  {
    PreciseWithPrompt(intended, observed, strip, tolerance);
    if Norm(intended, true) == Norm(observed, true) {
      WidthsDecide(intended, observed);
    }
    SilentYetUnlike(Line(intended), Line(strip(observed)));
    NormIsCollapsedLine(intended);
    NormIsCollapsedLine(strip(observed));
  }

  /** Any read whose stripping changes the glyphs is compared up to space widths alone. */
  lemma PromptHidesSpacing(intended: string, observed: string, strip: string -> string, tolerance: nat -> int)
    requires observed != "" && Norm(intended, true) == Norm(observed, true)
    requires RemoveSpace(Line(intended)) != RemoveSpace(Line(strip(observed)))
    ensures VerifyText(intended, observed, true, strip, tolerance) == VerifiedExact
    ensures Line(intended) != Line(strip(observed))
  {
    PreciseMatches(intended, observed, strip, tolerance);
  }

  /** What the prompt stripper does to a dollar prompt. */
  function DollarOff(s: string): string { if "$ " <= s then s[2..] else s }

  const WIDE := "$ a  b"
  const NARROW := "$ a b"

  lemma CollapseNext(c: char, rest: string, after: bool)
    ensures CollapseFrom([c] + rest, after) == Squeeze(c, after) + CollapseFrom(rest, IsSpace(c))
  {
    assert ([c] + rest)[1..] == rest;
  }

  lemma CollapseThree(a: char, b: char, c: char, rest: string)
    ensures Collapse([a, b, c] + rest)
         == Squeeze(a, false) + (Squeeze(b, IsSpace(a)) + (Squeeze(c, IsSpace(b)) + CollapseFrom(rest, IsSpace(c))))
  {
    CollapseNext(a, [b, c] + rest, false);
    CollapseNext(b, [c] + rest, IsSpace(a));
    CollapseNext(c, rest, IsSpace(b));
    assert [a] + ([b, c] + rest) == [a, b, c] + rest && [b] + ([c] + rest) == [b, c] + rest;
  }

  lemma TailCollapses()
    ensures CollapseFrom("  b", false) == " b" == CollapseFrom(" b", false)
  {
    CollapseNext(' ', " b", false);
    CollapseNext(' ', "b", true);
    CollapseNext(' ', "b", false);
    CollapseNext('b', "", true);
    assert [' '] + " b" == "  b" && [' '] + "b" == " b" && ['b'] + "" == "b";
  }

  lemma WideCollapses()
    ensures Collapse(WIDE) == NARROW == Collapse(NARROW)
  {
    TailCollapses();
    CollapseThree('$', ' ', 'a', "  b");
    CollapseThree('$', ' ', 'a', " b");
    assert ['$', ' ', 'a'] + "  b" == WIDE && ['$', ' ', 'a'] + " b" == NARROW;
  }

  lemma GlyphsDiffer()
    ensures RemoveSpace(WIDE) == "$ab" && RemoveSpace("a b") == "ab"
  {
  }

  lemma WideLine()
    ensures Line(WIDE) == WIDE && Norm(WIDE, true) == NARROW
  {
    PlainLine(WIDE);
    NormIsCollapsedLine(WIDE);
    WideCollapses();
  }

  lemma NarrowLine()
    ensures Line(NARROW) == NARROW && Norm(NARROW, true) == NARROW
  {
    PlainLine(NARROW);
    NormIsCollapsedLine(NARROW);
    WideCollapses();
  }

  lemma NarrowStripped()
    ensures Line(DollarOff(NARROW)) == "a b"
  {
    assert DollarOff(NARROW) == "a b";
    PlainLine("a b");
  }

  /** The failing input: two spaces intended, one read, verified exact. */
  lemma WrongWidthVerified(tolerance: nat -> int)
    ensures VerifyText(WIDE, NARROW, true, DollarOff, tolerance) == VerifiedExact
    ensures Line(WIDE) != Line(NARROW) && Line(WIDE) != Line(DollarOff(NARROW))
  {
    WideLine();
    NarrowLine();
    NarrowStripped();
    GlyphsDiffer();
    PromptHidesSpacing(WIDE, NARROW, DollarOff, tolerance);
  }

  /** A trimmed text without quotes to fold or line breaks is its own line. */
  lemma PlainLine(s: string)
    requires Trimmed(s) && QuotesFolded(s) && !HasLineBreak(s)
    ensures Line(s) == s
  {
    assert Quotes(s) == s;
    StripOfTrimmed(s);
  }
}
