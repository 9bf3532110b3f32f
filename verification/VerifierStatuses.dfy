/** Which status is reported for which texts, in both modes. */
module VerifierStatuses {
  import opened Options
  import opened Text
  import opened EditDistance
  import opened Overlap
  import opened Words
  import opened Verification
  import opened VerifierTheorems

  // ---- what folding identifies ------------------------------------------------ //

  const SINGLE_QUOTES: set<int> := {0x27, 0x2018, 0x2019, 0xb4, 0x2032}
  const DOUBLE_QUOTES: set<int> := {0x22, 0x201c, 0x201d, 0x2033}

  /** Two glyphs fold to one quote exactly if they belong to the same family, and folding stays
      within the family. */
  lemma QuotesFoldIff(c: char, d: char)
    ensures FoldQuote(c) == FoldQuote(d) <==>
            || c == d
            || (c as int in SINGLE_QUOTES && d as int in SINGLE_QUOTES)
            || (c as int in DOUBLE_QUOTES && d as int in DOUBLE_QUOTES)
    ensures FoldQuote(FoldQuote(c)) == FoldQuote(c)
    ensures c as int !in SINGLE_QUOTES + DOUBLE_QUOTES ==> FoldQuote(c) == c
  {
  }

  /** The glyphs that recognition confuses; each class is folded to one of its own letters. */
  const CONFUSED: seq<set<char>> :=
    [{'0', 'o'}, {'1', 'l', 'i'}, {'5', 's'}, {'8', 'b'}, {'2', 'z'}, {'9', 'g', 'q', '6'}]

  predicate Confused(c: char, d: char) {
    exists i :: 0 <= i < |CONFUSED| && c in CONFUSED[i] && d in CONFUSED[i]
  }

  lemma ConfusablesFoldIff(c: char, d: char)
    ensures FoldConfusable(c) == FoldConfusable(d) <==> c == d || Confused(c, d)
    ensures FoldConfusable(c) != c ==> Confused(c, FoldConfusable(c))
  {
    assert CONFUSED[0] == {'0', 'o'} && CONFUSED[1] == {'1', 'l', 'i'} && CONFUSED[2] == {'5', 's'};
    assert CONFUSED[3] == {'8', 'b'} && CONFUSED[4] == {'2', 'z'} && CONFUSED[5] == {'9', 'g', 'q', '6'};
  }

  /** The alphanumeric part of a text is that of its characters in turn: an ASCII letter in
      lower case, a digit, or nothing. */
  lemma {:induction false} AlnumByChar(s: string, c: char)
    ensures AlnumFoldCase(s + [c])
         == AlnumFoldCase(s) + if 'A' <= c <= 'Z' then [(c as int + 32) as char]
                               else if 'a' <= c <= 'z' || '0' <= c <= '9' then [c] else []
    decreases |s|
  {
    if s == "" {
      assert s + [c] == [c] && Lower([c])[1..] == "";
    } else {
      assert (s + [c])[1..] == s[1..] + [c] && Lower(s + [c])[1..] == Lower(s[1..] + [c]);
      assert Lower(s)[1..] == Lower(s[1..]);
      AlnumByChar(s[1..], c);
    }
  }

  // ---- the tests, from the texts alone ------------------------------------------ //

  predicate FoundAt(x: string, y: string, i: nat) { i + |x| <= |y| && y[i..i + |x|] == x }

  /** `x` stands somewhere in `y`. */
  ghost predicate Found(x: string, y: string) { exists i: nat :: FoundAt(x, y, i) }

  lemma FoundNext(x: string, y: string, i: nat)
    requires y != ""
    ensures FoundAt(x, y[1..], i) <==> FoundAt(x, y, i + 1)
  {
    if i + 1 + |x| <= |y| {
      assert y[1..][i..i + |x|] == y[i + 1..i + 1 + |x|];
    }
  }

  lemma FoundLater(x: string, y: string)
    requires y != "" && !FoundAt(x, y, 0)
    ensures Found(x, y) <==> Found(x, y[1..])
  {
    if Found(x, y) {
      var i: nat :| FoundAt(x, y, i);
      FoundNext(x, y, i - 1);
    }
    if Found(x, y[1..]) {
      var i: nat :| FoundAt(x, y[1..], i);
      FoundNext(x, y, i);
    }
  }

  lemma {:induction false} FoundIff(x: string, y: string)
    ensures Within(x, y) <==> Found(x, y)
    decreases |y|
  {
    assert FoundAt(x, y, 0) <==> x <= y;
    if y != "" && !(x <= y) {
      FoundIff(x, y[1..]);
      FoundLater(x, y);
    }
  }

  /** The read stops before the intended text does. */
  predicate CutOff(ni: string, nr: string) { nr != "" && nr < ni }

  /** The read is the intended text and one of the glyphs a caret is read as. */
  predicate CaretAfter(ni: string, nr: string) {
    |nr| == |ni| + 1 && ni <= nr && nr[|ni|] as int in {0x7c, 0x49, 0x2502, 0x2503}
  }

  /** Letters and digits agree, and there are some. */
  predicate SameAlnum(ni: string, nr: string) {
    AlnumFoldCase(ni) != "" && AlnumFoldCase(ni) == AlnumFoldCase(nr)
  }

  /** The read is over 1.6 times as long as an intended text of three characters or more. */
  predicate MuchLonger(ni: string, nr: string) { |ni| >= 3 && |nr| as real > 1.6 * |ni| as real }

  /** What the two decision trees look at. */
  datatype Texts = Texts(ni: string, raw: string, nr: string, ck: string, cr: string, allowed: int)

  function TextsOf(
    intended: string, read: string, precise: bool, strip: string -> string, tolerance: nat -> int): Texts
  {
    Texts(Norm(intended, precise), Norm(read, precise), Norm(strip(read), precise),
          ConfKey(intended, precise), ConfKey(read, precise), tolerance(|Norm(intended, precise)|))
  }

  /** A read that is there, and differs in more than spacing. */
  predicate Compared(intended: string, read: string, strip: string -> string) {
    read != "" && !WhitespaceOnly(intended, read, strip)
  }

  /** None of the texts tells the read from the intended text before recognition errors are
      weighed. */
  ghost predicate Weighed(x: Texts) {
    && x.ni != x.raw && !Found(x.ni, x.nr) && !CutOff(x.ni, x.nr)
    && !SameAlnum(x.ni, x.nr) && !MuchLonger(x.ni, x.nr)
  }

  ghost predicate NearEnough(x: Texts) {
    !Found(x.ck, x.cr) && !CutOff(x.ck, x.cr) && Dist(x.ni, x.nr) <= x.allowed
  }

  // ---- the verdict -------------------------------------------------------------- //

  lemma TestsAgree(ni: string, nr: string)
    ensures IsPrefixRead(ni, nr) <==> CutOff(ni, nr)
    ensures CaughtExtra(ni, nr) <==> MuchLonger(ni, nr) && !Found(ni, nr)
    ensures Within(ni, nr) <==> Found(ni, nr)
    ensures TrailingCaret(ni, nr) <==> CaretAfter(ni, nr)
    ensures CaretAfter(ni, nr) ==> Found(ni, nr)
    ensures ni == nr ==> Found(ni, nr)
  {
    FoundIff(ni, nr);
    if ni == nr || TrailingCaret(ni, nr) { assert FoundAt(ni, nr, 0); }
  }

  /** The four verdicts on texts that are compared. */
  ghost predicate LenientVerdict(x: Texts, v: Verdict) {
    && (v == Match <==>
          x.ni == x.raw || x.ni == x.nr || (Weighed(x) && (x.ck == x.cr || NearEnough(x))))
    && (v == Contains <==>
          && x.ni != x.raw && x.ni != x.nr
          && (Found(x.ni, x.nr) || (Weighed(x) && x.ck != x.cr && Found(x.ck, x.cr))))
    && (v == Mismatch <==>
          || (x.ni != x.raw && !Found(x.ni, x.nr) && !CutOff(x.ni, x.nr) && SameAlnum(x.ni, x.nr))
          || (&& Weighed(x) && !Found(x.ck, x.cr) && !CutOff(x.ck, x.cr)
              && Dist(x.ni, x.nr) > x.allowed && OverlapRatio(x.ni, x.nr) >= 0.5))
  }

  ghost predicate PreciseVerdict(x: Texts, v: Verdict) {
    && (v == Match <==> x.ni == x.raw || x.ni == x.nr)
    && (v == Contains <==>
          x.ni != x.raw && x.ni != x.nr && Found(x.ni, x.nr) && !CaretAfter(x.ni, x.nr))
    && (v == Mismatch <==>
          || (x.ni != x.raw && !Found(x.ni, x.nr) && !CutOff(x.ni, x.nr) && SameAlnum(x.ni, x.nr))
          || (Weighed(x) && Dist(x.ni, x.nr) > x.allowed && OverlapRatio(x.ni, x.nr) >= 0.5))
  }

  function VerdictOn(x: Texts, precise: bool): Verdict {
    if x.ni == x.raw then Match else StrippedVerdict(x.ni, x.nr, x.ck, x.cr, precise, x.allowed)
  }

  lemma VerdictIff(x: Texts, precise: bool)
    ensures if precise then PreciseVerdict(x, VerdictOn(x, precise)) else LenientVerdict(x, VerdictOn(x, precise))
  {
    TestsAgree(x.ni, x.nr);
    TestsAgree(x.ck, x.cr);
  }

  lemma VerdictOfTexts(
    intended: string, read: string, precise: bool, strip: string -> string, tolerance: nat -> int)
    ensures ComputeVerdict(intended, read, precise, strip, tolerance)
         == if Compared(intended, read, strip)
            then VerdictOn(TextsOf(intended, read, precise, strip, tolerance), precise) else Unverified
  {
  }

  // ---- verified ----------------------------------------------------------------------- //

  /** Which of the two lenient words is reported: the warning is for text found inside more. */
  lemma LenientWordIff(intended: string, read: string, strip: string -> string, tolerance: nat -> int)
    ensures var x := TextsOf(intended, read, false, strip, tolerance);
            var status := VerifyText(intended, read, false, strip, tolerance);
            && status != VerifiedExact
            && (status == VerifiedSafeNormalized <==>
                  && Compared(intended, read, strip)
                  && (x.ni in {x.raw, x.nr} || (Weighed(x) && (x.ck == x.cr || NearEnough(x)))))
            && (status == VerifiedWithWarnings <==>
                  && Compared(intended, read, strip) && x.ni !in {x.raw, x.nr}
                  && (Found(x.ni, x.nr) || (Weighed(x) && x.ck != x.cr && Found(x.ck, x.cr))))
  {
    VerdictOfTexts(intended, read, false, strip, tolerance);
    VerdictIff(TextsOf(intended, read, false, strip, tolerance), false);
  }

  lemma SameIsFound(x: string, y: string)
    ensures x == y ==> Found(x, y)
  {
    assert FoundAt(x, y, 0) <==> x <= y;
  }

  /** Lenient mode verifies exactly: a read that is compared and whose normal form, stripped or
      not, is the intended one or holds it; or one that is not cut off, not much longer and not
      wrong in its symbols alone, whose confusable key holds the intended one, or which lies
      within the tolerated edit distance while its key is not cut off. */
  lemma LenientVerifiedIff(intended: string, read: string, strip: string -> string, tolerance: nat -> int)
    ensures var x := TextsOf(intended, read, false, strip, tolerance);
            IsVerified(VerifyText(intended, read, false, strip, tolerance)) <==>
              && Compared(intended, read, strip)
              && (x.ni == x.raw || Found(x.ni, x.nr) || (Weighed(x) && (Found(x.ck, x.cr) || NearEnough(x))))
  {
    var x := TextsOf(intended, read, false, strip, tolerance);
    LenientWordIff(intended, read, strip, tolerance);
    SameIsFound(x.ni, x.nr);
    SameIsFound(x.ck, x.cr);
  }

  // ---- failed --------------------------------------------------------------------------- //

  predicate IsFailed(s: Status) {
    s == FailedKeyboardLayout || s == FailedCaseMismatch || s == FailedSymbolMismatch
  }

  /** The classifier's kind and the two guards of the verdict decide whether a read is reported
      as failed; such a read is never verified. */
  lemma FailedIff(intended: string, read: string, precise: bool, strip: string -> string, tolerance: nat -> int)
    requires strip("") == ""
    ensures var status := VerifyText(intended, read, precise, strip, tolerance);
            && (IsFailed(status) <==>
                  && ClassifyMismatch(intended, read, precise, strip, tolerance).Some?
                  && !WhitespaceOnly(intended, read, strip) && Norm(intended, precise) != Norm(read, precise))
            && (IsFailed(status) ==> !IsVerified(status))
  {
    TreesAgree(intended, read, precise, strip, tolerance);
    StatusesApart(intended, read, precise, strip, tolerance);
  }

  lemma StatusesApart(
    intended: string, read: string, precise: bool, strip: string -> string, tolerance: nat -> int)
    ensures var status := VerifyText(intended, read, precise, strip, tolerance);
            && (IsFailed(status) <==> ComputeVerdict(intended, read, precise, strip, tolerance) == Mismatch)
            && (IsVerified(status) ==> !IsFailed(status))
  {
    StatusSorts(ComputeVerdict(intended, read, precise, strip, tolerance), WhitespaceOnly(intended, read, strip),
                ClassifyMismatch(intended, read, precise, strip, tolerance),
                Norm(intended, precise), Norm(strip(read), precise), precise);
  }

  lemma StatusSorts(v: Verdict, spacing: bool, kind: Option<Kind>, ni: string, nr: string, precise: bool)
    ensures var status := StatusOf(v, spacing, kind, ni, nr, precise);
            (IsFailed(status) <==> v == Mismatch) && (IsVerified(status) ==> !IsFailed(status))
  {
  }

  /** Which of the three: the letters and digits differ; or they agree, and there are some, and
      more than their case differs (in lenient mode, anything does); or only case differs, or
      neither text has a letter or digit. */
  lemma FailedWordIff(intended: string, read: string, precise: bool, strip: string -> string, tolerance: nat -> int)
    ensures var ni, nr := Norm(intended, precise), Norm(strip(read), precise);
            var status := VerifyText(intended, read, precise, strip, tolerance);
            && (status == FailedSymbolMismatch <==> IsFailed(status) && AlnumFoldCase(ni) != AlnumFoldCase(nr))
            && (status == FailedKeyboardLayout <==>
                  IsFailed(status) && SameAlnum(ni, nr) && !(precise && Lower(ni) == Lower(nr)))
            && (status == FailedCaseMismatch <==>
                  && IsFailed(status)
                  && ((precise && Lower(ni) == Lower(nr)) || AlnumFoldCase(ni) == AlnumFoldCase(nr) == ""))
  {
    StatusesApart(intended, read, precise, strip, tolerance);
    var x := TextsOf(intended, read, precise, strip, tolerance);
    if ComputeVerdict(intended, read, precise, strip, tolerance) == Mismatch {
      MismatchKind(x, precise, WordSet(x.ni, precise) == WordSet(x.nr, precise));
    }
  }

  lemma MismatchKind(x: Texts, precise: bool, sameWords: bool)
    requires x.ni != x.raw && VerdictOn(x, precise) == Mismatch
    ensures x.ni != x.nr
    ensures var kind := StrippedKind(x.ni, x.nr, x.ck, x.cr, sameWords, precise, x.allowed);
            kind == Some(Layout) <==> SameAlnum(x.ni, x.nr) && !(precise && Lower(x.ni) == Lower(x.nr))
    ensures Lower(x.ni) == Lower(x.nr) ==> SameAlnum(x.ni, x.nr)
  {
    if Lower(x.ni) == Lower(x.nr) { CaseNeedsAlnum(x.ni, x.nr); }
    if x.nr == "" { EmptyOverlap(x.ni); }
  }

  // ---- the kinds ------------------------------------------------------------------------------ //

  /** There is a read, and it neither holds the intended text nor is cut off. */
  ghost predicate Apart(x: Texts) {
    x.nr != "" && !Found(x.ni, x.nr) && !CutOff(x.ni, x.nr)
  }

  /** It is no recognition error and no crop of too much either. */
  ghost predicate FarApart(x: Texts, precise: bool) {
    && Apart(x) && !SameAlnum(x.ni, x.nr) && !MuchLonger(x.ni, x.nr) && Dist(x.ni, x.nr) > x.allowed
    && (precise || (!Found(x.ck, x.cr) && !CutOff(x.ck, x.cr)))
  }

  ghost predicate KindFits(x: Texts, precise: bool, sameWords: bool, kind: Option<Kind>) {
    && (kind == Some(Case) <==> precise && Apart(x) && Lower(x.ni) == Lower(x.nr))
    && (kind == Some(Layout) <==> Apart(x) && SameAlnum(x.ni, x.nr) && !(precise && Lower(x.ni) == Lower(x.nr)))
    && (kind == Some(PrependAutocorrect) <==> !precise && FarApart(x, precise) && sameWords)
    && (kind == Some(PrefixTail) <==>
          FarApart(x, precise) && OverlapRatio(x.ni, x.nr) >= 0.5 && (precise || !sameWords))
  }

  lemma KindOf(x: Texts, precise: bool, sameWords: bool)
    ensures KindFits(x, precise, sameWords,
                     StrippedKind(x.ni, x.nr, x.ck, x.cr, sameWords, precise, x.allowed))
  {
    TestsAgree(x.ni, x.nr);
    TestsAgree(x.ck, x.cr);
    if EndsWith(x.nr, x.ni) { SuffixIsWithin(x.ni, x.nr); }
    if x.ni != x.nr && Lower(x.ni) == Lower(x.nr) { CaseNeedsAlnum(x.ni, x.nr); }
  }

  /** Which kind the classifier names, from the texts; two of them turn on the words alone: the
      same words in another order. */
  lemma KindIff(intended: string, read: string, precise: bool, strip: string -> string, tolerance: nat -> int)
    ensures var x := TextsOf(intended, read, precise, strip, tolerance);
            KindFits(x, precise, multiset(WordsOf(x.ni)) == multiset(WordsOf(x.nr)),
                     ClassifyMismatch(intended, read, precise, strip, tolerance))
  {
    var x := TextsOf(intended, read, precise, strip, tolerance);
    NormIdempotent(intended, precise);
    NormIdempotent(strip(read), precise);
    SameWordsIff(x.ni, x.nr);
    KindOf(x, precise, WordSet(x.ni, precise) == WordSet(x.nr, precise));
  }

  /** A failure reported as purely letter case is one, except exactly if neither text has an
      ASCII letter or digit. */
  lemma CaseWordIff(intended: string, read: string, precise: bool, strip: string -> string, tolerance: nat -> int)
    ensures var ni, nr := Norm(intended, precise), Norm(strip(read), precise);
            var status := VerifyText(intended, read, precise, strip, tolerance);
            (status == FailedCaseMismatch ==> Lower(ni) == Lower(nr)) <==>
              !(IsFailed(status) && AlnumFoldCase(ni) == AlnumFoldCase(nr) == "")
  {
    FailedWordIff(intended, read, precise, strip, tolerance);
    StatusesApart(intended, read, precise, strip, tolerance);
    var x := TextsOf(intended, read, precise, strip, tolerance);
    if ComputeVerdict(intended, read, precise, strip, tolerance) == Mismatch {
      MismatchKind(x, precise, false);
    }
  }

  // ---- unverified ------------------------------------------------------------------------- //

  /** A difference in spacing, and nothing else, is reported as such. */
  lemma WhitespaceIff(intended: string, read: string, precise: bool, strip: string -> string, tolerance: nat -> int)
    requires strip("") == ""
    ensures VerifyText(intended, read, precise, strip, tolerance) == UnverifiedWhitespace <==>
            WhitespaceOnly(intended, read, strip)
  {
    EmptyReadDiffersNowhere(intended, strip);
    SpacingStatus(ComputeVerdict(intended, read, precise, strip, tolerance), WhitespaceOnly(intended, read, strip),
                  ClassifyMismatch(intended, read, precise, strip, tolerance),
                  Norm(intended, precise), Norm(strip(read), precise), precise);
    VerdictOfTexts(intended, read, precise, strip, tolerance);
  }

  lemma SpacingStatus(v: Verdict, spacing: bool, kind: Option<Kind>, ni: string, nr: string, precise: bool)
    ensures StatusOf(v, spacing, kind, ni, nr, precise) == UnverifiedWhitespace <==> v == Unverified && spacing
  {
  }

  /** Where nothing was read there is no spacing to differ in. */
  lemma EmptyReadDiffersNowhere(intended: string, strip: string -> string)
    requires strip("") == ""
    ensures !WhitespaceOnly(intended, "", strip)
  {
    var left := Line(intended);
    StripTrims(FlattenLineBreaks(Quotes(intended)));
    assert Line("") == "";
    assert left != "" ==> RemoveSpace(left) != "";
  }

  /** Reads that are compared and match neither way are reported as cut off, as another region's,
      or as ambiguous. */
  lemma UnverifiedIff(intended: string, read: string, precise: bool, strip: string -> string, tolerance: nat -> int)
    requires strip("") == "" && !WhitespaceOnly(intended, read, strip)
    ensures var x := TextsOf(intended, read, precise, strip, tolerance);
            var status := VerifyText(intended, read, precise, strip, tolerance);
            && (status == UnverifiedTruncated <==> x.ni != x.raw && CutOff(x.ni, x.nr))
            && (status == UnverifiedWrongRegion <==>
                  && read != "" && x.ni != x.raw && x.ni != x.nr
                  && (|| (precise && Found(x.ni, x.nr) && !CaretAfter(x.ni, x.nr))
                      || (!Found(x.ni, x.nr) && !SameAlnum(x.ni, x.nr) && MuchLonger(x.ni, x.nr))))
            && (status == UnverifiedAmbiguous <==>
                  || read == ""
                  || (precise && x.ni != x.raw && CaretAfter(x.ni, x.nr))
                  || (&& Weighed(x)
                      && (|| (precise && Dist(x.ni, x.nr) <= x.allowed)
                          || (!precise && CutOff(x.ck, x.cr))
                          || (&& (precise || (!Found(x.ck, x.cr) && Dist(x.ni, x.nr) > x.allowed))
                              && OverlapRatio(x.ni, x.nr) < 0.5))))
  {
    var x := TextsOf(intended, read, precise, strip, tolerance);
    NormOfEmpty(precise);
    VerdictOfTexts(intended, read, precise, strip, tolerance);
    TestsAgree(x.ni, x.nr);
    TestsAgree(x.ck, x.cr);
    VerdictIff(x, precise);
  }

  // ---- a failure that is not one of case ------------------------------------------------------ //

  const OPENED := "(!"
  const TURNED := "!("

  lemma SymbolsNorm(s: string, precise: bool)
    requires s == OPENED || s == TURNED
    ensures Norm(s, precise) == s && Line(s) == s
  {
    CompactFixed(s);
    assert Lower(s) == s;
    PlainLine(s);
  }

  lemma TurnedIsFar()
    ensures Dist(OPENED, TURNED) == 2
  {
    assert Front(OPENED) == "(" && Front(TURNED) == "!" && Last(OPENED) == '!' && Last(TURNED) == '(';
  }

  /** Texts of one length without letters and digits, far enough apart. */
  lemma SymbolsMismatch(x: Texts, precise: bool)
    requires x.raw == x.nr && |x.ni| == |x.nr| && x.ni != x.nr && x.ck == x.ni && x.cr == x.nr
    requires AlnumFoldCase(x.ni) == "" && Dist(x.ni, x.nr) > x.allowed && OverlapRatio(x.ni, x.nr) >= 0.5
    ensures VerdictOn(x, precise) == Mismatch
  {
    assert forall i: nat :: FoundAt(x.ni, x.nr, i) ==> i == 0;
    assert x.nr[0..0 + |x.ni|] == x.nr;
    VerdictIff(x, precise);
  }

  lemma SymbolsFail(intended: string, read: string, precise: bool, strip: string -> string, tolerance: nat -> int)
    requires Norm(intended, precise) == intended && Norm(read, precise) == read == strip(read)
    requires Confusables(intended) == intended && Confusables(read) == read && Compared(intended, read, strip)
    requires |intended| == |read| && intended != read && AlnumFoldCase(intended) == AlnumFoldCase(read) == ""
    requires Dist(intended, read) > tolerance(|intended|) && OverlapRatio(intended, read) >= 0.5
    ensures VerifyText(intended, read, precise, strip, tolerance) == FailedCaseMismatch
  {
    SymbolsMismatch(TextsOf(intended, read, precise, strip, tolerance), precise);
    VerdictOfTexts(intended, read, precise, strip, tolerance);
    StatusesApart(intended, read, precise, strip, tolerance);
    FailedWordIff(intended, read, precise, strip, tolerance);
  }

  lemma NoAlnum()
    ensures AlnumFoldCase(OPENED) == "" == AlnumFoldCase(TURNED)
    ensures Lower(OPENED) == OPENED != TURNED == Lower(TURNED)
  {
    assert Lower(OPENED) == OPENED && Lower(TURNED) == TURNED;
    assert OPENED[0] != TURNED[0];
  }

  lemma OtherGlyphs(intended: string, read: string, strip: string -> string)
    requires read != "" && RemoveSpace(Line(intended)) != RemoveSpace(Line(strip(read)))
    ensures Compared(intended, read, strip)
  {
  }

  lemma TurnedGlyphs()
    ensures RemoveSpace(OPENED) == OPENED && RemoveSpace(TURNED) == TURNED
  {
  }

  lemma TurnedCompared(strip: string -> string)
    requires strip(TURNED) == TURNED
    ensures Compared(OPENED, TURNED, strip)
  {
    SymbolsNorm(OPENED, true);
    SymbolsNorm(TURNED, true);
    TurnedGlyphs();
    NoAlnum();
    OtherGlyphs(OPENED, TURNED, strip);
  }

  lemma TurnedOverlaps()
    ensures OverlapRatio(OPENED, TURNED) == 1.0
  {
    assert multiset(OPENED) == multiset{'(', '!'} == multiset(TURNED);
    FullOverlap(OPENED, TURNED);
  }

  lemma SymbolsUnconfused()
    ensures Confusables(OPENED) == OPENED && Confusables(TURNED) == TURNED
  {
  }

  /** Two swapped symbols are reported as a difference of letter case. */
  lemma SymbolsCalledCase(precise: bool, strip: string -> string, tolerance: nat -> int)
    requires strip(TURNED) == TURNED && tolerance(2) == 1
    ensures VerifyText(OPENED, TURNED, precise, strip, tolerance) == FailedCaseMismatch
    ensures Lower(Norm(OPENED, precise)) != Lower(Norm(strip(TURNED), precise))
  {
    SymbolsNorm(OPENED, precise);
    SymbolsNorm(TURNED, precise);
    TurnedCompared(strip);
    TurnedIsFar();
    TurnedOverlaps();
    NoAlnum();
    SymbolsUnconfused();
    SymbolsFail(OPENED, TURNED, precise, strip, tolerance);
  }
}
