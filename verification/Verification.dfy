/** The read-back verifier: normalisation, the verdict, the mismatch kind, the reported
    status.

    Letter case follows the ASCII rules.  The prompt stripper and the tolerance are
    parameters, so every statement holds for all of them; where the source calls
    `levenshtein` or `overlap_ratio` the model uses what those loops are proved to
    return. */
module Verification {
  import opened Options
  import opened Text
  import opened EditDistance
  import opened Overlap

  datatype Verdict = Match | Contains | Mismatch | Unverified

  datatype Kind = Layout | Case | PrependAutocorrect | PrefixTail

  datatype Status =
    | VerifiedExact | VerifiedSafeNormalized | VerifiedWithWarnings
    | UnverifiedWrongRegion | UnverifiedWhitespace | UnverifiedTruncated | UnverifiedAmbiguous
    | FailedKeyboardLayout | FailedCaseMismatch | FailedSymbolMismatch

  predicate IsVerified(s: Status) {
    s == VerifiedExact || s == VerifiedSafeNormalized || s == VerifiedWithWarnings
  }

  // ---- folding --------------------------------------------------------------- //

  function FoldQuote(c: char): char {
    var n := c as int;
    if n in {0x27, 0x2018, 0x2019, 0xb4, 0x2032} then '\''
    else if n in {0x22, 0x201c, 0x201d, 0x2033} then '\"'
    else c
  }

  function FoldConfusable(c: char): char {
    match c
    case '0' => 'o'
    case '1' => 'l'
    case 'i' => 'l'
    case '5' => 's'
    case '8' => 'b'
    case '2' => 'z'
    case '9' => 'g'
    case 'q' => 'g'
    case '6' => 'g'
    case _ => c
  }

  function LowerChar(c: char): char {
    if 'A' <= c <= 'Z' then (c as int + 32) as char else c
  }

  function Quotes(s: string): string { seq(|s|, i requires 0 <= i < |s| => FoldQuote(s[i])) }

  function Confusables(s: string): string { seq(|s|, i requires 0 <= i < |s| => FoldConfusable(s[i])) }

  function Lower(s: string): string { seq(|s|, i requires 0 <= i < |s| => LowerChar(s[i])) }

  method FoldQuotes(s: string) returns (out: string)
    ensures out == Quotes(s)
  {
    out := "";
    for i := 0 to |s|
      invariant |out| == i && forall k :: 0 <= k < i ==> out[k] == FoldQuote(s[k])
    {
      var n := s[i] as int;
      if n in {0x27, 0x2018, 0x2019, 0xb4, 0x2032} {
        out := out + ['\''];
      } else if n in {0x22, 0x201c, 0x201d, 0x2033} {
        out := out + ['\"'];
      } else {
        out := out + [s[i]];
      }
    }
  }

  method FoldConfusables(s: string) returns (out: string)
    ensures out == Confusables(s)
  {
    out := "";
    for i := 0 to |s|
      invariant |out| == i && forall k :: 0 <= k < i ==> out[k] == FoldConfusable(s[k])
    {
      out := out + [FoldConfusable(s[i])];
    }
  }

  // ---- normal forms ------------------------------------------------------------ //

  function Norm(s: string, precise: bool): string {
    var compact := Strip(Collapse(Quotes(s)));
    if precise then compact else Lower(compact)
  }

  /** What is displayed on one visual line: quotes folded, line breaks flattened, ends
      trimmed, every inner space run kept. */
  function Line(s: string): string { Strip(FlattenLineBreaks(Quotes(s))) }

  predicate SpacingDiffers(left: string, right: string) {
    && left != right
    && RemoveSpace(left) == RemoveSpace(right)
    && Runs(left) != Runs(right)
  }

  predicate WhitespaceOnly(intended: string, observed: string, strip: string -> string) {
    SpacingDiffers(Line(intended), Line(strip(observed)))
  }

  predicate IsAlnum(c: char) { 'a' <= c <= 'z' || '0' <= c <= '9' }

  function KeepAlnum(s: string): string {
    if s == "" then "" else (if IsAlnum(s[0]) then [s[0]] else "") + KeepAlnum(s[1..])
  }

  function AlnumFoldCase(s: string): string { KeepAlnum(Lower(s)) }

  function ConfKey(s: string, precise: bool): string {
    if precise then Norm(s, precise) else Confusables(Norm(s, precise))
  }

  /** `x in y`. */
  predicate Within(x: string, y: string) {
    x <= y || (y != "" && Within(x, y[1..]))
  }

  predicate EndsWith(y: string, x: string) { |x| <= |y| && y[|y| - |x|..] == x }

  predicate IsPrefixRead(ni: string, nr: string) {
    nr != "" && |ni| > |nr| && nr <= ni
  }

  predicate CaughtExtra(ni: string, nr: string) {
    |ni| >= 3 && 10 * |nr| > 16 * |ni| && !Within(ni, nr)
  }

  predicate IsCaret(c: char) {
    var n := c as int;
    c == '|' || n == 0x2502 || n == 0x2503 || c == 'I'
  }

  predicate TrailingCaret(ni: string, nr: string) {
    |nr| == |ni| + 1 && nr[..|nr| - 1] == ni && IsCaret(nr[|nr| - 1])
  }

  function WordSet(s: string, precise: bool): string { SortedWords(Norm(s, precise)) }

  // ---- the two decision trees ----------------------------------------------------- //

  /** The verdict on normal forms that are compared after the prompt was stripped: `ck` and
      `cr` are the confusable keys, `allowed` the edit distance put down to recognition. */
  function StrippedVerdict(ni: string, nr: string, ck: string, cr: string, precise: bool, allowed: int): Verdict {
    if ni == nr then Match
    else if precise && TrailingCaret(ni, nr) then Unverified
    else if Within(ni, nr) then Contains
    else if IsPrefixRead(ni, nr) then Unverified
    else if AlnumFoldCase(ni) != "" && AlnumFoldCase(ni) == AlnumFoldCase(nr) && ni != nr then Mismatch
    else if CaughtExtra(ni, nr) then Unverified
    else if precise then
      if Dist(ni, nr) <= allowed then Unverified
      else if OverlapRatio(ni, nr) < 0.5 then Unverified
      else Mismatch
    else if ck == cr then Match
    else if Within(ck, cr) then Contains
    else if IsPrefixRead(ck, cr) then Unverified
    else if Dist(ni, nr) <= allowed then Match
    else if OverlapRatio(ni, nr) < 0.5 then Unverified
    else Mismatch
  }

  function ComputeVerdict(
    intended: string, read: string, precise: bool, strip: string -> string, tolerance: nat -> int): Verdict
  {
    if read == "" then Unverified
    else
      var ni := Norm(intended, precise);
      if WhitespaceOnly(intended, read, strip) then Unverified
      else if ni == Norm(read, precise) then Match
      else StrippedVerdict(ni, Norm(strip(read), precise), ConfKey(intended, precise), ConfKey(read, precise),
                           precise, tolerance(|ni|))
  }

  /** The kind named for two normal forms; `sameWords` compares the sorted words.
      `casefold` is `lower` on ASCII. */
  function StrippedKind(
    ni: string, nr: string, ck: string, cr: string, sameWords: bool, precise: bool, allowed: int): Option<Kind>
  {
    if nr == "" then None
    else if ni == nr then None
    else if precise && TrailingCaret(ni, nr) then None
    else if Within(ni, nr) then None
    else if IsPrefixRead(ni, nr) then None
    else if precise && Lower(ni) == Lower(nr) then Some(Case)
    else if AlnumFoldCase(ni) != "" && AlnumFoldCase(ni) == AlnumFoldCase(nr) then Some(Layout)
    else if CaughtExtra(ni, nr) then None
    else if precise then
      if Dist(ni, nr) <= allowed then None
      else if OverlapRatio(ni, nr) < 0.5 then None
      else Some(PrefixTail)
    else if ck == cr || Within(ck, cr) then None
    else if IsPrefixRead(ck, cr) then None
    else if Dist(ni, nr) <= allowed then None
    else if EndsWith(nr, ni) || sameWords then Some(PrependAutocorrect)
    else if OverlapRatio(ni, nr) < 0.5 then None
    else Some(PrefixTail)
  }

  function ClassifyMismatch(
    intended: string, read: string, precise: bool, strip: string -> string, tolerance: nat -> int): Option<Kind>
  {
    var ni := Norm(intended, precise);
    var nr := Norm(strip(read), precise);
    StrippedKind(ni, nr, ConfKey(intended, precise), ConfKey(read, precise),
                 WordSet(ni, precise) == WordSet(nr, precise), precise, tolerance(|ni|))
  }

  /** The status reported for a verdict. */
  function StatusOf(
    verdict: Verdict, spacing: bool, kind: Option<Kind>, ni: string, nr: string, precise: bool): Status
  {
    match verdict
    case Match => if precise then VerifiedExact else VerifiedSafeNormalized
    case Contains => if precise then UnverifiedWrongRegion else VerifiedWithWarnings
    case Unverified =>
      if spacing then UnverifiedWhitespace
      else if IsPrefixRead(ni, nr) then UnverifiedTruncated
      else if CaughtExtra(ni, nr) then UnverifiedWrongRegion
      else UnverifiedAmbiguous
    case Mismatch =>
      if kind == Some(Layout) then FailedKeyboardLayout
      else if AlnumFoldCase(ni) == AlnumFoldCase(nr) && ni != nr then FailedCaseMismatch
      else FailedSymbolMismatch
  }

  function VerifyText(
    intended: string, observed: string, precise: bool, strip: string -> string, tolerance: nat -> int): Status
  {
    StatusOf(ComputeVerdict(intended, observed, precise, strip, tolerance),
             WhitespaceOnly(intended, observed, strip),
             ClassifyMismatch(intended, observed, precise, strip, tolerance),
             Norm(intended, precise), Norm(strip(observed), precise), precise)
  }
}
