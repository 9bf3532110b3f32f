/** Grounding a click in the recognised line nearest to it, on its own row. */
module Grounding {
  import opened Options
  import opened Text

  /** A bounding box in pixels; `w` and `h` are differences of ordered corners. */
  datatype Box = Box(x: int, y: int, w: nat, h: nat)

  datatype Line = Line(text: string, confidence: Option<real>, box: Option<Box>)

  datatype Region = Region(x: real, y: real, width: real, height: real)

  datatype Click = Click(x: int, y: int, region: Region)

  datatype Candidate = Candidate(distance: real, gap: real, text: string)

  const ROW_GAP := 16.0
  const REACH := 19600.0

  predicate Confident(line: Line) { line.confidence.None? || line.confidence.value >= 0.10 }

  predicate Boxed(line: Line) { Confident(line) && line.box.Some? }

  /** The distance from `p` to the interval from `low` to `high`, zero inside it. */
  function Outside(low: real, high: real, p: real): (d: real)
    ensures d >= 0.0
    ensures low <= p <= high ==> d == 0.0
  {
    var below := if low - p > 0.0 then low - p else 0.0;
    if p - high > below then p - high else below
  }

  /** Boxes that fit the crop are relative to it, others are in frame pixels. */
  predicate CropRelative(box: Box, region: Region) {
    && 0.0 <= box.x as real <= region.width && 0.0 <= (box.x + box.w) as real <= region.width + 2.0
    && 0.0 <= box.y as real <= region.height && 0.0 <= (box.y + box.h) as real <= region.height + 2.0
  }

  /** Where the click lies in the coordinates of the box. */
  function ClickIn(box: Box, click: Click): (real, real) {
    if CropRelative(box, click.region) then (click.x as real - click.region.x, click.y as real - click.region.y)
    else (click.x as real, click.y as real)
  }

  function CandidateOf(box: Box, text: string, click: Click): Candidate {
    var (px, py) := ClickIn(box, click);
    var dx := Outside(box.x as real, (box.x + box.w) as real, px);
    var dy := Outside(box.y as real, (box.y + box.h) as real, py);
    Candidate(dx * dx + 4.0 * dy * dy, dy, Strip(text))
  }

  /** How a line is measured against the click; only boxed lines are ever asked. */
  type Measure = Line -> Candidate

  function Against(click: Click): Measure {
    (line: Line) =>
      if line.box.Some? then CandidateOf(line.box.value, line.text, click) else Candidate(0.0, 0.0, "")
  }

  predicate OnRow(c: Candidate) { c.gap <= ROW_GAP && c.text != "" }

  // ---- the lists the loop builds -------------------------------------------------------- //

  function ConfidentLines(lines: seq<Line>): seq<Line> {
    if lines == [] then [] else
      var n := |lines| - 1;
      if Confident(lines[n]) then ConfidentLines(lines[..n]) + [lines[n]] else ConfidentLines(lines[..n])
  }

  function Candidates(lines: seq<Line>, m: Measure): seq<Candidate> {
    if lines == [] then [] else
      var n := |lines| - 1;
      if Boxed(lines[n]) then Candidates(lines[..n], m) + [m(lines[n])] else Candidates(lines[..n], m)
  }

  function SameRow(cs: seq<Candidate>): seq<Candidate> {
    if cs == [] then [] else
      var n := |cs| - 1;
      if OnRow(cs[n]) then SameRow(cs[..n]) + [cs[n]] else SameRow(cs[..n])
  }

  /** `min` by distance: the first of the least. */
  function Nearest(cs: seq<Candidate>): Candidate
    requires cs != []
  {
    var n := |cs| - 1;
    if n == 0 then cs[0] else
      var best := Nearest(cs[..n]);
      if cs[n].distance < best.distance then cs[n] else best
  }

  function Chosen(row: seq<Candidate>): string {
    if row == [] then "" else
      var best := Nearest(row);
      if best.distance <= REACH then best.text else ""
  }

  function Answer(lines: seq<Line>, m: Measure): string {
    var cs := Candidates(lines, m);
    var confident := ConfidentLines(lines);
    if cs != [] then Chosen(SameRow(cs))
    else if |confident| == 1 then Strip(confident[0].text)
    else ""
  }

  function TargetText(lines: seq<Line>, click: Click): string { Answer(lines, Against(click)) }

  method NearestOcrTargetText(lines: seq<Line>, click: Click) returns (text: string)
    ensures text == TargetText(lines, click)
  {
    var confident := SelectConfident(lines);
    var candidates: seq<Candidate> := [];
    for i := 0 to |confident|
      invariant candidates == Candidates(confident[..i], Against(click))
    {
      var line := confident[i];
      assert confident[..i + 1] == confident[..i] + [line];
      SelectedAreConfident(lines, i);
      CandidatesAppend(confident[..i], line, Against(click));
      if line.box.Some? {
        candidates := candidates + [CandidateOf(line.box.value, line.text, click)];
      }
    }
    assert confident[..|confident|] == confident;
    SameCandidates(lines, Against(click));
    if candidates != [] {
      var sameRow := SelectRow(candidates);
      if sameRow == [] {
        return "";
      }
      var best := MinByDistance(sameRow);
      return if best.distance <= REACH then best.text else "";
    }
    return if |confident| == 1 then Strip(confident[0].text) else "";
  }

  method SelectConfident(lines: seq<Line>) returns (r: seq<Line>)
    ensures r == ConfidentLines(lines)
  {
    r := [];
    for i := 0 to |lines|
      invariant r == ConfidentLines(lines[..i])
    {
      assert lines[..i + 1][..i] == lines[..i];
      if Confident(lines[i]) {
        r := r + [lines[i]];
      }
    }
    assert lines[..|lines|] == lines;
  }

  method SelectRow(cs: seq<Candidate>) returns (r: seq<Candidate>)
    ensures r == SameRow(cs)
  {
    r := [];
    for i := 0 to |cs|
      invariant r == SameRow(cs[..i])
    {
      assert cs[..i + 1][..i] == cs[..i];
      if OnRow(cs[i]) {
        r := r + [cs[i]];
      }
    }
    assert cs[..|cs|] == cs;
  }

  method MinByDistance(cs: seq<Candidate>) returns (best: Candidate)
    requires cs != []
    ensures best == Nearest(cs)
  {
    best := cs[0];
    for i := 1 to |cs|
      invariant best == Nearest(cs[..i])
    {
      assert cs[..i + 1][..i] == cs[..i];
      if cs[i].distance < best.distance {
        best := cs[i];
      }
    }
    assert cs[..|cs|] == cs;
  }

  lemma {:induction false} SelectedAreConfident(lines: seq<Line>, i: nat)
    requires i < |ConfidentLines(lines)|
    ensures Confident(ConfidentLines(lines)[i])
    decreases |lines|
  {
    var n := |lines| - 1;
    if i < |ConfidentLines(lines[..n])| {
      SelectedAreConfident(lines[..n], i);
    }
  }

  lemma CandidatesAppend(lines: seq<Line>, line: Line, m: Measure)
    ensures Candidates(lines + [line], m)
         == if Boxed(line) then Candidates(lines, m) + [m(line)] else Candidates(lines, m)
  {
    assert (lines + [line])[..|lines|] == lines;
  }

  lemma SameRowAppend(cs: seq<Candidate>, c: Candidate)
    ensures SameRow(cs + [c]) == if OnRow(c) then SameRow(cs) + [c] else SameRow(cs)
  {
    assert (cs + [c])[..|cs|] == cs;
  }

  /** Dropping the unconfident lines first loses no candidate. */
  lemma {:induction false} SameCandidates(lines: seq<Line>, m: Measure)
    ensures Candidates(ConfidentLines(lines), m) == Candidates(lines, m)
    decreases |lines|
  {
    if lines != [] {
      var n := |lines| - 1;
      SameCandidates(lines[..n], m);
      CandidatesAppend(ConfidentLines(lines[..n]), lines[n], m);
    }
  }

  // ---- the row ------------------------------------------------------------------------------ //

  /** The candidates the answer is chosen from. */
  function Row(lines: seq<Line>, m: Measure): seq<Candidate> { SameRow(Candidates(lines, m)) }

  predicate CompetesBy(line: Line, m: Measure) { Boxed(line) && OnRow(m(line)) }

  lemma RowAppend(lines: seq<Line>, line: Line, m: Measure)
    ensures Row(lines + [line], m) == if CompetesBy(line, m) then Row(lines, m) + [m(line)] else Row(lines, m)
  {
    CandidatesAppend(lines, line, m);
    if Boxed(line) {
      SameRowAppend(Candidates(lines, m), m(line));
    }
  }

  /** The last line of a non-empty reading, taken apart from the rest. */
  lemma RowSplit(lines: seq<Line>, m: Measure)
    requires lines != []
    ensures var n := |lines| - 1;
            Row(lines, m) == if CompetesBy(lines[n], m) then Row(lines[..n], m) + [m(lines[n])] else Row(lines[..n], m)
  {
    var n := |lines| - 1;
    assert lines == lines[..n] + [lines[n]];
    RowAppend(lines[..n], lines[n], m);
  }

  lemma {:induction false} CandidatesIff(lines: seq<Line>, m: Measure)
    ensures Candidates(lines, m) != [] <==> exists i :: 0 <= i < |lines| && Boxed(lines[i])
    decreases |lines|
  {
    if lines != [] {
      var n := |lines| - 1;
      CandidatesIff(lines[..n], m);
      if Candidates(lines[..n], m) != [] {
        var i :| 0 <= i < n && Boxed(lines[..n][i]);
        assert Boxed(lines[i]);
      } else {
        assert forall i :: 0 <= i < n ==> !Boxed(lines[..n][i]);
        assert forall i :: 0 <= i < n ==> lines[i] == lines[..n][i];
      }
    }
  }

  // ---- row non-interference ------------------------------------------------------------- //

  /** A boxed confident line whose vertical gap to the click is beyond the row. */
  predicate OffRow(line: Line, m: Measure) { Boxed(line) && m(line).gap > ROW_GAP }

  function WithoutOffRow(lines: seq<Line>, m: Measure): seq<Line> {
    if lines == [] then [] else
      var n := |lines| - 1;
      if OffRow(lines[n], m) then WithoutOffRow(lines[..n], m) else WithoutOffRow(lines[..n], m) + [lines[n]]
  }

  lemma {:induction false} OffRowIgnored(lines: seq<Line>, m: Measure)
    ensures Row(WithoutOffRow(lines, m), m) == Row(lines, m)
    decreases |lines|
  {
    if lines != [] {
      var n := |lines| - 1;
      OffRowIgnored(lines[..n], m);
      RowSplit(lines, m);
      RowAppend(WithoutOffRow(lines[..n], m), lines[n], m);
    }
  }

  /** The lines the answer can depend on once some line is boxed. */
  function Competing(lines: seq<Line>, m: Measure): seq<Line> {
    if lines == [] then [] else
      var n := |lines| - 1;
      if CompetesBy(lines[n], m) then Competing(lines[..n], m) + [lines[n]] else Competing(lines[..n], m)
  }

  lemma {:induction false} RowOfCompeting(lines: seq<Line>, m: Measure)
    ensures Row(Competing(lines, m), m) == Row(lines, m)
    decreases |lines|
  {
    if lines != [] {
      var n := |lines| - 1;
      RowOfCompeting(lines[..n], m);
      RowSplit(lines, m);
      RowAppend(Competing(lines[..n], m), lines[n], m);
    }
  }

  predicate HasBox(lines: seq<Line>) { exists i :: 0 <= i < |lines| && Boxed(lines[i]) }

  /** What is answered when no line is boxed. */
  function Fallback(lines: seq<Line>): string {
    var confident := ConfidentLines(lines);
    if |confident| == 1 then Strip(confident[0].text) else ""
  }

  lemma AnswerParts(lines: seq<Line>, m: Measure)
    ensures Answer(lines, m) == if HasBox(lines) then Chosen(Row(lines, m)) else Fallback(lines)
    ensures !HasBox(lines) ==> Row(lines, m) == []
  {
    CandidatesIff(lines, m);
  }

  /** Two readings that differ only by lines that do not compete (off the row, unboxed,
      unconfident or blank), inserted or removed anywhere, ground the click alike as soon as
      each has some boxed confident line.  This holds for every measure, so for
      `Against(click)`, which makes `Answer` the target text. */
  lemma RowNonInterference(a: seq<Line>, b: seq<Line>, m: Measure)
    requires Competing(a, m) == Competing(b, m) && HasBox(a) && HasBox(b)
    ensures Answer(a, m) == Answer(b, m)
  {
    RowOfCompeting(a, m);
    RowOfCompeting(b, m);
    AnswerParts(a, m);
    AnswerParts(b, m);
  }

  /** Where a reading has no boxed line its fallback answers, so such lines matter exactly
      when that is not what the other reading answers. */
  lemma NonInterferenceIff(a: seq<Line>, b: seq<Line>, m: Measure)
    requires Competing(a, m) == Competing(b, m) && !HasBox(a)
    ensures Answer(a, m) == Answer(b, m) <==> Fallback(a) == if HasBox(b) then "" else Fallback(b)
  {
    RowOfCompeting(a, m);
    RowOfCompeting(b, m);
    AnswerParts(a, m);
    AnswerParts(b, m);
  }

  /** Without a boxed line the guarantee fails: off-row lines, inserted anywhere, take away
      the answer that a single unboxed line gave, and only that one. */
  lemma FirstOffRowLine(lines: seq<Line>, more: seq<Line>, m: Measure)
    requires !HasBox(lines) && WithoutOffRow(more, m) == lines && HasBox(more)
    ensures Answer(more, m) == ""
    ensures Answer(lines, m) == Answer(more, m) <==>
            (|ConfidentLines(lines)| == 1 ==> Strip(ConfidentLines(lines)[0].text) == "")
  {
    OffRowIgnored(more, m);
    AnswerParts(lines, m);
    AnswerParts(more, m);
  }

  const CLICK := Click(10, 10, Region(0.0, 0.0, 100.0, 100.0))
  const CAPTION := Line("OK", None, None)
  const FAR := Line("x", None, Some(Box(0, 40, 10, 10)))

  lemma FarIsOffRow()
    ensures OffRow(FAR, Against(CLICK))
  {
    assert CropRelative(FAR.box.value, CLICK.region);
    assert Against(CLICK)(FAR).gap == 30.0;
  }

  lemma FarDropped(m: Measure)
    requires OffRow(FAR, m)
    ensures WithoutOffRow([FAR, CAPTION], m) == [CAPTION] && HasBox([FAR, CAPTION])
  {
    WithoutNext([], FAR, m);
    WithoutNext([FAR], CAPTION, m);
    assert [] + [FAR] == [FAR] && [FAR] + [CAPTION] == [FAR, CAPTION];
    assert Boxed([FAR, CAPTION][0]);
  }

  lemma WithoutNext(lines: seq<Line>, line: Line, m: Measure)
    ensures WithoutOffRow(lines + [line], m)
         == if OffRow(line, m) then WithoutOffRow(lines, m) else WithoutOffRow(lines, m) + [line]
  {
    assert (lines + [line])[..|lines|] == lines;
  }

  lemma FarHides(m: Measure)
    requires OffRow(FAR, m)
    ensures Answer([CAPTION], m) == "OK" && Answer([FAR, CAPTION], m) == ""
  {
    StripOfTrimmed("OK");
    assert [CAPTION][..0] == [] && ConfidentLines([CAPTION]) == [CAPTION];
    FarDropped(m);
    AnswerParts([CAPTION], m);
    FirstOffRowLine([CAPTION], [FAR, CAPTION], m);
  }

  /** For instance: a confident unboxed line alone is the answer; a boxed line thirty
      pixels below the click makes it empty. */
  lemma FarLineHidesText()
    ensures TargetText([CAPTION], CLICK) == "OK" && TargetText([FAR, CAPTION], CLICK) == ""
  {
    FarIsOffRow();
    FarHides(Against(CLICK));
  }

  // ---- what a non-empty answer is ------------------------------------------------------------ //

  /** Line `i` competes: boxed, confident, on the row, with some text. */
  predicate Competes(lines: seq<Line>, m: Measure, i: nat) { i < |lines| && CompetesBy(lines[i], m) }

  function Distance(lines: seq<Line>, m: Measure, i: nat): real {
    if i < |lines| then m(lines[i]).distance else 0.0
  }

  /** Line `i` is the first of the nearest competitors. */
  ghost predicate FirstNearest(lines: seq<Line>, m: Measure, i: nat) {
    && Competes(lines, m, i)
    && (forall j: nat :: j < i && Competes(lines, m, j) ==> Distance(lines, m, i) < Distance(lines, m, j))
    && forall j: nat :: Competes(lines, m, j) ==> Distance(lines, m, i) <= Distance(lines, m, j)
  }

  lemma {:induction false} NoneCompetes(lines: seq<Line>, m: Measure)
    ensures Row(lines, m) == [] <==> forall j: nat :: !Competes(lines, m, j)
    decreases |lines|
  {
    if lines != [] {
      var n := |lines| - 1;
      var before := lines[..n];
      NoneCompetes(before, m);
      RowSplit(lines, m);
      SameBefore(lines, m);
      assert Competes(lines, m, n) <==> CompetesBy(lines[n], m);
      if j: nat :| Competes(before, m, j) {
        assert Competes(lines, m, j);
      }
    }
  }

  lemma SameBefore(lines: seq<Line>, m: Measure)
    requires lines != []
    ensures var n := |lines| - 1;
            forall j: nat :: j < n ==> Competes(lines, m, j) == Competes(lines[..n], m, j)
                                       && Distance(lines, m, j) == Distance(lines[..n], m, j)
  {
  }

  lemma {:induction false} NearestIsFirst(lines: seq<Line>, m: Measure) returns (i: nat)
    requires Row(lines, m) != []
    ensures FirstNearest(lines, m, i) && Nearest(Row(lines, m)) == m(lines[i])
    decreases |lines|
  {
    var n := |lines| - 1;
    var before := lines[..n];
    RowSplit(lines, m);
    if Row(before, m) == [] {
      NoneCompetes(before, m);
      SameBefore(lines, m);
      i := n;
    } else {
      i := NearestIsFirst(before, m);
      if CompetesBy(lines[n], m) {
        NearestSnoc(Row(before, m), m(lines[n]));
      }
      i := FirstNearestNext(lines, m, i);
    }
  }

  /** One more line: it takes over exactly when it competes and is strictly nearer. */
  lemma FirstNearestNext(lines: seq<Line>, m: Measure, i: nat) returns (i': nat)
    requires lines != [] && FirstNearest(lines[..|lines| - 1], m, i)
    ensures FirstNearest(lines, m, i')
    ensures var last := lines[|lines| - 1];
            i' == if CompetesBy(last, m) && m(last).distance < Distance(lines[..|lines| - 1], m, i)
                  then |lines| - 1 else i
  {
    var n := |lines| - 1;
    SameBefore(lines, m);
    i' := if CompetesBy(lines[n], m) && m(lines[n]).distance < Distance(lines[..n], m, i) then n else i;
    forall j: nat | Competes(lines, m, j)
      ensures j == n || Competes(lines[..n], m, j)
    {
    }
  }

  lemma NearestSnoc(row: seq<Candidate>, c: Candidate)
    requires row != []
    ensures Nearest(row + [c]) == if c.distance < Nearest(row).distance then c else Nearest(row)
  {
    assert (row + [c])[..|row|] == row;
  }

  /** With a boxed line in sight, the answer is some text exactly when the first of the
      nearest competing lines lies within 140 pixels, and then it is that line's text. */
  lemma AnswerIff(lines: seq<Line>, m: Measure, text: string)
    requires text != "" && exists i :: 0 <= i < |lines| && Boxed(lines[i])
    ensures Answer(lines, m) == text <==>
            exists i: nat :: FirstNearest(lines, m, i) && Distance(lines, m, i) <= REACH
                             && m(lines[i]).text == text
  {
    CandidatesIff(lines, m);
    if Row(lines, m) == [] {
      NoneCompetes(lines, m);
    } else {
      var i := NearestIsFirst(lines, m);
      forall j: nat | FirstNearest(lines, m, j) ensures j == i { FirstIsUnique(lines, m, i, j); }
    }
  }

  lemma FirstIsUnique(lines: seq<Line>, m: Measure, i: nat, j: nat)
    requires FirstNearest(lines, m, i) && FirstNearest(lines, m, j)
    ensures i == j
  {
  }

  // ---- the geometry -------------------------------------------------------------------------- //

  function Apart(p: real, q: real): real { if p < q then q - p else p - q }

  /** It is the distance to the nearest place of the interval. */
  lemma OutsideIsNearest(low: real, high: real, p: real)
    requires low <= high
    ensures exists q :: low <= q <= high && Apart(p, q) == Outside(low, high, p)
    ensures forall q :: low <= q <= high ==> Outside(low, high, p) <= Apart(p, q)
  {
    var q := if p < low then low else if p > high then high else p;
    assert low <= q <= high && Apart(p, q) == Outside(low, high, p);
  }

  /** The click and its region, moved over the frame together. */
  function Moved(click: Click, dx: int, dy: int): Click {
    var r := click.region;
    Click(click.x + dx, click.y + dy, r.(x := r.x + dx as real, y := r.y + dy as real))
  }

  function MovedBox(box: Box, dx: int, dy: int): Box { box.(x := box.x + dx, y := box.y + dy) }

  /** Moving click and region together does not move the click within the crop. */
  lemma CropMoves(box: Box, text: string, click: Click, dx: int, dy: int)
    requires CropRelative(box, click.region)
    ensures CandidateOf(box, text, Moved(click, dx, dy)) == CandidateOf(box, text, click)
  {
    SameSpot(click.x, click.region.x, dx);
    SameSpot(click.y, click.region.y, dy);
    assert ClickIn(box, Moved(click, dx, dy)) == ClickIn(box, click);
  }

  lemma SameSpot(x: int, origin: real, d: int)
    ensures (x + d) as real - (origin + d as real) == x as real - origin
  {
  }

  lemma MovesAlong(low: int, width: nat, p: int, d: int)
    ensures Outside((low + d) as real, (low + d + width) as real, (p + d) as real)
         == Outside(low as real, (low + width) as real, p as real)
  {
  }

  /** Boxes in frame pixels have to move along. */
  lemma FrameMoves(box: Box, text: string, click: Click, dx: int, dy: int)
    requires !CropRelative(box, click.region) && !CropRelative(MovedBox(box, dx, dy), click.region)
    ensures CandidateOf(MovedBox(box, dx, dy), text, Moved(click, dx, dy)) == CandidateOf(box, text, click)
  {
    MovesAlong(box.x, box.w, click.x, dx);
    MovesAlong(box.y, box.h, click.y, dy);
  }

  lemma LoneAnswer(line: Line, m: Measure)
    requires Boxed(line)
    ensures Answer([line], m) == if OnRow(m(line)) && m(line).distance <= REACH then m(line).text else ""
  {
    assert [line][..0] == [];
    assert Candidates([line], m) == [m(line)];
    assert SameRow([m(line)]) == if OnRow(m(line)) then [m(line)] else [] by { assert [m(line)][..0] == []; }
  }

  /** How far the click lies beside the box and above or below it. */
  function Offsets(box: Box, click: Click): (real, real) {
    var p := ClickIn(box, click);
    (Outside(box.x as real, (box.x + box.w) as real, p.0), Outside(box.y as real, (box.y + box.h) as real, p.1))
  }

  lemma Measured(line: Line, click: Click)
    requires Boxed(line)
    ensures var d := Offsets(line.box.value, click);
            Against(click)(line) == Candidate(d.0 * d.0 + 4.0 * d.1 * d.1, d.1, Strip(line.text))
  {
  }

  /** A confident boxed line alone is answered exactly if the click is at most 16 pixels above or
      below it and at most 140 away, a pixel of height counting double. */
  lemma LoneLineIff(line: Line, click: Click)
    requires Boxed(line) && Strip(line.text) != ""
    ensures var d := Offsets(line.box.value, click);
            TargetText([line], click)
            == if d.1 <= 16.0 && d.0 * d.0 + 4.0 * d.1 * d.1 <= 19600.0 then Strip(line.text) else ""
  {
    LoneAnswer(line, Against(click));
    Measured(line, click);
  }

  /** Which boxes are taken to be relative to the crop: those whose near corner lies in it and
      whose far corner is at most two pixels out. */
  lemma CropIff(box: Box, region: Region)
    ensures CropRelative(box, region) <==>
            && box.x >= 0 && box.y >= 0
            && box.x as real <= region.width && box.y as real <= region.height
            && (box.x + box.w) as real - region.width <= 2.0 && (box.y + box.h) as real - region.height <= 2.0
  {
  }

  /** Which lines compete for a click: those with a confidence of at least 0.10 or none, a box, some
      text, and the click at most 16 pixels above or below. */
  lemma CompetesIff(line: Line, click: Click)
    ensures CompetesBy(line, Against(click)) <==>
            && (line.confidence.Some? ==> line.confidence.value >= 0.1)
            && line.box.Some? && Strip(line.text) != "" && Offsets(line.box.value, click).1 <= 16.0
  {
    if Boxed(line) { Measured(line, click); }
  }
}
