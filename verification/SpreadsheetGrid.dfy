/** The bounded spreadsheet grid: what is accepted, and the receipt payload as an
    invertible printer. */
module SpreadsheetGrid {
  import opened Options
  import opened Pieces

  const TAB := '\t'
  const NEWLINE := '\n'

  type Rows = seq<seq<string>>

  // ---- joining and splitting ------------------------------------------------------------ //

  function Total(items: seq<string>): nat {
    if items == [] then 0 else |items[0]| + Total(items[1..])
  }

  lemma {:induction false} JoinLength(sep: char, items: seq<string>)
    requires items != []
    ensures |Join(sep, items)| == Total(items) + |items| - 1
    decreases |items|
  {
    if |items| > 1 {
      JoinLength(sep, items[1..]);
    } else {
      assert items[1..] == [];
    }
  }

  lemma {:induction false} JoinHas(sep: char, items: seq<string>, c: char)
    requires c != sep && forall i :: 0 <= i < |items| ==> c !in items[i]
    ensures c !in Join(sep, items)
    decreases |items|
  {
    if |items| > 1 {
      JoinHas(sep, items[1..], c);
    }
  }

  /** Cutting a list inside one of its items cuts its text. */
  lemma {:induction false} JoinPrefix(sep: char, a: seq<string>, b: seq<string>)
    requires a != [] && |a| <= |b|
    requires forall i :: 0 <= i < |a| - 1 ==> a[i] == b[i]
    requires a[|a| - 1] <= b[|a| - 1]
    ensures Join(sep, a) <= Join(sep, b)
    decreases |a|
  {
    if |a| > 1 {
      JoinPrefix(sep, a[1..], b[1..]);
      var x, y := Join(sep, a[1..]), Join(sep, b[1..]);
      assert y[..|x|] == x;
      assert (b[0] + [sep] + y)[..|a[0] + [sep] + x|] == a[0] + [sep] + x;
    }
  }

  // ---- validation -------------------------------------------------------------------------- //

  /** A decoded request value, as far as validation looks at it. */
  datatype Json = Text(text: string) | List(items: seq<Json>) | Other

  datatype GridError = RowCount | UnequalRows | ColumnCount | CellLength | TotalLength | ControlCharacter

  datatype Outcome = Accepted(rows: Rows) | Rejected(error: GridError)

  predicate ControlChar(c: char) { c as int < 32 || c as int == 127 }

  predicate NonEmptyList(value: Json) { value.List? && value.items != [] }

  predicate CellValue(value: Json) { value.Text? && 1 <= |value.text| <= 80 }

  function Texts(cells: seq<Json>): (r: seq<string>)
    requires forall i :: 0 <= i < |cells| ==> CellValue(cells[i])
    ensures |r| == |cells|
  {
    seq(|cells|, i requires 0 <= i < |cells| && CellValue(cells[i]) => cells[i].text)
  }

  ghost predicate CellValues(value: Json) {
    value.List? && forall i :: 0 <= i < |value.items| ==> CellValue(value.items[i])
  }

  function Cells(rows: Rows): seq<string> {
    if rows == [] then [] else rows[0] + Cells(rows[1..])
  }

  predicate Clean(cell: string) { forall i :: 0 <= i < |cell| ==> !ControlChar(cell[i]) }

  function Validate(value: Json, maxCharacters: int): Outcome {
    if !value.List? || !(1 <= |value.items| <= 8) then Rejected(RowCount) else
    var items := value.items;
    if exists i :: 0 <= i < |items| && !NonEmptyList(items[i]) then Rejected(UnequalRows)
    else if exists i :: 0 <= i < |items| && |items[i].items| != |items[0].items| then Rejected(UnequalRows)
    else if |items[0].items| > 8 then Rejected(ColumnCount)
    else if exists i, j :: 0 <= i < |items| && 0 <= j < |items[i].items| && !CellValue(items[i].items[j]) then
      Rejected(CellLength)
    else
      var rows := seq(|items|, i requires 0 <= i < |items| => Texts(items[i].items));
      if Total(Cells(rows)) > maxCharacters then Rejected(TotalLength)
      else if exists i, j :: 0 <= i < |rows| && 0 <= j < |rows[i]| && !Clean(rows[i][j]) then
        Rejected(ControlCharacter)
      else Accepted(rows)
  }

  /** Characters from the space on, other than delete. */
  predicate Typable(cell: string) { forall i :: 0 <= i < |cell| ==> ' ' <= cell[i] && cell[i] as int != 0x7f }

  /** A grid the executor may type: 1 to 8 equal rows of 1 to 8 cells. */
  ghost predicate ValidGrid(rows: Rows, maxCharacters: int) {
    && 1 <= |rows| <= 8 && 1 <= |rows[0]| <= 8
    && (forall i :: 0 <= i < |rows| ==> |rows[i]| == |rows[0]|)
    && (forall i, j :: 0 <= i < |rows| && 0 <= j < |rows[i]| ==> 1 <= |rows[i][j]| <= 80 && Typable(rows[i][j]))
    && Total(Cells(rows)) <= maxCharacters
  }

  function RowValue(row: seq<string>): Json {
    List(seq(|row|, i requires 0 <= i < |row| => Text(row[i])))
  }

  function GridValue(rows: Rows): Json {
    List(seq(|rows|, i requires 0 <= i < |rows| => RowValue(rows[i])))
  }

  lemma TextsOfRow(row: seq<string>)
    requires forall i :: 0 <= i < |row| ==> 1 <= |row[i]| <= 80
    ensures CellValues(RowValue(row)) && Texts(RowValue(row).items) == row
  {
  }

  lemma RowOfTexts(value: Json)
    requires CellValues(value)
    ensures RowValue(Texts(value.items)) == value
  {
    assert RowValue(Texts(value.items)).items == value.items;
  }

  lemma ValidAccepted(rows: Rows, maxCharacters: int)
    requires ValidGrid(rows, maxCharacters)
    ensures Validate(GridValue(rows), maxCharacters) == Accepted(rows)
  {
    var items := GridValue(rows).items;
    forall i | 0 <= i < |rows|
      ensures NonEmptyList(items[i]) && CellValues(items[i]) && |items[i].items| == |rows[i]|
      ensures Texts(items[i].items) == rows[i]
    {
      TextsOfRow(rows[i]);
    }
    assert seq(|items|, i requires 0 <= i < |items| => Texts(items[i].items)) == rows;
  }

  lemma AcceptedValid(value: Json, maxCharacters: int)
    requires Validate(value, maxCharacters).Accepted?
    ensures var rows := Validate(value, maxCharacters).rows;
            ValidGrid(rows, maxCharacters) && GridValue(rows) == value
  {
    var rows := Validate(value, maxCharacters).rows;
    forall i | 0 <= i < |rows|
      ensures RowValue(rows[i]) == value.items[i]
    {
      RowOfTexts(value.items[i]);
    }
    assert GridValue(rows).items == value.items;
  }

  /** A list of 1 to 8 rows. */
  predicate RowsFit(value: Json) { value.List? && 1 <= |value.items| <= 8 }

  /** Rows that are lists, not empty and of one length. */
  ghost predicate Rectangular(value: Json) {
    && RowsFit(value) && value.items[0].List?
    && forall i :: 0 <= i < |value.items| ==>
         && value.items[i].List? && value.items[i].items != []
         && |value.items[i].items| == |value.items[0].items|
  }

  /** Cells that are texts of 1 to 80 characters. */
  ghost predicate CellsFit(value: Json) {
    && Rectangular(value) && |value.items[0].items| <= 8
    && forall i, j :: 0 <= i < |value.items| && 0 <= j < |value.items[i].items| ==>
         value.items[i].items[j].Text? && 1 <= |value.items[i].items[j].text| <= 80
  }

  /** What is wrong is reported in this order: the number of rows, their shape, their width, a
      cell, the total length, a control character. */
  lemma RejectedIff(value: Json, maxCharacters: int)
    ensures var r := Validate(value, maxCharacters);
            && (r == Rejected(RowCount) <==> !RowsFit(value))
            && (r == Rejected(UnequalRows) <==> RowsFit(value) && !Rectangular(value))
            && (r == Rejected(ColumnCount) <==> Rectangular(value) && |value.items[0].items| > 8)
            && (r == Rejected(CellLength) <==>
                  Rectangular(value) && |value.items[0].items| <= 8 && !CellsFit(value))
            && (CellsFit(value) <==> r.Accepted? || r.error in {TotalLength, ControlCharacter})
  {
    if RowsFit(value) {
      var items := value.items;
      if Rectangular(value) {
        assert forall i :: 0 <= i < |items| ==> NonEmptyList(items[i]);
      }
    }
  }

  /** The last two faults of a grid whose cells fit: too much text, or else a character that
      cannot be typed. */
  lemma TextRejectedIff(rows: Rows, maxCharacters: int)
    requires CellsFit(GridValue(rows))
    ensures var r := Validate(GridValue(rows), maxCharacters);
            && (r == Rejected(TotalLength) <==> Total(Cells(rows)) > maxCharacters)
            && (r == Rejected(ControlCharacter) <==>
                  && Total(Cells(rows)) <= maxCharacters
                  && exists i, j :: 0 <= i < |rows| && 0 <= j < |rows[i]| && !Typable(rows[i][j]))
  {
    RejectedIff(GridValue(rows), maxCharacters);
    var items := GridValue(rows).items;
    forall i | 0 <= i < |rows|
      ensures CellValues(items[i]) && Texts(items[i].items) == rows[i]
    {
      assert forall j :: 0 <= j < |rows[i]| ==> items[i].items[j] == Text(rows[i][j]);
      assert forall j :: 0 <= j < |rows[i]| ==> 1 <= |items[i].items[j].text| <= 80;
      TextsOfRow(rows[i]);
    }
    assert seq(|items|, i requires 0 <= i < |items| => Texts(items[i].items)) == rows;
    forall i, j | 0 <= i < |rows| && 0 <= j < |rows[i]| ensures Clean(rows[i][j]) == Typable(rows[i][j]) {
      CleanIff(rows[i][j]);
    }
  }

  lemma CleanIff(cell: string)
    ensures Clean(cell) <==> Typable(cell)
  {
  }

  /** Validation accepts exactly the encodings of grids within the bounds, and returns the
      grid that was encoded. */
  lemma AcceptsExactly(value: Json, maxCharacters: int, rows: Rows)
    ensures Validate(value, maxCharacters) == Accepted(rows) <==>
            ValidGrid(rows, maxCharacters) && value == GridValue(rows)
  {
    if Validate(value, maxCharacters) == Accepted(rows) {
      AcceptedValid(value, maxCharacters);
    }
    if ValidGrid(rows, maxCharacters) && value == GridValue(rows) {
      ValidAccepted(rows, maxCharacters);
    }
  }

  // ---- the payload ---------------------------------------------------------------------------- //

  /** The rows that `remaining` cells reach, the last one possibly cut. */
  function Reached(rows: Rows, remaining: nat): Rows {
    if rows == [] || rows[0] == [] || remaining == 0 then [] else
      var values := rows[0][..Min(remaining, |rows[0]|)];
      [values] + Reached(rows[1..], remaining - |values|)
  }

  function Lines(rows: Rows): (lines: seq<string>)
    ensures |lines| == |rows|
    ensures forall i :: 0 <= i < |rows| ==> lines[i] == Join(TAB, rows[i])
  {
    seq(|rows|, i requires 0 <= i < |rows| => Join(TAB, rows[i]))
  }

  function Print(rows: Rows): string { Join(NEWLINE, Lines(rows)) }

  function Parse(text: string): (rows: Rows)
    ensures |rows| == |Split(NEWLINE, text)|
    ensures forall i :: 0 <= i < |rows| ==> rows[i] == Split(TAB, Split(NEWLINE, text)[i])
  {
    var lines := Split(NEWLINE, text);
    seq(|lines|, i requires 0 <= i < |lines| => Split(TAB, lines[i]))
  }

  function CellCount(rows: Rows): nat
    requires rows != []
  {
    |rows| * |rows[0]|
  }

  function Limit(rows: Rows, cellLimit: Option<int>): nat
    requires rows != []
  {
    if cellLimit.None? then CellCount(rows) else Max(0, cellLimit.value)
  }

  method Payload(rows: Rows, cellLimit: Option<int>) returns (text: string)
    requires rows != []
    ensures text == Print(Reached(rows, Limit(rows, cellLimit)))
  {
    var remaining: nat := Limit(rows, cellLimit);
    var logicalRows: seq<string> := [];
    ghost var taken: Rows := [];
    ghost var all := Reached(rows, remaining);
    for i := 0 to |rows|
      invariant taken + Reached(rows[i..], remaining) == all
      invariant logicalRows == Lines(taken)
    {
      var row := rows[i];
      var values := row[..Min(remaining, |row|)];
      assert rows[i..][0] == row && rows[i..][1..] == rows[i + 1..];
      if values == [] {
        break;
      }
      logicalRows := logicalRows + [Join(TAB, values)];
      taken := taken + [values];
      remaining := remaining - |values|;
    }
    assert taken == all;
    text := Join(NEWLINE, logicalRows);
  }

  /** The first `count` cells in reading order; all of them when there are fewer. */
  function FirstCells(rows: Rows, count: int): seq<string> {
    var cells := Cells(rows);
    cells[..Min(Max(0, count), |cells|)]
  }

  function IssuedCharacterCount(rows: Rows, cellCount: int): nat {
    Total(FirstCells(rows, cellCount))
  }

  // ---- theorems ---------------------------------------------------------------------------------- //

  ghost predicate Printable(rows: Rows) {
    && rows != []
    && (forall i :: 0 <= i < |rows| ==> rows[i] != [])
    && forall i, j :: 0 <= i < |rows| && 0 <= j < |rows[i]| ==> TAB !in rows[i][j] && NEWLINE !in rows[i][j]
  }

  /** Splitting on newlines and tabs inverts printing. */
  lemma ParsePrint(rows: Rows)
    requires Printable(rows)
    ensures Parse(Print(rows)) == rows
  {
    forall i | 0 <= i < |rows|
      ensures NEWLINE !in Lines(rows)[i] && Split(TAB, Lines(rows)[i]) == rows[i]
    {
      JoinHas(TAB, rows[i], NEWLINE);
      SplitJoin(TAB, rows[i]);
    }
    SplitJoin(NEWLINE, Lines(rows));
  }

  lemma TakeConcat(a: seq<string>, b: seq<string>, k: nat)
    ensures k <= |a| ==> (a + b)[..Min(k, |a + b|)] == a[..k]
    ensures k > |a| ==> (a + b)[..Min(k, |a + b|)] == a + b[..Min(k - |a|, |b|)]
  {
  }

  lemma {:induction false} CellsOfReached(rows: Rows, k: nat)
    requires forall i :: 0 <= i < |rows| ==> rows[i] != []
    ensures Cells(Reached(rows, k)) == Cells(rows)[..Min(k, |Cells(rows)|)]
    decreases |rows|
  {
    if rows != [] && k > 0 {
      var row, rest := rows[0], rows[1..];
      TakeConcat(row, Cells(rest), k);
      if k <= |row| {
        assert Reached(rest, 0) == [];
        assert Reached(rows, k) == [row[..k]];
        assert Reached(rows, k)[1..] == [];
      } else {
        CellsOfReached(rest, k - |row|);
        assert row[..|row|] == row;
        assert Reached(rows, k) == [row] + Reached(rest, k - |row|);
        assert Reached(rows, k)[1..] == Reached(rest, k - |row|);
      }
    }
  }

  /** Reached rows are the grid's own rows, whole up to the last, which may be cut. */
  lemma {:induction false} ReachedShape(rows: Rows, k: nat)
    requires forall i :: 0 <= i < |rows| ==> rows[i] != []
    ensures var r := Reached(rows, k);
            && |r| <= |rows|
            && (forall i :: 0 <= i < |r| ==> r[i] != [] && r[i] <= rows[i])
            && (forall i :: 0 <= i < |r| - 1 ==> r[i] == rows[i])
            && (r == [] <==> k == 0 || rows == [])
    decreases |rows|
  {
    if rows != [] && k > 0 {
      var values := rows[0][..Min(k, |rows[0]|)];
      ReachedShape(rows[1..], k - |values|);
    }
  }

  lemma {:induction false} AllReached(rows: Rows, k: nat)
    requires forall i :: 0 <= i < |rows| ==> rows[i] != []
    requires k >= |Cells(rows)|
    ensures Reached(rows, k) == rows
    decreases |rows|
  {
    if rows != [] {
      assert rows[0][..|rows[0]|] == rows[0];
      AllReached(rows[1..], k - |rows[0]|);
      assert rows == [rows[0]] + rows[1..];
    }
  }

  lemma {:induction false} RectangleCells(rows: Rows, width: nat)
    requires forall i :: 0 <= i < |rows| ==> |rows[i]| == width
    ensures |Cells(rows)| == |rows| * width
    decreases |rows|
  {
    if rows != [] {
      RectangleCells(rows[1..], width);
    }
  }

  lemma ValidIsPrintable(rows: Rows, maxCharacters: int)
    requires ValidGrid(rows, maxCharacters)
    ensures Printable(rows) && |Cells(rows)| == CellCount(rows)
  {
    RectangleCells(rows, |rows[0]|);
    forall i, j | 0 <= i < |rows| && 0 <= j < |rows[i]|
      ensures TAB !in rows[i][j] && NEWLINE !in rows[i][j]
    {
      assert Clean(rows[i][j]);
    }
    forall i | 0 <= i < |rows| ensures rows[i] != [] { assert |rows[i]| == |rows[0]|; }
  }

  /** The whole payload of a validated grid parses back to the grid. */
  lemma PayloadInvertible(rows: Rows, maxCharacters: int)
    requires ValidGrid(rows, maxCharacters)
    ensures Parse(Print(Reached(rows, Limit(rows, None)))) == rows
  {
    ValidIsPrintable(rows, maxCharacters);
    AllReached(rows, CellCount(rows));
    ParsePrint(rows);
  }

  /** A partial payload is a prefix of the whole one and parses to exactly the first `k`
      cells, in the grid's own rows; without cells it is empty. */
  lemma PartialPayload(rows: Rows, maxCharacters: int, k: int)
    requires ValidGrid(rows, maxCharacters)
    ensures var partial := Print(Reached(rows, Limit(rows, Some(k))));
            && partial <= Print(rows)
            && (k <= 0 ==> partial == "")
            && (k > 0 ==> Parse(partial) == Reached(rows, k)
                          && Cells(Parse(partial)) == FirstCells(rows, k))
  {
    ValidIsPrintable(rows, maxCharacters);
    if k > 0 {
      var r := Reached(rows, k);
      ReachedShape(rows, k);
      CellsOfReached(rows, k);
      ReachedPrintable(rows, k);
      ParsePrint(r);
      PrintPrefix(rows, r);
    }
  }

  lemma ReachedPrintable(rows: Rows, k: nat)
    requires Printable(rows) && k > 0
    ensures Printable(Reached(rows, k))
  {
    ReachedShape(rows, k);
    var r := Reached(rows, k);
    forall i, j | 0 <= i < |r| && 0 <= j < |r[i]|
      ensures TAB !in r[i][j] && NEWLINE !in r[i][j]
    {
      assert r[i][j] == rows[i][j];
    }
  }

  lemma PrintPrefix(rows: Rows, r: Rows)
    requires r != [] && |r| <= |rows|
    requires forall i :: 0 <= i < |r| ==> r[i] != [] && r[i] <= rows[i]
    requires forall i :: 0 <= i < |r| - 1 ==> r[i] == rows[i]
    ensures Print(r) <= Print(rows)
  {
    var last := |r| - 1;
    JoinPrefix(TAB, r[last], rows[last]);
    JoinPrefix(NEWLINE, Lines(r), Lines(rows));
  }

  lemma {:induction false} LinesTotal(rows: Rows)
    requires forall i :: 0 <= i < |rows| ==> rows[i] != []
    ensures Total(Lines(rows)) + |rows| == Total(Cells(rows)) + |Cells(rows)|
    decreases |rows|
  {
    if rows != [] {
      LinesTotal(rows[1..]);
      JoinLength(TAB, rows[0]);
      assert Lines(rows)[1..] == Lines(rows[1..]);
      TotalAppend(rows[0], Cells(rows[1..]));
    }
  }

  lemma {:induction false} TotalAppend(a: seq<string>, b: seq<string>)
    ensures Total(a + b) == Total(a) + Total(b)
    decreases |a|
  {
    if a == [] {
      assert a + b == b;
    } else {
      assert (a + b)[1..] == a[1..] + b;
      TotalAppend(a[1..], b);
    }
  }

  /** The length of a payload is the issued characters plus one separator between cells. */
  lemma PayloadLength(rows: Rows, maxCharacters: int, k: int)
    requires ValidGrid(rows, maxCharacters)
    ensures |Print(Reached(rows, Limit(rows, Some(k))))|
         == IssuedCharacterCount(rows, k) + Max(0, Min(k, CellCount(rows)) - 1)
  {
    ValidIsPrintable(rows, maxCharacters);
    if k > 0 {
      var r := Reached(rows, k);
      ReachedShape(rows, k);
      CellsOfReached(rows, k);
      LinesTotal(r);
      JoinLength(NEWLINE, Lines(r));
    } else {
      assert Cells(rows)[..0] == [];
    }
  }

  /** Keys pressed beside the text: a tab or an enter after each cell, and a home before
      each row but the first. */
  function NavigationCount(rows: Rows): int
    requires rows != []
  {
    |rows| * Max(0, |rows[0]| - 1) + |rows| + Max(0, |rows| - 1)
  }

  lemma NavigationPerCell(rows: Rows, maxCharacters: int)
    requires ValidGrid(rows, maxCharacters)
    ensures NavigationCount(rows) == |Cells(rows)| + |rows| - 1
  {
    RectangleCells(rows, |rows[0]|);
  }
}
