/**
 * The template written into a newly created CSV file: `col` lines, each
 * made of `row` empty quoted fields separated by commas.
 */
module EmptyCsv {
  import opened Strings

  /** One empty quoted field. */
  const EmptyField := "\"\""

  /** One line of the template, without its newline. */
  function Line(row: nat): string
  {
    Join(Repeat(EmptyField, row), ',')
  }

  /** The whole template: `col` copies of the line, each ended by a newline. */
  function EmptyCsvText(row: nat, col: nat): string
  {
    Terminated(Repeat(Line(row), col), '\n')
  }

  /** What the inner loop has written after `y` of the `row` fields of a line. */
  function PartialLine(row: nat, y: nat): string
  {
    Join(Repeat(EmptyField, y), ',') + (if 0 < y < row then "," else "")
  }

  /** One pass of the inner loop appends a field, and a comma unless it was the last field. */
  lemma PartialLineStep(done: string, row: nat, y: nat)
    requires y < row
    ensures y < row - 1 ==> done + PartialLine(row, y) + EmptyField + "," == done + PartialLine(row, y + 1)
    ensures y == row - 1 ==> done + PartialLine(row, y) + EmptyField == done + PartialLine(row, y + 1)
  {
    var fields := Repeat(EmptyField, y + 1);
    assert fields[..y] == Repeat(EmptyField, y);
  }

  /** The newline after a full line completes one more line of the template. */
  lemma EmptyCsvTextStep(row: nat, x: nat)
    ensures EmptyCsvText(row, x) + PartialLine(row, row) + "\n" == EmptyCsvText(row, x + 1)
  {
    assert Repeat(Line(row), x + 1)[..x] == Repeat(Line(row), x);
  }

  /** `CreateEmptyCSV(row, col)`: builds the template with two nested loops. */
  method CreateEmptyCsv(row: nat := 1, col: nat := 1) returns (csv: string)
    ensures csv == EmptyCsvText(row, col)
  {
    csv := "";
    for x := 0 to col
      invariant csv == EmptyCsvText(row, x)
    {
      ghost var done := csv;
      var y := 0;
      while y < row
        invariant 0 <= y <= row
        invariant csv == done + PartialLine(row, y)
      {
        PartialLineStep(done, row, y);
        csv := csv + EmptyField;
        if y < row - 1 {
          csv := csv + ",";
        }
        y := y + 1;
      }
      EmptyCsvTextStep(row, x);
      csv := csv + "\n";
    }
  }

  lemma LineHasNoNewline(row: nat)
    ensures '\n' !in Line(row)
  {
    JoinNotContains(Repeat(EmptyField, row), ',', '\n');
  }

  /** The template consists of exactly `col` lines, each the same line, and nothing after the last newline. */
  lemma EmptyCsvLines(row: nat, col: nat)
    ensures Split(EmptyCsvText(row, col), '\n') == Repeat(Line(row), col) + [""]
  {
    LineHasNoNewline(row);
    SplitTerminated(Repeat(Line(row), col), '\n');
  }

  /** Every line holds exactly `row` empty quoted fields (a line of zero fields is the empty string). */
  lemma LineFields(row: nat)
    ensures Split(Line(row), ',') == if row == 0 then [""] else Repeat(EmptyField, row)
  {
    if row > 0 {
      SplitJoin(Repeat(EmptyField, row), ',');
    }
  }

  /** Each field takes three characters (two quotes and a comma or a newline). */
  lemma EmptyCsvLength(row: nat, col: nat)
    ensures |EmptyCsvText(row, col)| == if row == 0 then col else 3 * row * col
  {
    var fields := Repeat(EmptyField, row);
    var width := |Join(fields, ',')|;
    TerminatedLength(Repeat(Line(row), col), '\n', width);
    assert |EmptyCsvText(row, col)| == col * (width + 1);
    if row > 0 {
      JoinLength(fields, ',', 2);
      assert width + 1 == 3 * row;
      MultiplyCommutes(col, 3 * row);
    } else {
      assert width == 0;
    }
  }

  lemma MultiplyCommutes(a: int, b: int)
    ensures a * b == b * a
  {
  }

  /** The defaults give one empty field on one line; zero lines give the empty string. */
  lemma EmptyCsvEdges(row: nat)
    ensures EmptyCsvText(1, 1) == "\"\"\n"
    ensures EmptyCsvText(row, 0) == ""
  {
    assert Repeat(Line(1), 1) == [Line(1)];
    assert Repeat(EmptyField, 1) == [EmptyField];
  }
}
