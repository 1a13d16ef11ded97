/**
 * The input files of the event-driven simulation, read line by line. A line
 * is kept as the result of splitting it on single spaces, each piece either
 * a number `Double.parseDouble` accepts or something it rejects.
 */
module Readers {
  import opened Wrappers

  datatype Token = Num(value: real) | Junk

  type Line = seq<Token>

  /** The exceptions the file-reading code can end with. */
  datatype ReadError =
    | IllegalArgumentException
    | IOException
    | NumberFormatException
    | ArrayIndexOutOfBoundsException

  /** A `BufferedReader` over the lines not yet read. */
  class LineReader {
    var lines: seq<Line>

    constructor(lines: seq<Line>)
      ensures this.lines == lines
    {
      this.lines := lines;
    }

    /** `readLine`: the next line, or None (Java's null) at the end of the file. */
    method ReadLine() returns (line: Option<Line>)
      modifies this
      ensures old(lines) == [] ==> line.None? && lines == []
      ensures old(lines) != [] ==> line == Some(old(lines)[0]) && lines == old(lines)[1..]
    {
      if lines == [] {
        line := None;
      } else {
        line := Some(lines[0]);
        lines := lines[1..];
      }
    }
  }

  /** `Double.parseDouble(values[k])`: a missing piece or a piece that is not a number raises. */
  function Field(line: Line, k: nat): (r: Result<real, ReadError>)
    ensures r.Ok? <==> k < |line| && line[k].Num?
    ensures r.Ok? ==> r.value == line[k].value
    ensures k >= |line| ==> r == Err(ArrayIndexOutOfBoundsException)
    ensures k < |line| && line[k].Junk? ==> r == Err(NumberFormatException)
  {
    if k >= |line| then Err(ArrayIndexOutOfBoundsException)
    else if line[k].Junk? then Err(NumberFormatException)
    else Ok(line[k].value)
  }

  /** The first `width` pieces parsed left to right; the first failure is the one raised. */
  function Fields(line: Line, width: nat): (r: Result<seq<real>, ReadError>)
    ensures r.Ok? ==> |r.value| == width
  {
    if width == 0 then Ok([])
    else
      match Fields(line, width - 1)
      case Err(e) => Err(e)
      case Ok(front) =>
        match Field(line, width - 1)
        case Err(e) => Err(e)
        case Ok(x) => Ok(front + [x])
  }

  lemma {:induction false} FieldsAreTheNumbers(line: Line, width: nat)
    ensures Fields(line, width).Ok? <==> width <= |line| && forall k :: 0 <= k < width ==> line[k].Num?
    ensures Fields(line, width).Ok? ==>
      forall k :: 0 <= k < width ==> Fields(line, width).value[k] == line[k].value
  {
    if width > 0 {
      FieldsAreTheNumbers(line, width - 1);
    }
  }

  /** When the first `k` pieces parse and piece `k` does not, its failure is the one raised. */
  lemma {:induction false} FieldsFailAtFirstBadPiece(line: Line, width: nat, k: nat)
    requires k < width
    requires Fields(line, k).Ok? && Field(line, k).Err?
    ensures Fields(line, width) == Err(Field(line, k).error)
  {
    if width - 1 > k {
      FieldsFailAtFirstBadPiece(line, width - 1, k);
    }
  }

  /**
   * `n` lines of `width` numbers each, read in order: IOException when the
   * file ends first, otherwise the first parse failure, otherwise the rows.
   */
  function Rows(lines: seq<Line>, n: nat, width: nat): (r: Result<seq<seq<real>>, ReadError>)
    ensures r.Ok? ==> n <= |lines| && |r.value| == n && forall i :: 0 <= i < n ==> |r.value[i]| == width
  {
    if n == 0 then Ok([])
    else
      match Rows(lines, n - 1, width)
      case Err(e) => Err(e)
      case Ok(front) =>
        if n - 1 >= |lines| then Err(IOException)
        else
          match Fields(lines[n - 1], width)
          case Err(e) => Err(e)
          case Ok(row) => Ok(front + [row])
  }

  lemma {:induction false} RowsShape(lines: seq<Line>, n: nat, width: nat)
    ensures Rows(lines, n, width).Ok? ==>
      && (forall i :: 0 <= i < n ==> Fields(lines[i], width).Ok?)
      && (forall i :: 0 <= i < n ==> Rows(lines, n, width).value[i] == Fields(lines[i], width).value)
    ensures n <= |lines| && (forall i :: 0 <= i < n ==> Fields(lines[i], width).Ok?) ==>
      Rows(lines, n, width).Ok?
    ensures n > |lines| && (forall i :: 0 <= i < |lines| ==> Fields(lines[i], width).Ok?) ==>
      Rows(lines, n, width) == Err(IOException)
  {
    if n > 0 {
      RowsShape(lines, n - 1, width);
    }
  }

  /** A line whose first two pieces are numbers gives those two numbers as its row. */
  lemma TwoFields(line: Line)
    requires Field(line, 0).Ok? && Field(line, 1).Ok?
    ensures Fields(line, 2) == Ok([Field(line, 0).value, Field(line, 1).value])
  {
    FieldsAreTheNumbers(line, 2);
    assert Fields(line, 2).value == [Field(line, 0).value, Field(line, 1).value];
  }

  /** Reading one more well-formed line appends its row. */
  lemma RowsStep(lines: seq<Line>, n: nat, width: nat)
    requires n < |lines| && Rows(lines, n, width).Ok? && Fields(lines[n], width).Ok?
    ensures Rows(lines, n + 1, width) == Ok(Rows(lines, n, width).value + [Fields(lines[n], width).value])
  {
  }

  /** Once reading fails, reading more lines fails the same way. */
  lemma {:induction false} RowsFailureIsFinal(lines: seq<Line>, m: nat, n: nat, width: nat)
    requires m <= n && Rows(lines, m, width).Err?
    ensures Rows(lines, n, width) == Rows(lines, m, width)
  {
    if m < n {
      RowsFailureIsFinal(lines, m, n - 1, width);
    }
  }
}
