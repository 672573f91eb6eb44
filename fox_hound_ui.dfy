/**
 * FoxHoundUI without the console: the decision positionQuery makes about
 * one entered line, and the text displayBoard prints, returned as lines.
 */
module FoxHoundUI {
  import opened Wrappers
  import opened Text
  import opened FoxHoundUtils

  // ---------------------------------------------------------------------
  // positionQuery

  /** A coordinate positionQuery accepts: column in 'A' .. 'A' + dim - 1, parsed row in 1 .. dim. */
  predicate CoordinateAccepted(dim: int, s: string)
    requires |s| >= 2
  {
    65 <= s[0] as int <= 64 + dim && 1 <= ParsedRow(dim, s) <= dim
  }

  /** positionQuery reads char 1 of both tokens, and char 2 of a token only when it is longer than 2. */
  predicate PairReadable(dim: int, line: string)
  {
    var coords := SplitSpaces(line);
    ValidDim(dim) && |coords| == 2 ==> |coords[0]| >= 2 && |coords[1]| >= 2
  }

  /**
   * One pass of positionQuery's retry loop on an entered line: an invalid
   * dimension throws; a line that does not split into exactly two tokens, or
   * whose tokens are off the board, asks again (None); otherwise the two
   * tokens are returned unchanged. Below dimension 10 each row is the digit
   * in char 1; from 10 on a token longer than 2 is read as a two-digit row
   * and any other as a one-digit row, for each token on its own.
   */
  function PositionQuery(dim: int, line: string): (r: Result<Option<(string, string)>>)
    requires PairReadable(dim, line)
    ensures r.Err? <==> !ValidDim(dim)
    ensures r.Ok? ==> var coords := SplitSpaces(line);
      (r.value.Some? <==> |coords| == 2 && CoordinateAccepted(dim, coords[0]) && CoordinateAccepted(dim, coords[1]))
      && (r.value.Some? ==> r.value.value == (coords[0], coords[1]))
  {
    if dim < 0 then Err(IllegalArgument)
    else if dim < MIN_DIM || dim > MAX_DIM then Err(IllegalArgument)
    else
      var column := 64 + dim;
      var coords := SplitSpaces(line);
      if |coords| != 2 then Ok(None)
      else
        var rows :=
          if dim < 10 then (Row1(coords[0]), Row1(coords[1]))
          else if |coords[0]| > 2 && |coords[1]| > 2 then (Row2(coords[0]), Row2(coords[1]))
          else if |coords[1]| > 2 && |coords[0]| == 2 then (Row1(coords[0]), Row2(coords[1]))
          else if |coords[1]| == 2 && |coords[0]| > 2 then (Row2(coords[0]), Row1(coords[1]))
          else (Row1(coords[0]), Row1(coords[1]));
        if && 65 <= coords[0][0] as int <= column && 65 <= coords[1][0] as int <= column
           && 1 <= rows.0 && 1 <= rows.1 && rows.0 <= dim && rows.1 <= dim
        then Ok(Some((coords[0], coords[1])))
        else Ok(None)
  }

  /**
   * Two unpadded square names separated by a space are accepted exactly
   * when both squares are on the board, and come back as entered.
   */
  lemma PositionQueryOnSquares(dim: int, c0: nat, r0: nat, c1: nat, r1: nat)
    requires ValidDim(dim)
    requires c0 < 26 && c1 < 26 && 1 <= r0 <= 99 && 1 <= r1 <= 99
    requires dim < 10 ==> r0 < 10 && r1 < 10
    ensures var line := Square(c0, r0) + " " + Square(c1, r1);
      PairReadable(dim, line) &&
      PositionQuery(dim, line) ==
        Ok(if c0 < dim && c1 < dim && r0 <= dim && r1 <= dim then Some((Square(c0, r0), Square(c1, r1))) else None)
  {
    var parts := [Square(c0, r0), Square(c1, r1)];
    assert JoinSpaces(parts) == Square(c0, r0) + " " + Square(c1, r1);
    SplitJoin(parts);
    ParsedRowOfSquare(dim, c0, r0);
    ParsedRowOfSquare(dim, c1, r1);
  }

  /** Below dimension 10 only char 1 is read: "A12" is taken for row 1 and passed on whole. */
  lemma PositionQueryReadsOneDigit()
    ensures var parts := ["A12", "B3"];
      PairReadable(8, JoinSpaces(parts)) && PositionQuery(8, JoinSpaces(parts)) == Ok(Some(("A12", "B3")))
  {
    var parts := ["A12", "B3"];
    SplitJoin(parts);
  }

  /** Strings that name no square pass too: "D7x" on an 8x8 board, "F;" (row 11) on a 12x12 board. */
  lemma PositionQueryAcceptsNonSquares()
    ensures PairReadable(8, JoinSpaces(["E8", "D7x"]))
      && PositionQuery(8, JoinSpaces(["E8", "D7x"])) == Ok(Some(("E8", "D7x")))
    ensures PairReadable(12, JoinSpaces(["G12", "F;"]))
      && PositionQuery(12, JoinSpaces(["G12", "F;"])) == Ok(Some(("G12", "F;")))
  {
    SplitJoin(["E8", "D7x"]);
    SplitJoin(["G12", "F;"]);
  }

  // ---------------------------------------------------------------------
  // displayBoard

  /**
   * The symbol displayBoard prints for square co. Its loop runs over the
   * hound slots j and at each one tests hound j first and the fox second,
   * so hound 0 wins over the fox and the fox wins over every later hound.
   */
  function SymbolAt(players: seq<string>, co: string): (symbol: char)
    requires |players| >= 2
    ensures symbol == HOUND_FIELD || symbol == FOX_FIELD || symbol == '.'
    ensures symbol == HOUND_FIELD ==> Occurs(players, |players| - 1, co)
    ensures symbol == FOX_FIELD ==> players[|players| - 1] == co
  {
    if players[0] == co then HOUND_FIELD
    else if players[|players| - 1] == co then FOX_FIELD
    else if Occurs(players, |players| - 1, co) then HOUND_FIELD
    else '.'
  }

  /**
   * The square shows '.' exactly when no piece is on it; when the fox does
   * not share it with a hound, it shows 'H' for a hound and 'F' for the fox.
   */
  lemma SymbolAtMeaning(players: seq<string>, co: string)
    requires |players| >= 2
    ensures SymbolAt(players, co) == '.' <==> !Occurs(players, |players|, co)
    ensures SymbolAt(players, co) == FOX_FIELD <==> players[|players| - 1] == co && players[0] != co
    ensures !(players[|players| - 1] == co && Occurs(players, |players| - 1, co)) ==>
      SymbolAt(players, co) ==
        if Occurs(players, |players| - 1, co) then HOUND_FIELD
        else if players[|players| - 1] == co then FOX_FIELD
        else '.'
  {
    if Occurs(players, |players|, co) && !Occurs(players, |players| - 1, co) {
      var i :| 0 <= i < |players| && players[i] == co;
      assert i == |players| - 1;
    }
  }

  /** The per-square loop of displayBoard with its `check` flag (the source keeps it in a static field). */
  method SquareSymbol(players: seq<string>, co: string) returns (symbol: char)
    requires |players| >= 2
    ensures symbol == SymbolAt(players, co)
  {
    var check := 0;
    symbol := '.';
    var j := 0;
    while j < |players| - 1
      invariant 0 <= j <= |players| - 1
      invariant check == 0 && symbol == '.'
      invariant j > 0 ==> players[|players| - 1] != co
      invariant !Occurs(players, j, co)
    {
      if players[j] == co {
        symbol := HOUND_FIELD;
        check := 1;
        break;
      } else if players[|players| - 1] == co {
        symbol := FOX_FIELD;
        check := 1;
        break;
      } else {
        check := 0;
      }
      j := j + 1;
    }
    if check == 0 {
      symbol := '.';
    }
  }

  /** The row number as displayBoard prints it: zero-padded to two digits from dimension 10 on. */
  function RowLabel(dim: int, i: nat): (s: string)
    requires i < 100
    ensures forall k :: 0 <= k < |s| ==> '0' <= s[k] <= '9'
    ensures DecimalValue(s) == i
    ensures dim >= 10 ==> |s| == 2
    ensures dim < 10 ==> s == DecimalString(i)
  {
    DecimalRoundTrip(i);
    if dim >= 10 && i < 10 then
      OneDigit(i);
      assert ("0" + DecimalString(i))[..1] == "0";
      "0" + DecimalString(i)
    else DecimalString(i)
  }

  /** The column letters 'A' .. 'A' + dim - 1 of the header and footer. */
  function ColumnLetters(dim: int): (h: string)
    requires ValidDim(dim)
    ensures |h| == dim && forall k :: 0 <= k < dim ==> h[k] == Square(k, 1)[0]
  {
    seq(dim, k requires 0 <= k < dim => (65 + k) as char)
  }

  /** The header and footer line: letters framed by two spaces below dimension 10, led by three from 10 on. */
  function HeaderLine(dim: int): string
    requires ValidDim(dim)
  {
    if dim < 10 then "  " + ColumnLetters(dim) + "  " else "   " + ColumnLetters(dim)
  }

  /** The squares of row i, column 'A' first, each looked up by its unpadded name. */
  function RowSymbols(players: seq<string>, dim: int, i: nat): (s: string)
    requires ValidDim(dim) && |players| >= 2
    ensures |s| == dim && forall k :: 0 <= k < dim ==> s[k] == SymbolAt(players, Square(k, i))
  {
    seq(dim, k requires 0 <= k < dim => SymbolAt(players, Square(k, i)))
  }

  /** One printed board row: rowLabel, space, squares, space, rowLabel. */
  function RowLine(players: seq<string>, dim: int, i: nat): string
    requires ValidDim(dim) && |players| >= 2 && i < 100
  {
    RowLabel(dim, i) + " " + RowSymbols(players, dim, i) + " " + RowLabel(dim, i)
  }

  /** The lines displayBoard prints: header, blank, rows 1 .. dim, blank, footer, blank. */
  function BoardLines(players: seq<string>, dim: int): seq<string>
    requires ValidDim(dim) && |players| >= 2
  {
    [HeaderLine(dim), ""]
    + seq(dim, i requires 0 <= i < dim => RowLine(players, dim, i + 1))
    + ["", HeaderLine(dim), ""]
  }

  /** On a board of dimension 10 or more every row line has the same width. */
  lemma WideRowsAligned(players: seq<string>, dim: int, i: nat)
    requires ValidDim(dim) && dim >= 10 && |players| >= 2 && 1 <= i <= dim
    ensures |RowLine(players, dim, i)| == dim + 6
  {
  }

  /**
   * The header letter of column k stands above column k of every row: at
   * offset 2 + k below dimension 10 and 3 + k from 10 on, the header holds
   * the column letter of the square whose symbol the row line shows there.
   */
  lemma ColumnsAligned(players: seq<string>, dim: int, i: nat, k: nat)
    requires ValidDim(dim) && |players| >= 2 && 1 <= i <= dim && k < dim
    ensures var off := if dim < 10 then 2 else 3;
      && off + k < |HeaderLine(dim)| && off + k < |RowLine(players, dim, i)|
      && HeaderLine(dim)[off + k] == Square(k, i)[0]
      && RowLine(players, dim, i)[off + k] == SymbolAt(players, Square(k, i))
  {
    var letters := ColumnLetters(dim);
    assert letters[k] == Square(k, 1)[0];
  }

  /** The inner loop of displayBoard over the columns of row i. */
  method RenderRow(players: seq<string>, dim: int, i: nat) returns (line: string)
    requires ValidDim(dim) && |players| >= 2 && 1 <= i <= dim
    ensures line == RowLine(players, dim, i)
  {
    var rowLabel := RowLabel(dim, i);
    line := rowLabel + " ";
    var ch := 'A';
    while ch as int <= 64 + dim
      invariant 65 <= ch as int <= 65 + dim
      invariant line == rowLabel + " " + RowSymbols(players, dim, i)[..ch as int - 65]
    {
      var coOrds := [ch] + DecimalString(i);
      assert coOrds == Square(ch as int - 65, i);
      var symbol := SquareSymbol(players, coOrds);
      ghost var done := ch as int - 65;
      assert RowSymbols(players, dim, i)[..done + 1] == RowSymbols(players, dim, i)[..done] + [symbol];
      line := line + [symbol];
      ch := (ch as int + 1) as char;
    }
    assert RowSymbols(players, dim, i)[..dim] == RowSymbols(players, dim, i);
    line := line + " " + rowLabel;
  }

  /** displayBoard: an invalid dimension throws; otherwise the printed lines. */
  method DisplayBoard(players: seq<string>, dimension: int) returns (r: Result<seq<string>>)
    requires ValidDim(dimension) ==> |players| >= 2
    ensures r.Err? <==> !ValidDim(dimension)
    ensures r.Ok? ==> r.value == BoardLines(players, dimension)
  {
    if dimension < 0 {
      return Err(IllegalArgument);
    }
    if dimension < MIN_DIM || dimension > MAX_DIM {
      return Err(IllegalArgument);
    }
    var header := HeaderLine(dimension);
    var rows: seq<string> := [];
    var i := 1;
    while i <= dimension
      invariant 1 <= i <= dimension + 1
      invariant rows == seq(i - 1, k requires 0 <= k < i - 1 => RowLine(players, dimension, k + 1))
    {
      var line := RenderRow(players, dimension, i);
      rows := rows + [line];
      i := i + 1;
    }
    return Ok([header, ""] + rows + ["", header, ""]);
  }
}
