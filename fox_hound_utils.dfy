/**
 * The rules engine of FoxHoundUtils: the initial layout, the move validator
 * and the two win tests. Pieces live in a sequence of position strings:
 * hounds in slots 0 .. dim/2 - 1, the fox in slot dim/2. A position is a
 * column letter followed by a decimal row.
 */
module FoxHoundUtils {
  import opened Wrappers
  import opened Text

  const DEFAULT_DIM := 8
  const MIN_DIM := 4
  const MAX_DIM := 26
  const HOUND_FIELD := 'H'
  const FOX_FIELD := 'F'

  predicate ValidDim(dim: int) { MIN_DIM <= dim <= MAX_DIM }

  /** The unpadded name of the square in column index c (0 is 'A') and row r. */
  function Square(c: nat, r: nat): (s: string)
    requires c < 26
    ensures |s| >= 2 && s[0] as int == 65 + c
  {
    [(65 + c) as char] + DecimalString(r)
  }

  /** Some slot below n holds position s. */
  predicate Occurs(players: seq<string>, n: int, s: string)
  {
    exists i :: 0 <= i < n && i < |players| && players[i] == s
  }

  /** The first slot below n that holds s, or n when there is none. */
  function FirstIndex(players: seq<string>, n: nat, s: string): (k: nat)
    requires n <= |players|
    ensures k <= n
    ensures k < n ==> players[k] == s
    ensures forall j :: 0 <= j < k ==> players[j] != s
    ensures k == n <==> !Occurs(players, n, s)
    decreases n
  {
    if n == 0 then 0
    else
      var k := FirstIndex(players, n - 1, s);
      if k < n - 1 then k else if players[n - 1] == s then n - 1 else n
  }

  /** No two slots hold the same position. */
  predicate Distinct(players: seq<string>)
  {
    forall i, j :: 0 <= i < j < |players| ==> players[i] != players[j]
  }

  // ---------------------------------------------------------------------
  // Initial layout

  /** Hound i starts on row 1 in column 'B' + 2i. */
  function HoundStart(i: nat): string
    requires i < 13
  {
    [(66 + 2 * i) as char, '1']
  }

  /** The fox's starting column: a four-way table on the parity of dim and of dim/2. */
  function FoxColumn(dim: int): (c: char)
    requires ValidDim(dim)
    ensures 65 <= c as int <= 64 + dim
  {
    if dim % 2 == 0 then
      if (dim / 2) % 2 == 0 then (65 + dim / 2) as char else (64 + dim / 2) as char
    else if (dim / 2) % 2 == 0 then (66 + dim / 2) as char
    else (65 + dim / 2) as char
  }

  /** The fox starts on the last row, row dim. */
  function FoxStart(dim: int): string
    requires ValidDim(dim)
  {
    [FoxColumn(dim)] + DecimalString(dim)
  }

  /** The layout that initialisePositions computes for a valid dimension. */
  function InitialLayout(dim: int): seq<string>
    requires ValidDim(dim)
  {
    seq(dim / 2, i requires 0 <= i < dim / 2 => HoundStart(i)) + [FoxStart(dim)]
  }

  /**
   * initialisePositions: rejects a dimension outside [4, 26] (negative ones
   * with their own message), returns the fixed default array for 8 and
   * computes the layout for every other dimension.
   */
  method InitialisePositions(dimension: int) returns (r: Result<seq<string>>)
    ensures r.Err? <==> !ValidDim(dimension)
    ensures r.Ok? ==> r.value == InitialLayout(dimension)
  {
    if dimension < 0 {
      return Err(IllegalArgument);
    }
    if dimension < MIN_DIM || dimension > MAX_DIM {
      return Err(IllegalArgument);
    }
    var positions := new string[dimension / 2 + 1];
    if dimension == 8 {
      DefaultLayout();
      return Ok(["B1", "D1", "F1", "H1", "E8"]);
    }
    var column: char;
    var i := 0;
    while i < dimension / 2
      invariant 0 <= i <= dimension / 2
      invariant forall k :: 0 <= k < i ==> positions[k] == HoundStart(k)
    {
      column := (66 + 2 * i) as char;
      positions[i] := [column] + ['1'];
      i := i + 1;
    }
    if dimension % 2 == 0 {
      if (dimension / 2) % 2 == 0 {
        column := (65 + dimension / 2) as char;
      } else {
        column := (64 + dimension / 2) as char;
      }
    } else if (dimension / 2) % 2 == 0 {
      column := (66 + dimension / 2) as char;
    } else {
      column := (65 + dimension / 2) as char;
    }
    positions[dimension / 2] := [column] + DecimalString(dimension);
    r := Ok(positions[..]);
  }

  /** For dim 8 the literal default array is what the general formula gives. */
  lemma DefaultLayout()
    ensures InitialLayout(8) == ["B1", "D1", "F1", "H1", "E8"]
  {
    OneDigit(8);
    var l := InitialLayout(8);
    assert FoxColumn(8) == 'E';
    assert l[0] == "B1" && l[1] == "D1" && l[2] == "F1" && l[3] == "H1" && l[4] == "E8";
  }

  /**
   * Shape of the layout: dim/2 hounds on row 1 in columns B, D, F, ..., the
   * fox on row dim, every column on the board and no square used twice.
   */
  lemma InitialLayoutShape(dim: int)
    requires ValidDim(dim)
    ensures |InitialLayout(dim)| == dim / 2 + 1
    ensures forall i :: 0 <= i < dim / 2 ==>
              InitialLayout(dim)[i] == Square(1 + 2 * i, 1) && 1 + 2 * i < dim
    ensures InitialLayout(dim)[dim / 2] == Square(FoxColumn(dim) as int - 65, dim)
    ensures Distinct(InitialLayout(dim))
  {
    var l := InitialLayout(dim);
    forall i | 0 <= i < dim / 2
      ensures l[i] == Square(1 + 2 * i, 1)
    {
      OneDigit(1);
    }
    forall i, j | 0 <= i < j < |l|
      ensures l[i] != l[j]
    {
      if j < dim / 2 {
        assert l[i][0] != l[j][0];
      } else {
        assert DecimalString(dim) != "1" by {
          if dim < 10 { OneDigit(dim); }
        }
        assert l[i][1..] == "1";
        assert l[j][1..] == DecimalString(dim);
      }
    }
  }

  /**
   * The parity table keeps the fox within one column of the middle of the
   * board and on a square of the hounds' colour: column index plus row is
   * even, as it is for hound i at column index 1 + 2i on row 1.
   */
  lemma FoxColumnPlacement(dim: int)
    requires ValidDim(dim)
    ensures var c := FoxColumn(dim) as int - 65;
      -2 <= 2 * c - (dim - 1) <= 2 && (c + dim) % 2 == 0
  {
  }

  // ---------------------------------------------------------------------
  // Fox win

  /** isFoxWin: the fox's position is exactly two characters with '1' second. */
  function IsFoxWin(foxPos: string): (won: bool)
    requires |foxPos| >= 2
    ensures won <==> foxPos == [foxPos[0]] + DecimalString(1)
  {
    OneDigit(1);
    foxPos[1] == '1' && |foxPos| == 2
  }

  /** On a square name the test is "the fox stands on row 1", in any column. */
  lemma FoxWinIffRowOne(c: nat, r: nat)
    requires c < 26
    ensures IsFoxWin(Square(c, r)) <==> r == 1
  {
    if r < 10 {
      OneDigit(r);
    }
  }

  // ---------------------------------------------------------------------
  // Reading coordinates the way isValidMove does

  /** The column difference dest - origin. */
  function ColDelta(origin: string, dest: string): int
    requires |origin| >= 1 && |dest| >= 1
  {
    dest[0] as int - origin[0] as int
  }

  predicate Adjacent(d: int) { d == 1 || d == -1 }

  /** The row read as one digit: char 1. */
  function Row1(s: string): int
    requires |s| >= 2
  {
    s[1] as int - 48
  }

  /** The row read as two digits: chars 1 and 2. */
  function Row2(s: string): int
    requires |s| >= 3
  {
    (s[1] as int - 48) * 10 + s[2] as int - 48
  }

  /**
   * The row as the fox branch and positionQuery read it: one digit below
   * dimension 10; from 10 on, two digits when the string is longer than two
   * characters and one digit otherwise.
   */
  function ParsedRow(dim: int, s: string): int
    requires |s| >= 2
  {
    if dim < 10 || |s| <= 2 then Row1(s) else Row2(s)
  }

  /** On an unpadded square name, the parsed row is the row. */
  lemma ParsedRowOfSquare(dim: int, c: nat, r: nat)
    requires c < 26 && 1 <= r <= 99
    requires dim < 10 ==> r < 10
    ensures ParsedRow(dim, Square(c, r)) == r
  {
    if r < 10 { OneDigit(r); } else { TwoDigits(r); }
  }

  // ---------------------------------------------------------------------
  // The move rules as the source writes them

  /**
   * Fox branch: the origin is the fox's slot; the destination column lies in
   * 'A' .. 'A' + dim - 1 one column away; the destination row is one row away
   * and at most dim (and positive below dimension 10); the destination is
   * none of slots 0 .. dim/2.
   */
  predicate FoxMove(dim: int, players: seq<string>, origin: string, dest: string)
    requires ValidDim(dim) && |players| > dim / 2 && |origin| >= 2 && |dest| >= 2
  {
    && origin == players[dim / 2]
    && 65 <= dest[0] as int <= 64 + dim
    && Adjacent(ColDelta(origin, dest))
    && (dim < 10 ==> 0 < Row1(dest))
    && ParsedRow(dim, dest) <= dim
    && Adjacent(ParsedRow(dim, dest) - ParsedRow(dim, origin))
    && !Occurs(players, dim / 2 + 1, dest)
  }

  /** The hound branch tests only the upper column bound. */
  predicate HoundColumnOk(dim: int, origin: string, dest: string)
    requires |origin| >= 1 && |dest| >= 1
  {
    dest[0] as int <= 64 + dim && Adjacent(ColDelta(origin, dest))
  }

  /** From dimension 10 on the hound branch reads char 2 of dest and, if the bound holds, of origin. */
  predicate HoundRowReadable(dim: int, origin: string, dest: string)
  {
    dim >= 10 ==> |dest| >= 3 && (Row2(dest) <= dim ==> |origin| >= 3)
  }

  /** The row test that guards the hounds' occupancy scan: one row forward, within the board. */
  predicate HoundRowTest(dim: int, origin: string, dest: string)
    requires |origin| >= 2 && |dest| >= 2 && HoundRowReadable(dim, origin, dest)
  {
    if dim < 10 then Row1(dest) <= dim && Row1(dest) - Row1(origin) == 1
    else Row2(dest) <= dim && Row2(dest) - Row2(origin) == 1
  }

  /** The hounds' scan covers slots 0 .. dim/2 below dimension 10 and only the hound slots from 10 on. */
  function HoundScanLimit(dim: int): int
  {
    if dim < 10 then dim / 2 + 1 else dim / 2
  }

  /**
   * Hound branch: some hound slot holds the origin and the column test holds;
   * the move is then accepted unless the row test holds AND the destination
   * is found by the scan.
   */
  predicate HoundMove(dim: int, players: seq<string>, origin: string, dest: string)
    requires ValidDim(dim) && |players| > dim / 2 && |origin| >= 2 && |dest| >= 2
    requires Occurs(players, dim / 2, origin) && HoundColumnOk(dim, origin, dest) ==> HoundRowReadable(dim, origin, dest)
  {
    && Occurs(players, dim / 2, origin)
    && HoundColumnOk(dim, origin, dest)
    && (!HoundRowTest(dim, origin, dest) || !Occurs(players, HoundScanLimit(dim), dest))
  }

  /** What isValidMove may read without an out-of-range charAt. */
  predicate MoveReadable(dim: int, players: seq<string>, figure: char, origin: string, dest: string)
  {
    && |origin| >= 2 && |dest| >= 2
    && (figure != FOX_FIELD && Occurs(players, dim / 2, origin) && HoundColumnOk(dim, origin, dest)
        ==> HoundRowReadable(dim, origin, dest))
  }

  predicate ValidMove(dim: int, players: seq<string>, figure: char, origin: string, dest: string)
    requires ValidDim(dim) && |players| > dim / 2 && MoveReadable(dim, players, figure, origin, dest)
  {
    if figure == FOX_FIELD then FoxMove(dim, players, origin, dest) else HoundMove(dim, players, origin, dest)
  }

  /** The scan for dest among slots 0 .. n - 1 with an early exit. */
  method IsOccupied(players: seq<string>, n: int, dest: string) returns (found: bool)
    requires 0 <= n <= |players|
    ensures found == Occurs(players, n, dest)
  {
    found := false;
    var i := 0;
    while i < n
      invariant 0 <= i <= n
      invariant !Occurs(players, i, dest)
    {
      if dest == players[i] {
        found := true;
        break;
      }
      i := i + 1;
    }
  }

  /**
   * isValidMove. It throws for a dimension outside [4, 26], never changes
   * players, and otherwise decides the move by the rules above. The hound
   * loop scans for the destination with an index of its own (see the
   * finding on HoundLoopStepAsWritten).
   */
  method IsValidMove(dim: int, players: seq<string>, figure: char, origin: string, dest: string)
    returns (r: Result<bool>)
    requires ValidDim(dim) ==> |players| > dim / 2 && MoveReadable(dim, players, figure, origin, dest)
    ensures r == if ValidDim(dim) then Ok(ValidMove(dim, players, figure, origin, dest)) else Err(IllegalArgument)
  {
    if dim < 0 {
      return Err(IllegalArgument);
    }
    if dim < MIN_DIM || dim > MAX_DIM {
      return Err(IllegalArgument);
    }
    var validity := false;
    var check := 1;
    if figure == FOX_FIELD {
      if origin == players[dim / 2] {
        if 65 <= dest[0] as int <= 64 + dim && Adjacent(ColDelta(origin, dest)) {
          var rowOrigin, rowDest, rowOk;
          if dim < 10 {
            rowOrigin, rowDest := Row1(origin), Row1(dest);
            rowOk := 0 < rowDest && rowDest <= dim && Adjacent(rowDest - rowOrigin);
          } else {
            rowOrigin := if |origin| > 2 then Row2(origin) else Row1(origin);
            rowDest := if |dest| > 2 then Row2(dest) else Row1(dest);
            rowOk := rowDest <= dim && Adjacent(rowDest - rowOrigin);
          }
          if rowOk {
            var occupied := IsOccupied(players, dim / 2 + 1, dest);
            if occupied {
              check := 0;
            }
            if check == 1 {
              validity := true;
            }
          }
        }
      }
    } else {
      ghost var columnOk := HoundColumnOk(dim, origin, dest);
      ghost var blocked := Occurs(players, dim / 2, origin) && columnOk
        && HoundRowTest(dim, origin, dest) && Occurs(players, HoundScanLimit(dim), dest);
      var i := 0;
      while i < dim / 2
        invariant 0 <= i <= dim / 2
        invariant Occurs(players, i, origin) ==> Occurs(players, dim / 2, origin)
        invariant validity == (Occurs(players, i, origin) && columnOk && !blocked)
        invariant check == (if Occurs(players, i, origin) && columnOk && blocked then 0 else 1)
      {
        if origin == players[i] {
          if dest[0] as int <= 64 + dim && Adjacent(ColDelta(origin, dest)) {
            assert Occurs(players, dim / 2, origin);
            if dim < 10 {
              if Row1(dest) <= dim && Row1(dest) - Row1(origin) == 1 {
                var occupied := IsOccupied(players, dim / 2 + 1, dest);
                if occupied {
                  check := 0;
                }
              }
            } else if Row2(dest) <= dim && Row2(dest) - Row2(origin) == 1 {
              var occupied := IsOccupied(players, dim / 2, dest);
              if occupied {
                check := 0;
              }
            }
            if check == 1 {
              validity := true;
            }
          }
        }
        i := i + 1;
      }
    }
    return Ok(validity);
  }

  // ---------------------------------------------------------------------
  // Hound win

  /** isHoundWin on a valid board: no square of the board is a valid fox destination. */
  predicate HoundWin(dim: int, players: seq<string>)
    requires ValidDim(dim) && |players| > dim / 2 && |players[dim / 2]| >= 2
  {
    forall c, r :: 0 <= c < dim && 1 <= r <= dim ==> !FoxMove(dim, players, players[dim / 2], Square(c, r))
  }

  /**
   * isHoundWin. A negative dimension throws; otherwise every square, row by
   * row and column 'A' .. (char)(64 + dim) within a row, is tried as a fox
   * destination. For an invalid dimension the first try throws, unless the
   * 16-bit column bound (char)(64 + dim) is below 'A' (dimension 0, say),
   * in which case nothing is tried and the hounds are said to have won.
   * Each try first reads players[dimension / 2]; and at Integer.MAX_VALUE the
   * row counter would wrap and the loop would never end.
   */
  method IsHoundWin(players: seq<string>, dimension: int) returns (r: Result<bool>)
    requires dimension < 0x7fff_ffff
    requires ValidDim(dimension) ==> |players| > dimension / 2 && |players[dimension / 2]| >= 2
    requires dimension > 0 && !ValidDim(dimension) && (64 + dimension) % 65536 >= 65 ==> |players| > dimension / 2
    ensures r == if dimension < 0 then Err(IllegalArgument)
                 else if ValidDim(dimension) then Ok(HoundWin(dimension, players))
                 else if (64 + dimension) % 65536 >= 65 then Err(IllegalArgument)
                 else Ok(true)
  {
    if dimension < 0 {
      return Err(IllegalArgument);
    }
    if !ValidDim(dimension) {
      // The first isValidMove call, if there is one, throws.
      if (64 + dimension) % 65536 >= 65 {
        return Err(IllegalArgument);
      }
      return Ok(true);
    }
    var fox := players[dimension / 2];
    var houndsWon := true;
    ghost var wc, wr := 0, 1;
    var i := 1;
    while i <= dimension
      invariant 1 <= i <= dimension + 1
      invariant houndsWon ==> forall c, row :: 0 <= c < dimension && 1 <= row < i ==>
                  !FoxMove(dimension, players, fox, Square(c, row))
      invariant !houndsWon ==>
                  0 <= wc < dimension && 1 <= wr <= dimension && FoxMove(dimension, players, fox, Square(wc, wr))
    {
      var ch := 'A';
      while ch as int <= 64 + dimension
        invariant 65 <= ch as int <= 65 + dimension
        invariant houndsWon ==> forall c, row :: 0 <= c < dimension && 1 <= row < i ==>
                    !FoxMove(dimension, players, fox, Square(c, row))
        invariant houndsWon ==> forall c :: 0 <= c < ch as int - 65 ==>
                    !FoxMove(dimension, players, fox, Square(c, i))
        invariant !houndsWon ==>
                    0 <= wc < dimension && 1 <= wr <= dimension && FoxMove(dimension, players, fox, Square(wc, wr))
      {
        var coOrd := [ch] + DecimalString(i);
        assert coOrd == Square(ch as int - 65, i);
        var valid := IsValidMove(dimension, players, FOX_FIELD, fox, coOrd);
        if valid.value {
          houndsWon := false;
          wc, wr := ch as int - 65, i;
          break;
        }
        ch := (ch as int + 1) as char;
      }
      i := i + 1;
    }
    return Ok(houndsWon);
  }

  /**
   * For a fox on a board square, a board square is a valid fox destination
   * exactly when it is one column and one row away and no piece stands on
   * it: on unpadded names the fox branch enforces the intended rule.
   */
  lemma FoxMoveOnSquares(dim: int, players: seq<string>, c0: nat, r0: nat, c: nat, r: nat)
    requires ValidDim(dim) && |players| > dim / 2
    requires c0 < dim && 1 <= r0 <= dim && players[dim / 2] == Square(c0, r0)
    requires c < 26 && 1 <= r <= dim
    ensures FoxMove(dim, players, Square(c0, r0), Square(c, r)) <==>
      c < dim && Adjacent(c - c0) && Adjacent(r - r0) && !Occurs(players, dim / 2 + 1, Square(c, r))
  {
    ParsedRowOfSquare(dim, c0, r0);
    ParsedRowOfSquare(dim, c, r);
    if dim < 10 {
      OneDigit(r);
    }
  }

  /**
   * Off square names the fox branch reads only what it needs: below 10 a
   * trailing character is ignored (D7x), from 10 on any character counts as
   * a digit (';' is row 11) and row 0 is not refused.
   */
  lemma FoxMoveOffSquares()
    ensures FoxMove(8, ["B1", "D1", "F1", "H1", "E8"], "E8", "D7x")
    ensures FoxMove(12, ["B1", "D1", "F1", "H1", "J1", "L1", "G12"], "G12", "F;")
    ensures FoxMove(12, ["B1", "D1", "F1", "H1", "J1", "L1", "C1"], "C1", "B0")
  {
    var p8 := ["B1", "D1", "F1", "H1", "E8"];
    assert !Occurs(p8, 5, "D7x") by {
      forall i | 0 <= i < 5 ensures p8[i] != "D7x" { assert |p8[i]| == 2; }
    }
    var p12 := ["B1", "D1", "F1", "H1", "J1", "L1", "G12"];
    assert !Occurs(p12, 7, "F;") by {
      forall i | 0 <= i < 7 ensures p12[i] != "F;" { assert p12[i][1] != ';'; }
    }
    var q12 := ["B1", "D1", "F1", "H1", "J1", "L1", "C1"];
    assert !Occurs(q12, 7, "B0") by {
      forall i | 0 <= i < 7 ensures q12[i] != "B0" { assert q12[i][1] != '0'; }
    }
  }

  /**
   * The hounds have won exactly when every diagonal neighbour of the fox
   * that lies on the board is occupied.
   */
  lemma HoundWinIffSurrounded(dim: int, players: seq<string>, c0: nat, r0: nat)
    requires ValidDim(dim) && |players| > dim / 2
    requires c0 < dim && 1 <= r0 <= dim && players[dim / 2] == Square(c0, r0)
    ensures HoundWin(dim, players) <==>
      forall c, r :: 0 <= c < dim && 1 <= r <= dim && Adjacent(c - c0) && Adjacent(r - r0) ==>
        Occurs(players, dim / 2 + 1, Square(c, r))
  {
    forall c, r | 0 <= c < dim && 1 <= r <= dim
      ensures FoxMove(dim, players, players[dim / 2], Square(c, r)) <==>
        Adjacent(c - c0) && Adjacent(r - r0) && !Occurs(players, dim / 2 + 1, Square(c, r))
    {
      FoxMoveOnSquares(dim, players, c0, r0, c, r);
    }
  }

  // ---------------------------------------------------------------------
  // Where the hound branch departs from the intended rules

  /**
   * The intended rule on square names: the mover owns the origin, the
   * destination is on the board, one column away, one row away (forward,
   * towards higher rows, for a hound) and on no piece.
   */
  predicate IntendedMove(dim: int, players: seq<string>, figure: char, c0: nat, r0: nat, c: nat, r: nat)
    requires ValidDim(dim) && |players| > dim / 2 && c0 < 26 && c < 26
  {
    && (if figure == FOX_FIELD then players[dim / 2] == Square(c0, r0) else Occurs(players, dim / 2, Square(c0, r0)))
    && c < dim && 1 <= r <= dim
    && Adjacent(c - c0)
    && (if figure == FOX_FIELD then Adjacent(r - r0) else r - r0 == 1)
    && !Occurs(players, dim / 2 + 1, Square(c, r))
  }

  /**
   * Below dimension 10, on square names, the hound branch accepts a move from
   * a hound's square one column away unless it goes one row forward, stays on
   * the board and lands on a piece: neither the size nor the direction of
   * the row step is enforced.
   */
  lemma HoundMoveOnSquares(dim: int, players: seq<string>, c0: nat, r0: nat, c: nat, r: nat)
    requires ValidDim(dim) && dim < 10 && |players| > dim / 2
    requires c0 < 26 && r0 < 10 && c < 26 && r < 10
    ensures HoundMove(dim, players, Square(c0, r0), Square(c, r)) <==>
      && Occurs(players, dim / 2, Square(c0, r0))
      && c < dim && Adjacent(c - c0)
      && (r - r0 == 1 && r <= dim ==> !Occurs(players, dim / 2 + 1, Square(c, r)))
  {
    OneDigit(r0);
    OneDigit(r);
  }

  /** On an 8x8 board a hound on B3 may retreat to A2, which the intended rule forbids. */
  lemma HoundRetreatAccepted()
    ensures var players := ["B3", "D1", "F1", "H1", "E8"];
      HoundMove(8, players, "B3", "A2") && !IntendedMove(8, players, HOUND_FIELD, 1, 3, 0, 2)
  {
    var players := ["B3", "D1", "F1", "H1", "E8"];
    assert Occurs(players, 4, "B3") by { assert players[0] == "B3"; }
    OneDigit(3);
    OneDigit(2);
  }

  /**
   * The row delta only decides whether the destination is scanned: on the
   * opening board a hound on B1 may leap to C5, and the hound on D1 may
   * leap onto the fox on E8.
   */
  lemma HoundLeapAccepted()
    ensures var players := ["B1", "D1", "F1", "H1", "E8"];
      && HoundMove(8, players, "B1", "C5") && !IntendedMove(8, players, HOUND_FIELD, 1, 1, 2, 5)
      && HoundMove(8, players, "D1", "E8")
  {
    var players := ["B1", "D1", "F1", "H1", "E8"];
    assert Occurs(players, 4, "B1") by { assert players[0] == "B1"; }
    assert Occurs(players, 4, "D1") by { assert players[1] == "D1"; }
    OneDigit(1);
    OneDigit(5);
    OneDigit(8);
  }

  /** From dimension 10 on the hounds' scan skips the fox: a hound may move onto the fox. */
  lemma WideBoardHoundOntoFox()
    ensures var players := ["C10", "D1", "F1", "H1", "J1", "L1", "D11"];
      HoundMove(12, players, "C10", "D11") && Occurs(players, 12 / 2 + 1, "D11")
  {
    var players := ["C10", "D1", "F1", "H1", "J1", "L1", "D11"];
    assert players[0] == "C10" && players[6] == "D11";
  }

  /** The scenario moves of an 8x8 opening: E8 to D7 and B1 to A2 or C2 pass, B1 to B2 does not. */
  lemma OpeningMoves()
    ensures var players := ["B1", "D1", "F1", "H1", "E8"];
      && FoxMove(8, players, "E8", "D7")
      && HoundMove(8, players, "B1", "A2")
      && HoundMove(8, players, "B1", "C2")
      && !HoundMove(8, players, "B1", "B2")
  {
    var players := ["B1", "D1", "F1", "H1", "E8"];
    assert players[0] == "B1";
  }

  /** A move that stays in its column is rejected for either figure. */
  lemma SameColumnRejected(dim: int, players: seq<string>, figure: char, origin: string, dest: string)
    requires ValidDim(dim) && |players| > dim / 2 && MoveReadable(dim, players, figure, origin, dest)
    requires dest[0] == origin[0]
    ensures !ValidMove(dim, players, figure, origin, dest)
  {
  }

  // ---------------------------------------------------------------------
  // Finding: the hound loop as written reuses its index

  /** The loop variables of the hound branch at the head of the outer loop. */
  datatype HoundLoopState = HoundLoopState(i: int, check: int, validity: bool)

  /**
   * One pass of the hound branch's outer for-loop as the source writes it:
   * the occupancy scan runs `for (i = 0; ...)` on the outer loop's own
   * index, leaving i at the slot where dest was found (or at the scan limit),
   * before the outer `++i`.
   */
  function HoundLoopStepAsWritten(dim: int, players: seq<string>, origin: string, dest: string, s: HoundLoopState)
    : (t: HoundLoopState)
    requires ValidDim(dim) && |players| > dim / 2 && MoveReadable(dim, players, HOUND_FIELD, origin, dest)
    requires 0 <= s.i < dim / 2
    ensures t.i >= 1
    ensures t.validity ==> s.validity || (Occurs(players, dim / 2, origin) && HoundColumnOk(dim, origin, dest))
  {
    if origin == players[s.i] && HoundColumnOk(dim, origin, dest) then
      assert Occurs(players, dim / 2, origin);
      var limit := HoundScanLimit(dim);
      var k := FirstIndex(players, limit, dest);
      var found := HoundRowTest(dim, origin, dest) && k < limit;
      var iAfter := if !HoundRowTest(dim, origin, dest) then s.i else if found then k else limit;
      var check := if found then 0 else s.check;
      HoundLoopState(iAfter + 1, check, s.validity || check == 1)
    else
      HoundLoopState(s.i + 1, s.check, s.validity)
  }

  /** The outer loop run for at most `steps` passes; it stops once i reaches dim/2. */
  function HoundLoopRunAsWritten(dim: int, players: seq<string>, origin: string, dest: string, s: HoundLoopState, steps: nat)
    : (t: HoundLoopState)
    requires ValidDim(dim) && |players| > dim / 2 && MoveReadable(dim, players, HOUND_FIELD, origin, dest)
    requires s.i >= 0
    ensures t.i >= 0
    ensures steps > 0 && t.i < dim / 2 ==> t.i >= 1
    ensures t.validity ==> s.validity || (Occurs(players, dim / 2, origin) && HoundColumnOk(dim, origin, dest))
    decreases steps
  {
    if steps == 0 || s.i >= dim / 2 then s
    else HoundLoopRunAsWritten(dim, players, origin, dest, HoundLoopStepAsWritten(dim, players, origin, dest, s), steps - 1)
  }

  /** Board of the finding: the hound in slot 1 tries to step onto the hound in slot 0. */
  function HangBoard(): seq<string> { ["C2", "D1", "F1", "H1", "E8"] }

  lemma {:induction false} HangFixedPoint(steps: nat)
    ensures HoundLoopRunAsWritten(8, HangBoard(), "D1", "C2", HoundLoopState(1, 0, false), steps)
            == HoundLoopState(1, 0, false)
  {
    var players := HangBoard();
    if steps > 0 {
      assert players[1] == "D1";
      assert FirstIndex(players, 5, "C2") == 0;
      HangFixedPoint(steps - 1);
    }
  }

  /**
   * Hound D1 to C2 on that board: after any number of passes the index is
   * still 1 < dim/2, so the loop as written never exits, while the move is
   * simply invalid (C2 is occupied) under the rules IsValidMove decides.
   */
  lemma HoundLoopNeverEnds(steps: nat)
    ensures HoundLoopRunAsWritten(8, HangBoard(), "D1", "C2", HoundLoopState(0, 1, false), steps).i < 8 / 2
    ensures !HoundMove(8, HangBoard(), "D1", "C2")
  {
    var players := HangBoard();
    var s0 := HoundLoopState(0, 1, false);
    var s1 := HoundLoopStepAsWritten(8, players, "D1", "C2", s0);
    assert s1 == HoundLoopState(1, 1, false);
    assert players[1] == "D1";
    assert FirstIndex(players, 5, "C2") == 0;
    var s2 := HoundLoopStepAsWritten(8, players, "D1", "C2", s1);
    assert s2 == HoundLoopState(1, 0, false);
    if steps >= 2 {
      HangFixedPoint(steps - 2);
    }
    assert players[0] == "C2";
  }

  /**
   * What the as-written loop knows at the head of each pass: either no pass
   * has yet met a hound on origin with the column test passing; or validity
   * is set and the move is valid; or check is 0, validity is clear and the
   * move is invalid.
   */
  ghost predicate HoundLoopInvariant(dim: int, players: seq<string>, origin: string, dest: string, s: HoundLoopState)
    requires ValidDim(dim) && |players| > dim / 2 && MoveReadable(dim, players, HOUND_FIELD, origin, dest)
  {
    || (s.check == 1 && !s.validity && !(Occurs(players, s.i, origin) && HoundColumnOk(dim, origin, dest)))
    || (s.validity && HoundMove(dim, players, origin, dest))
    || (s.check == 0 && !s.validity && !HoundMove(dim, players, origin, dest))
  }

  lemma HoundLoopStepKeepsInvariant(dim: int, players: seq<string>, origin: string, dest: string, s: HoundLoopState)
    requires ValidDim(dim) && |players| > dim / 2 && MoveReadable(dim, players, HOUND_FIELD, origin, dest)
    requires 0 <= s.i < dim / 2 && HoundLoopInvariant(dim, players, origin, dest, s)
    ensures HoundLoopInvariant(dim, players, origin, dest, HoundLoopStepAsWritten(dim, players, origin, dest, s))
  {
    if origin == players[s.i] && HoundColumnOk(dim, origin, dest) {
      assert Occurs(players, dim / 2, origin);
    }
  }

  lemma {:induction false} HoundLoopRunKeepsInvariant(dim: int, players: seq<string>, origin: string, dest: string,
                                                      s: HoundLoopState, steps: nat)
    requires ValidDim(dim) && |players| > dim / 2 && MoveReadable(dim, players, HOUND_FIELD, origin, dest)
    requires s.i >= 0 && HoundLoopInvariant(dim, players, origin, dest, s)
    ensures HoundLoopInvariant(dim, players, origin, dest, HoundLoopRunAsWritten(dim, players, origin, dest, s, steps))
    decreases steps
  {
    if steps > 0 && s.i < dim / 2 {
      HoundLoopStepKeepsInvariant(dim, players, origin, dest, s);
      HoundLoopRunKeepsInvariant(dim, players, origin, dest, HoundLoopStepAsWritten(dim, players, origin, dest, s), steps - 1);
    }
  }

  /**
   * Whenever the as-written loop exits (its index reaches dim/2), the
   * validity it returns is the hound rule HoundMove that IsValidMove
   * decides: the corrected validator changes only the inputs on which the
   * source never returns.
   */
  lemma HoundLoopAgreesWhenItEnds(dim: int, players: seq<string>, origin: string, dest: string, steps: nat)
    requires ValidDim(dim) && |players| > dim / 2 && MoveReadable(dim, players, HOUND_FIELD, origin, dest)
    ensures var t := HoundLoopRunAsWritten(dim, players, origin, dest, HoundLoopState(0, 1, false), steps);
      t.i >= dim / 2 ==> (t.validity <==> HoundMove(dim, players, origin, dest))
  {
    var s0 := HoundLoopState(0, 1, false);
    HoundLoopRunKeepsInvariant(dim, players, origin, dest, s0, steps);
  }
}
