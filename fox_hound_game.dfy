/**
 * FoxHoundGame: turn swapping, the choice of dimension in main, and one
 * step at a time of gameLoop (win test, move, save, load) on a session
 * object that holds gameLoop's array and its two mutable locals.
 */
module FoxHoundGame {
  import opened Wrappers
  import opened Text
  import opened FoxHoundUtils
  import opened FoxHoundIO

  /** swapPlayers: 'F' gives 'H'; every other char gives 'F'. */
  function SwapPlayers(currentTurn: char): (next: char)
    ensures next == FOX_FIELD || next == HOUND_FIELD
    ensures next == HOUND_FIELD <==> currentTurn == FOX_FIELD
  {
    if currentTurn == FOX_FIELD then HOUND_FIELD else FOX_FIELD
  }

  /** On the two turn letters swapping is an involution without fixed points. */
  lemma SwapInvolution(c: char)
    requires c == FOX_FIELD || c == HOUND_FIELD
    ensures SwapPlayers(SwapPlayers(c)) == c && SwapPlayers(c) != c
  {
  }

  /**
   * The dimension main plays with: the entered number when the answer was
   * 'y' or 'Y' and it lies in [4, 26], the default 8 otherwise.
   */
  function ChosenDimension(answer: char, entered: int): (d: int)
    ensures ValidDim(d)
    ensures (answer == 'y' || answer == 'Y') && ValidDim(entered) ==> d == entered
    ensures !((answer == 'y' || answer == 'Y') && ValidDim(entered)) ==> d == DEFAULT_DIM
  {
    if answer == 'y' || answer == 'Y' then
      var check := if entered < 0 then 0 else if entered < 4 || entered > 26 then 0 else 1;
      if check == 0 then DEFAULT_DIM else entered
    else DEFAULT_DIM
  }

  /**
   * The array after gameLoop applies a move: the fox's slot takes dest, or
   * the first hound slot holding origin takes dest (none changes when no
   * hound slot holds it).
   */
  function ApplyMove(dim: int, players: seq<string>, turn: char, origin: string, dest: string): (r: seq<string>)
    requires ValidDim(dim) && |players| == dim / 2 + 1
    ensures |r| == |players|
    ensures forall i :: 0 <= i < |r| && r[i] != players[i] ==> r[i] == dest
    ensures forall i, j :: 0 <= i < j < |r| && r[i] != players[i] ==> r[j] == players[j]
    ensures turn == FOX_FIELD ==> r[dim / 2] == dest
    ensures turn != FOX_FIELD ==> r[dim / 2] == players[dim / 2]
  {
    if turn == FOX_FIELD then players[dim / 2 := dest]
    else
      var k := FirstIndex(players, dim / 2, origin);
      if k < dim / 2 then players[k := dest] else players
  }

  /** A fox move writes dest into slot dim/2 and nowhere else. */
  lemma FoxApplyOverwritesFox(dim: int, players: seq<string>, origin: string, dest: string)
    requires ValidDim(dim) && |players| == dim / 2 + 1
    ensures var r := ApplyMove(dim, players, FOX_FIELD, origin, dest);
      r[dim / 2] == dest && forall i :: 0 <= i < dim / 2 ==> r[i] == players[i]
  {
  }

  /**
   * A hound move writes dest into the first hound slot holding origin and
   * nowhere else; with no such slot the array stays as it was.
   */
  lemma HoundApplyOverwritesFirstMatch(dim: int, players: seq<string>, turn: char, origin: string, dest: string)
    requires ValidDim(dim) && |players| == dim / 2 + 1 && turn != FOX_FIELD
    ensures var r := ApplyMove(dim, players, turn, origin, dest);
      && (!Occurs(players, dim / 2, origin) ==> r == players)
      && (Occurs(players, dim / 2, origin) ==>
            exists k :: 0 <= k < dim / 2 && players[k] == origin
              && (forall j :: 0 <= j < k ==> players[j] != origin)
              && r == players[k := dest])
  {
    var k := FirstIndex(players, dim / 2, origin);
    if k < dim / 2 {
      assert players[k] == origin;
    }
  }

  /** An accepted fox move keeps every piece on its own square. */
  lemma FoxMoveKeepsDistinct(dim: int, players: seq<string>, origin: string, dest: string)
    requires ValidDim(dim) && |players| == dim / 2 + 1 && |origin| >= 2 && |dest| >= 2
    requires Distinct(players) && FoxMove(dim, players, origin, dest)
    ensures Distinct(ApplyMove(dim, players, FOX_FIELD, origin, dest))
  {
    var r := ApplyMove(dim, players, FOX_FIELD, origin, dest);
    forall i, j | 0 <= i < j < |r|
      ensures r[i] != r[j]
    {
      if j == dim / 2 {
        assert r[i] == players[i];
      }
    }
  }

  /**
   * Below dimension 10, an accepted hound move one row forward also keeps
   * every piece on its own square: its destination was scanned and found free.
   */
  lemma HoundForwardMoveKeepsDistinct(dim: int, players: seq<string>, origin: string, dest: string)
    requires ValidDim(dim) && dim < 10 && |players| == dim / 2 + 1
    requires MoveReadable(dim, players, HOUND_FIELD, origin, dest)
    requires Distinct(players) && HoundMove(dim, players, origin, dest) && HoundRowTest(dim, origin, dest)
    ensures Distinct(ApplyMove(dim, players, HOUND_FIELD, origin, dest))
  {
    var r := ApplyMove(dim, players, HOUND_FIELD, origin, dest);
    var k := FirstIndex(players, dim / 2, origin);
    forall i, j | 0 <= i < j < |r|
      ensures r[i] != r[j]
    {
      if i == k {
        assert r[j] == players[j];
      } else if j == k {
        assert r[i] == players[i];
      }
    }
  }

  /** A hound retreating onto another hound, which the validator accepts, puts two pieces on one square. */
  lemma HoundRetreatCollides()
    ensures var players := ["B3", "A2", "F1", "H1", "E8"];
      && HoundMove(8, players, "B3", "A2")
      && Distinct(players)
      && ApplyMove(8, players, HOUND_FIELD, "B3", "A2") == ["A2", "A2", "F1", "H1", "E8"]
  {
    var players := ["B3", "A2", "F1", "H1", "E8"];
    assert players[0] == "B3";
    assert FirstIndex(players, 4, "B3") == 0;
  }

  /** From dimension 10 on a hound may be moved onto the fox. */
  lemma WideBoardHoundCapturesSquare()
    ensures var players := ["C10", "D1", "F1", "H1", "J1", "L1", "D11"];
      && HoundMove(12, players, "C10", "D11")
      && !Distinct(ApplyMove(12, players, HOUND_FIELD, "C10", "D11"))
  {
    var players := ["C10", "D1", "F1", "H1", "J1", "L1", "D11"];
    WideBoardHoundOntoFox();
    assert FirstIndex(players, 6, "C10") == 0;
    var r := ApplyMove(12, players, HOUND_FIELD, "C10", "D11");
    assert r[0] == r[6];
  }

  /** The first of the entries that the validator accepts, or |entries| when none is accepted. */
  function FirstValidEntry(dim: int, players: seq<string>, turn: char, entries: seq<(string, string)>): (k: nat)
    requires ValidDim(dim) && |players| > dim / 2
    requires forall j :: 0 <= j < |entries| ==> MoveReadable(dim, players, turn, entries[j].0, entries[j].1)
    ensures k <= |entries|
    ensures k < |entries| ==> ValidMove(dim, players, turn, entries[k].0, entries[k].1)
    ensures forall j :: 0 <= j < k ==> !ValidMove(dim, players, turn, entries[j].0, entries[j].1)
    decreases |entries|
  {
    if entries == [] then 0
    else if ValidMove(dim, players, turn, entries[0].0, entries[0].1) then 0
    else 1 + FirstValidEntry(dim, players, turn, entries[1..])
  }

  datatype Winner = HoundsWin | FoxWins | NoWinner

  /** gameLoop tests the hounds' win before the fox's. */
  function WinnerOf(dim: int, players: seq<string>): (w: Winner)
    requires ValidDim(dim) && |players| > dim / 2 && |players[dim / 2]| >= 2
    ensures w == HoundsWin <==> HoundWin(dim, players)
    ensures w == FoxWins <==> !HoundWin(dim, players) && IsFoxWin(players[dim / 2])
  {
    if HoundWin(dim, players) then HoundsWin
    else if IsFoxWin(players[dim / 2]) then FoxWins
    else NoWinner
  }

  /**
   * The state gameLoop keeps between menu choices: the dimension, the
   * caller's array of positions, whose turn it is, and the `validity` flag,
   * which starts false and is never reset.
   */
  class GameSession {
    const dim: int
    const players: array<string>
    var turn: char
    var validity: bool

    ghost predicate Valid()
      reads this, players
    {
      && ValidDim(dim)
      && players.Length == dim / 2 + 1
      && (turn == FOX_FIELD || turn == HOUND_FIELD)
      && forall i :: 0 <= i < players.Length ==> |players[i]| >= 2
    }

    /** main's initialisePositions for a valid dimension, then gameLoop's start: the fox moves first. */
    constructor (dimension: int)
      requires ValidDim(dimension)
      ensures Valid() && fresh(players)
      ensures dim == dimension && players[..] == InitialLayout(dimension)
      ensures turn == FOX_FIELD && !validity
    {
      var layout := InitialisePositions(dimension);
      InitialLayoutShape(dimension);
      var positions := layout.value;
      var a := new string[dimension / 2 + 1];
      var i := 0;
      while i < a.Length
        invariant 0 <= i <= a.Length
        invariant forall k :: 0 <= k < i ==> a[k] == positions[k]
      {
        a[i] := positions[i];
        i := i + 1;
      }
      assert a[..] == positions;
      dim := dimension;
      players := a;
      turn := FOX_FIELD;
      validity := false;
    }

    /** The win test at the head of each round: hounds first, then fox. */
    method CheckWin() returns (w: Winner)
      requires Valid()
      ensures w == WinnerOf(dim, players[..])
    {
      var houndWin := IsHoundWin(players[..], dim);
      if houndWin.value {
        return HoundsWin;
      }
      if IsFoxWin(players[dim / 2]) {
        return FoxWins;
      }
      return NoWinner;
    }

    /**
     * The move choice of gameLoop. `entries` are the coordinate pairs that
     * successive positionQuery calls return. While `validity` is false each
     * is put to isValidMove until one passes; once it is true (after the
     * first accepted move, for good) the first entry is applied unchecked.
     * Entries need only be readable by isValidMove while it is still called;
     * afterwards any coordinate pair of at least two characters goes through.
     * When every entry is refused the session waits for more input: nothing
     * is applied and `applied` is false. An applied move updates the array
     * in place and passes the turn.
     */
    method Move(entries: seq<(string, string)>) returns (applied: bool, move: (string, string))
      requires Valid() && |entries| >= 1
      requires forall k :: 0 <= k < |entries| ==> |entries[k].0| >= 2 && |entries[k].1| >= 2
      requires !validity ==>
        forall k :: 0 <= k < |entries| ==> MoveReadable(dim, players[..], turn, entries[k].0, entries[k].1)
      modifies this, players
      ensures Valid()
      ensures old(validity) ==> applied && move == entries[0]
      ensures !old(validity) ==>
        var k := FirstValidEntry(dim, old(players[..]), old(turn), entries);
        (applied <==> k < |entries|) && (applied ==> move == entries[k])
      ensures applied ==> && validity
                          && players[..] == ApplyMove(dim, old(players[..]), old(turn), move.0, move.1)
                          && turn == SwapPlayers(old(turn))
      ensures !applied ==> !validity && players[..] == old(players[..]) && turn == old(turn)
    {
      ghost var before := players[..];
      var k := 0;
      var positions := entries[0];
      while !validity
        invariant 0 <= k < |entries| && positions == entries[k]
        invariant players[..] == before && turn == old(turn)
        invariant !old(validity) ==>
          forall j :: 0 <= j < k ==> !ValidMove(dim, before, turn, entries[j].0, entries[j].1)
        invariant old(validity) ==> validity && k == 0
        invariant !old(validity) && validity ==> ValidMove(dim, before, turn, positions.0, positions.1)
        decreases |entries| - k + (if validity then 0 else 1)
      {
        var v := IsValidMove(dim, players[..], turn, positions.0, positions.1);
        validity := v.value;
        if !validity {
          if k + 1 == |entries| {
            return false, positions;
          }
          k := k + 1;
          positions := entries[k];
        }
      }
      assert !old(validity) ==> k == FirstValidEntry(dim, before, turn, entries);
      if turn == FOX_FIELD {
        players[dim / 2] := positions.1;
      } else {
        var i := 0;
        while i < dim / 2
          invariant 0 <= i <= dim / 2
          invariant players[..] == before
          invariant forall j :: 0 <= j < i ==> before[j] != positions.0
        {
          if players[i] == positions.0 {
            assert FirstIndex(before, dim / 2, positions.0) == i;
            players[i] := positions.1;
            break;
          }
          i := i + 1;
        }
      }
      turn := SwapPlayers(turn);
      return true, positions;
    }

    /** The save choice: what saveGame writes for the current array and turn. */
    method Save() returns (r: Result<string>)
      requires Valid()
      ensures r == SaveGame(players[..], turn)
    {
      r := SaveGame(players[..], turn);
    }

    /** The load choice: '#' keeps the turn; any other result becomes the turn. */
    method Load(lines: seq<string>) returns (r: Result<char>)
      requires Valid() && LoadReadable(lines)
      modifies this, players
      ensures Valid() && validity == old(validity)
      ensures r == if players.Length == RECORD_PIECES then Ok(LoadResult(lines)) else Err(IllegalArgument)
      ensures (r.Err? || r.value == '#') ==> turn == old(turn) && players[..] == old(players[..])
      ensures r.Ok? && r.value != '#' ==> turn == r.value && players[..] == LoadedPositions(lines)
    {
      r := LoadGame(players, lines);
      if r.Ok? {
        var figure := r.value;
        if figure == '#' {
        } else {
          turn := figure;
        }
      }
    }
  }
}
