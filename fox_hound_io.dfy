/**
 * FoxHoundIO: the save record `turn pos1 pos2 pos3 pos4 pos5` on one line.
 * A file is modelled as the sequence of its lines; what saveGame writes is
 * returned as a string.
 */
module FoxHoundIO {
  import opened Wrappers
  import opened Text
  import opened FoxHoundUtils

  /** The number of pieces a record holds: loadGame and saveGame fix it at 5, the 8x8 board. */
  const RECORD_PIECES := 5

  /** A first token loadGame accepts. */
  predicate TurnToken(t: string) { t == "F" || t == "H" }

  /**
   * A position token loadGame accepts: its first char in 'A' .. 'H' and its
   * second in '1' .. '8' (the default dimension); nothing after them is read.
   */
  predicate TokenPasses(t: string)
  {
    |t| >= 2 && 65 <= t[0] as int <= 64 + DEFAULT_DIM && 1 <= t[1] as int - 48 <= DEFAULT_DIM
  }

  /** loadGame reads char 0 of a token, and char 1 only when char 0 is in range. */
  predicate TokenReadable(t: string)
  {
    |t| >= 1 && (65 <= t[0] as int <= 64 + DEFAULT_DIM ==> |t| >= 2)
  }

  /**
   * What loadGame may read of a file without an out-of-range index: a single
   * line must split into at least one token and, when the turn and the arity
   * pass, each position token it reaches must be readable.
   */
  predicate LoadReadable(lines: seq<string>)
  {
    |lines| == 1 ==>
      var t := SplitSpaces(lines[0]);
      && |t| >= 1
      && (TurnToken(t[0]) && |t| == 6 ==>
            forall i :: 1 <= i < 6 ==> (forall k :: 1 <= k < i ==> TokenPasses(t[k])) ==> TokenReadable(t[i]))
  }

  /** A split line that loadGame accepts. */
  predicate ValidRecord(t: seq<string>)
  {
    |t| == 6 && TurnToken(t[0]) && forall i :: 1 <= i < 6 ==> TokenPasses(t[i])
  }

  /** The char loadGame returns for a file: the turn of an accepted record, '#' otherwise. */
  function LoadResult(lines: seq<string>): (c: char)
    ensures c == '#' || c == FOX_FIELD || c == HOUND_FIELD
    ensures c != '#' <==> |lines| == 1 && ValidRecord(SplitSpaces(lines[0]))
    ensures c != '#' ==> [c] == SplitSpaces(lines[0])[0]
  {
    if |lines| == 1 && ValidRecord(SplitSpaces(lines[0])) then SplitSpaces(lines[0])[0][0] else '#'
  }

  /** The positions of an accepted record, in file order (hounds first, fox last). */
  function LoadedPositions(lines: seq<string>): (p: seq<string>)
    requires LoadResult(lines) != '#'
    ensures |p| == RECORD_PIECES && forall i :: 0 <= i < RECORD_PIECES ==> TokenPasses(p[i])
  {
    SplitSpaces(lines[0])[1..]
  }

  /**
   * The token checks of loadGame, in its order and with its early returns:
   * the turn token and the arity first, then each position token.
   */
  method CheckRecord(movePositions: seq<string>) returns (accepted: bool)
    requires |movePositions| >= 1
    requires TurnToken(movePositions[0]) && |movePositions| == 6 ==>
      forall i :: 1 <= i < 6 ==> (forall k :: 1 <= k < i ==> TokenPasses(movePositions[k])) ==> TokenReadable(movePositions[i])
    ensures accepted == ValidRecord(movePositions)
  {
    if (movePositions[0] != "F" && movePositions[0] != "H") || |movePositions| != 6 {
      return false;
    }
    var i := 1;
    while i < |movePositions|
      invariant 1 <= i <= 6
      invariant forall k :: 1 <= k < i ==> TokenPasses(movePositions[k])
    {
      var p := movePositions[i];
      if p[0] as int < 65 || p[0] as int > 64 + DEFAULT_DIM || p[1] as int - 48 < 1 || p[1] as int - 48 > DEFAULT_DIM {
        return false;
      }
      i := i + 1;
    }
    return true;
  }

  /**
   * loadGame. An array of other than 5 slots throws. Otherwise the file must
   * have exactly one line, split into exactly 6 tokens, the first "F" or "H",
   * each other token starting with a letter A-H and a digit 1-8; only then
   * are the five slots overwritten in file order and the turn returned. Any
   * rejection returns '#' and leaves the array as it was.
   */
  method LoadGame(players: array<string>, lines: seq<string>) returns (r: Result<char>)
    requires LoadReadable(lines)
    modifies players
    ensures players.Length != RECORD_PIECES ==> r == Err(IllegalArgument)
    ensures players.Length == RECORD_PIECES ==> r == Ok(LoadResult(lines))
    ensures (r.Err? || r.value == '#') ==> players[..] == old(players[..])
    ensures r.Ok? && r.value != '#' ==> players[..] == LoadedPositions(lines)
  {
    if players.Length != RECORD_PIECES {
      return Err(IllegalArgument);
    }
    var counter := 0;
    while counter < |lines|
      invariant 0 <= counter <= |lines|
    {
      counter := counter + 1;
    }
    if counter == 1 {
      var movePositions := SplitSpaces(lines[0]);
      var accepted := CheckRecord(movePositions);
      if !accepted {
        return Ok('#');
      }
      var figure := movePositions[0][0];
      var i := 0;
      while i < players.Length
        invariant 0 <= i <= RECORD_PIECES
        invariant forall k :: 0 <= k < i ==> players[k] == movePositions[k + 1]
      {
        players[i] := movePositions[i + 1];
        i := i + 1;
      }
      assert players[..] == movePositions[1..];
      return Ok(figure);
    }
    return Ok('#');
  }

  /**
   * saveGame without the file: an array of other than 5 slots or a turn
   * other than 'F'/'H' throws before any file work; otherwise the content
   * written is the turn, a space and the positions joined by spaces, with
   * no line break added.
   */
  function SaveGame(players: seq<string>, nextMove: char): (r: Result<string>)
    ensures r.Err? <==> |players| != RECORD_PIECES || (nextMove != FOX_FIELD && nextMove != HOUND_FIELD)
    ensures r.Ok? ==> |r.value| >= 2 && r.value[0] == nextMove && r.value[1] == ' '
  {
    if |players| != RECORD_PIECES then Err(IllegalArgument)
    else if nextMove != FOX_FIELD && nextMove != HOUND_FIELD then Err(IllegalArgument)
    else Ok([nextMove] + " " + JoinSpaces(players))
  }

  /** The characters at which java.util.Scanner ends a line. */
  predicate LineBreak(c: char)
  {
    c == '\n' || c == '\r' || c == '\U{0085}' || c == '\U{2028}' || c == '\U{2029}'
  }

  /** Text that Scanner reads as a single line. */
  predicate OneLine(s: string)
  {
    forall k :: 0 <= k < |s| ==> !LineBreak(s[k])
  }

  /**
   * Positions that survive a save and a load: space-free, free of line
   * breaks, accepted by loadGame's token test.
   */
  predicate Saveable(p: string) { SpaceFree(p) && OneLine(p) && TokenPasses(p) }

  /**
   * Round trip: saveGame writes a single line which, read back by loadGame,
   * gives the same turn and the same five positions.
   */
  lemma SaveThenLoad(players: seq<string>, nextMove: char)
    requires |players| == RECORD_PIECES && (nextMove == FOX_FIELD || nextMove == HOUND_FIELD)
    requires forall i :: 0 <= i < RECORD_PIECES ==> Saveable(players[i])
    ensures SaveGame(players, nextMove).Ok? && OneLine(SaveGame(players, nextMove).value)
    ensures var file := [SaveGame(players, nextMove).value];
      && LoadReadable(file)
      && LoadResult(file) == nextMove
      && LoadedPositions(file) == players
  {
    SaveIsOneLine(players, nextMove);
    var parts := [[nextMove]] + players;
    assert JoinSpaces(parts) == [nextMove] + " " + JoinSpaces(players);
    SplitJoin(parts);
    assert parts[1..] == players;
  }

  /** The saved content is a single line when no position holds a line break. */
  lemma SaveIsOneLine(players: seq<string>, nextMove: char)
    requires SaveGame(players, nextMove).Ok?
    requires forall i :: 0 <= i < |players| ==> OneLine(players[i])
    ensures OneLine(SaveGame(players, nextMove).value)
  {
    var v := SaveGame(players, nextMove).value;
    var joined := JoinSpaces(players);
    assert v == [nextMove] + " " + joined;
    forall k | 2 <= k < |v|
      ensures !LineBreak(v[k])
    {
      var c := v[k];
      assert c == joined[k - 2];
      assert c in joined;
      assert c == ' ' || exists i :: 0 <= i < |players| && c in players[i];
      if c != ' ' {
        var i :| 0 <= i < |players| && c in players[i];
        assert OneLine(players[i]);
      }
    }
  }

  /** Zero lines or more than one line: '#'. */
  lemma LoadNeedsOneLine(lines: seq<string>)
    requires |lines| != 1
    ensures LoadResult(lines) == '#'
  {
  }

  /** A first token other than "F"/"H", or other than 6 tokens: '#'. */
  lemma LoadNeedsTurnAndArity(line: string)
    requires var t := SplitSpaces(line); |t| >= 1 && (!TurnToken(t[0]) || |t| != 6)
    ensures LoadResult([line]) == '#'
  {
  }

  /** Any position token outside 'A'..'H' x '1'..'8' in its first two chars: '#'. */
  lemma LoadNeedsBoardTokens(line: string, i: int)
    requires var t := SplitSpaces(line); 1 <= i < |t| && !TokenPasses(t[i])
    ensures LoadResult([line]) == '#'
  {
  }

  /**
   * A line built by joining space-free, non-empty tokens is judged on those
   * tokens: loadGame accepts it exactly when they form a valid record.
   */
  lemma LoadOfJoin(parts: seq<string>)
    requires |parts| >= 2
    requires forall k :: 0 <= k < |parts| ==> parts[k] != [] && SpaceFree(parts[k])
    ensures SplitSpaces(JoinSpaces(parts)) == parts
    ensures LoadResult([JoinSpaces(parts)]) == if ValidRecord(parts) then parts[0][0] else '#'
  {
    SplitJoin(parts);
  }

  /** Only the first two chars of a position are checked: longer tokens are loaded as they stand. */
  lemma LoadIgnoresTail()
    ensures var parts := ["H", "A1x", "B2", "C3yz", "D4", "H8"];
      LoadResult([JoinSpaces(parts)]) == 'H' && LoadedPositions([JoinSpaces(parts)]) == parts[1..]
  {
    var parts := ["H", "A1x", "B2", "C3yz", "D4", "H8"];
    LoadOfJoin(parts);
    assert ValidRecord(parts);
  }

  /** A line with fewer than 6 tokens, such as a truncated save, is rejected. */
  lemma LoadRejectsShortRecord()
    ensures var parts := ["F", "B1", "D1", "F1", "H1"];
      LoadReadable([JoinSpaces(parts)]) && LoadResult([JoinSpaces(parts)]) == '#'
  {
    var parts := ["F", "B1", "D1", "F1", "H1"];
    LoadOfJoin(parts);
  }
}
