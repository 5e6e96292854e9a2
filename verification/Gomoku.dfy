/** The board of a room and the win check around the last stone, proved against a scan of the whole board. */
module Gomoku {

  const WHITE_CHESS := 1
  const BLACK_CHESS := 2

  type Board = seq<seq<int>>

  predicate Square(b: Board) {
    forall r :: 0 <= r < |b| ==> |b[r]| == |b|
  }

  predicate OnBoard(b: Board, r: int, c: int) {
    0 <= r < |b| && 0 <= c < |b|
  }

  function EmptyBoard(n: nat): (b: Board)
    ensures Square(b) && |b| == n && forall r, c :: At(b, r, c) <= 0
  {
    seq(n, _ => seq(n, _ => 0))
  }

  /** The stone at (r, c): 0 for an empty cell and -1 off the board. */
  function At(b: Board, r: int, c: int): int
    requires Square(b)
  {
    if OnBoard(b, r, c) then b[r][c] else -1
  }

  function Placed(b: Board, x: int, y: int, stone: int): (b': Board)
    requires Square(b) && OnBoard(b, x, y)
    ensures Square(b') && |b'| == |b|
    ensures forall r, c :: At(b', r, c) == if r == x && c == y then stone else At(b, r, c)
  {
    b[x := b[x][y := stone]]
  }

  predicate Chess(color: int) {
    color == WHITE_CHESS || color == BLACK_CHESS
  }

  predicate Direction(dr: int, dc: int) {
    -1 <= dr <= 1 && -1 <= dc <= 1 && (dr != 0 || dc != 0)
  }

  // ---------------------------------------------------------------- what a win is

  /** A maximal run of exactly five stones of one colour that starts at (r, c) and goes in direction (dr, dc). */
  predicate FiveFrom(b: Board, r: int, c: int, dr: int, dc: int, color: int)
    requires Square(b)
  {
    && At(b, r - dr, c - dc) != color
    && At(b, r, c) == color
    && At(b, r + dr, c + dc) == color
    && At(b, r + 2 * dr, c + 2 * dc) == color
    && At(b, r + 3 * dr, c + 3 * dc) == color
    && At(b, r + 4 * dr, c + 4 * dc) == color
    && At(b, r + 5 * dr, c + 5 * dc) != color
  }

  /** Such a run in direction (dr, dc) that contains the cell (x, y). */
  predicate FiveThrough(b: Board, x: int, y: int, dr: int, dc: int, color: int)
    requires Square(b)
  {
    || FiveFrom(b, x, y, dr, dc, color)
    || FiveFrom(b, x - dr, y - dc, dr, dc, color)
    || FiveFrom(b, x - 2 * dr, y - 2 * dc, dr, dc, color)
    || FiveFrom(b, x - 3 * dr, y - 3 * dc, dr, dc, color)
    || FiveFrom(b, x - 4 * dr, y - 4 * dc, dr, dc, color)
  }

  ghost predicate WinThrough(b: Board, x: int, y: int, color: int)
    requires Square(b)
  {
    exists dr, dc :: Direction(dr, dc) && FiveThrough(b, x, y, dr, dc, color)
  }

  /** The scan: some cell starts a maximal run of exactly five, in any of the eight directions, of either colour. */
  ghost predicate HasFive(b: Board)
    requires Square(b)
  {
    exists r, c, dr, dc, color :: Direction(dr, dc) && Chess(color) && FiveFrom(b, r, c, dr, dc, color)
  }

  lemma AtCell(b: Board, x: int, y: int)
    requires Square(b) && OnBoard(b, x, y)
    ensures At(b, x, y) == b[x][y]
  {
  }

  /** A run read from its other end is the same run. */
  lemma FiveThroughReversed(b: Board, x: int, y: int, dr: int, dc: int, color: int)
    requires Square(b)
    ensures FiveThrough(b, x, y, dr, dc, color) <==> FiveThrough(b, x, y, -dr, -dc, color)
  {
    hide At;
    forall r, c ensures FiveFrom(b, r, c, dr, dc, color) <==> FiveFrom(b, r + 4 * dr, c + 4 * dc, -dr, -dc, color) {
    }
    hide FiveFrom;
  }

  // ---------------------------------------------------------------- counting one arm

  /** A bound on the steps left before (r, c) runs off the board. */
  function Room(b: Board, r: int, c: int, dr: int, dc: int): nat {
    if !OnBoard(b, r, c) then 0
    else if dr > 0 then |b| - r
    else if dr < 0 then r + 1
    else if dc > 0 then |b| - c
    else c + 1
  }

  /** The number of consecutive stones of `color` from (r, c) on. */
  function Arm(b: Board, r: int, c: int, dr: int, dc: int, color: int): nat
    requires Square(b) && (dr != 0 || dc != 0)
    decreases Room(b, r, c, dr, dc)
  {
    if OnBoard(b, r, c) && b[r][c] == color then 1 + Arm(b, r + dr, c + dc, dr, dc, color) else 0
  }

  /** One step along an arm, as the loops of the check take it. */
  lemma ArmStep(b: Board, r: int, c: int, dr: int, dc: int, color: int)
    requires Square(b) && (dr != 0 || dc != 0)
    ensures OnBoard(b, r, c) && b[r][c] == color ==>
              Arm(b, r, c, dr, dc, color) == 1 + Arm(b, r + dr, c + dc, dr, dc, color)
    ensures !(OnBoard(b, r, c) && b[r][c] == color) ==> Arm(b, r, c, dr, dc, color) == 0
    ensures OnBoard(b, r, c) ==> Room(b, r + dr, c + dc, dr, dc) < Room(b, r, c, dr, dc)
  {
  }

  lemma ArmUpToFour(b: Board, x: int, y: int, dr: int, dc: int, color: int)
    requires Square(b) && (dr != 0 || dc != 0) && Chess(color)
    ensures var a := Arm(b, x + dr, y + dc, dr, dc, color);
            var c1, c2 := At(b, x + dr, y + dc) == color, At(b, x + 2 * dr, y + 2 * dc) == color;
            var c3, c4 := At(b, x + 3 * dr, y + 3 * dc) == color, At(b, x + 4 * dr, y + 4 * dc) == color;
            var c5 := At(b, x + 5 * dr, y + 5 * dc) == color;
            && (a == 0 <==> !c1)
            && (a == 1 <==> c1 && !c2)
            && (a == 2 <==> c1 && c2 && !c3)
            && (a == 3 <==> c1 && c2 && c3 && !c4)
            && (a == 4 <==> c1 && c2 && c3 && c4 && !c5)
  {
    var a2 := Arm(b, x + dr + dr, y + dc + dc, dr, dc, color);
    var a3 := Arm(b, x + 2 * dr + dr, y + 2 * dc + dc, dr, dc, color);
    var a4 := Arm(b, x + 3 * dr + dr, y + 3 * dc + dc, dr, dc, color);
    var a5 := Arm(b, x + 4 * dr + dr, y + 4 * dc + dc, dr, dc, color);
  }

  /** The two arms and the stone between them make five exactly when a maximal five runs through it. */
  lemma CountIsFiveThrough(b: Board, x: int, y: int, dr: int, dc: int, color: int)
    requires Square(b) && (dr != 0 || dc != 0) && Chess(color) && At(b, x, y) == color
    ensures 1 + Arm(b, x + dr, y + dc, dr, dc, color) + Arm(b, x - dr, y - dc, -dr, -dc, color) == 5
       <==> FiveThrough(b, x, y, dr, dc, color)
  {
    hide At, Arm;
    ArmUpToFour(b, x, y, dr, dc, color);
    ArmUpToFour(b, x, y, -dr, -dc, color);
  }

  // ---------------------------------------------------------------- the last stone decides

  /** Is (x, y) one of the five cells of the run that starts at (r, c)? */
  predicate InRun(r: int, c: int, dr: int, dc: int, x: int, y: int) {
    || (r == x && c == y)
    || (r + dr == x && c + dc == y)
    || (r + 2 * dr == x && c + 2 * dc == y)
    || (r + 3 * dr == x && c + 3 * dc == y)
    || (r + 4 * dr == x && c + 4 * dc == y)
  }

  lemma RunContainingCellGoesThroughIt(b: Board, x: int, y: int, r: int, c: int, dr: int, dc: int, color: int)
    requires Square(b) && FiveFrom(b, r, c, dr, dc, color) && InRun(r, c, dr, dc, x, y)
    ensures FiveThrough(b, x, y, dr, dc, color)
  {
    hide FiveFrom;
    if      (r == x && c == y)                   { assert FiveFrom(b, x, y, dr, dc, color); }
    else if (r + dr == x && c + dc == y)         { assert FiveFrom(b, x - dr, y - dc, dr, dc, color); }
    else if (r + 2 * dr == x && c + 2 * dc == y) { assert FiveFrom(b, x - 2 * dr, y - 2 * dc, dr, dc, color); }
    else if (r + 3 * dr == x && c + 3 * dc == y) { assert FiveFrom(b, x - 3 * dr, y - 3 * dc, dr, dc, color); }
    else                                         { assert FiveFrom(b, x - 4 * dr, y - 4 * dc, dr, dc, color); }
  }

  /** A five elsewhere on the new board was already one before the stone went on the empty cell (x, y). */
  lemma FiveElsewhereWasThere(b: Board, x: int, y: int, stone: int, r: int, c: int, dr: int, dc: int, color: int)
    requires Square(b) && OnBoard(b, x, y) && b[x][y] == 0 && Chess(color)
    requires FiveFrom(Placed(b, x, y, stone), r, c, dr, dc, color) && !InRun(r, c, dr, dc, x, y)
    ensures FiveFrom(b, r, c, dr, dc, color)
  {
    assert At(b, x, y) == 0;
    hide At, Placed;
  }

  /** Any five on the new board that was not on the old one runs through the stone just placed on an empty cell. */
  lemma NewFiveRunsThroughStone(b: Board, x: int, y: int, stone: int, r: int, c: int, dr: int, dc: int, color: int)
    requires Square(b) && OnBoard(b, x, y) && b[x][y] == 0 && Chess(stone) && Chess(color)
    requires FiveFrom(Placed(b, x, y, stone), r, c, dr, dc, color)
    ensures FiveFrom(b, r, c, dr, dc, color)
         || (color == stone && FiveThrough(Placed(b, x, y, stone), x, y, dr, dc, color))
  {
    var b' := Placed(b, x, y, stone);
    if InRun(r, c, dr, dc, x, y) {
      assert color == stone by {
        assert At(b', x, y) == stone;
        hide At;
      }
      RunContainingCellGoesThroughIt(b', x, y, r, c, dr, dc, color);
    } else {
      FiveElsewhereWasThere(b, x, y, stone, r, c, dr, dc, color);
    }
  }

  /** On a board without a five, a stone on an empty cell wins exactly when a scan of the new board finds a five. */
  lemma LastStoneDecides(b: Board, x: int, y: int, stone: int)
    requires Square(b) && OnBoard(b, x, y) && b[x][y] == 0 && Chess(stone) && !HasFive(b)
    ensures WinThrough(Placed(b, x, y, stone), x, y, stone) <==> HasFive(Placed(b, x, y, stone))
  {
    var b' := Placed(b, x, y, stone);
    if HasFive(b') {
      var r, c, dr, dc, color :| Direction(dr, dc) && Chess(color) && FiveFrom(b', r, c, dr, dc, color);
      NewFiveRunsThroughStone(b, x, y, stone, r, c, dr, dc, color);
    }
  }

  lemma EmptyBoardHasNoFive(n: nat)
    ensures !HasFive(EmptyBoard(n))
  {
  }

  // ---------------------------------------------------------------- whole games

  datatype Move = Move(x: int, y: int, stone: int)

  /** Every move puts a stone on a cell that is empty when it is made. */
  predicate Playable(b: Board, moves: seq<Move>)
    requires Square(b)
    decreases |moves|
  {
    moves == [] ||
    var m := moves[0];
    && OnBoard(b, m.x, m.y) && b[m.x][m.y] == 0 && Chess(m.stone)
    && Playable(Placed(b, m.x, m.y, m.stone), moves[1..])
  }

  function After(b: Board, moves: seq<Move>): (b': Board)
    requires Square(b) && Playable(b, moves)
    ensures Square(b')
    decreases |moves|
  {
    if moves == [] then b else After(Placed(b, moves[0].x, moves[0].y, moves[0].stone), moves[1..])
  }

  /** No move of the game so far was reported as a win. */
  ghost predicate Undecided(b: Board, moves: seq<Move>)
    requires Square(b) && Playable(b, moves)
    decreases |moves|
  {
    moves == [] ||
    var m := moves[0];
    var b' := Placed(b, m.x, m.y, m.stone);
    !WinThrough(b', m.x, m.y, m.stone) && Undecided(b', moves[1..])
  }

  /** While no move has been reported as a win, no five has appeared anywhere on the board. */
  lemma {:induction false} UndecidedMeansNoFive(b: Board, moves: seq<Move>)
    requires Square(b) && !HasFive(b) && Playable(b, moves) && Undecided(b, moves)
    ensures !HasFive(After(b, moves))
    decreases |moves|
  {
    hide WinThrough, HasFive;
    if moves != [] {
      LastStoneDecides(b, moves[0].x, moves[0].y, moves[0].stone);
      UndecidedMeansNoFive(Placed(b, moves[0].x, moves[0].y, moves[0].stone), moves[1..]);
    }
  }

  /** In a game from the empty board with no win reported so far, the next stone on an empty cell is
      reported as a win exactly when the board then has a five somewhere, of either colour. */
  lemma FirstReportedWinIsFirstFive(n: nat, moves: seq<Move>, next: Move)
    requires Playable(EmptyBoard(n), moves) && Undecided(EmptyBoard(n), moves)
    requires Playable(After(EmptyBoard(n), moves), [next])
    ensures var b' := Placed(After(EmptyBoard(n), moves), next.x, next.y, next.stone);
            WinThrough(b', next.x, next.y, next.stone) <==> HasFive(b')
  {
    EmptyBoardHasNoFive(n);
    UndecidedMeansNoFive(EmptyBoard(n), moves);
    LastStoneDecides(After(EmptyBoard(n), moves), next.x, next.y, next.stone);
  }

  // ---------------------------------------------------------------- stones on occupied cells

  /** On some line through (x, y) four stones of this colour adjoin the cell, on its two sides together. */
  ghost predicate Completes(b: Board, x: int, y: int, stone: int)
    requires Square(b)
  {
    exists dr, dc ::
      Direction(dr, dc) && Arm(b, x + dr, y + dc, dr, dc, stone) + Arm(b, x - dr, y - dc, -dr, -dc, stone) == 4
  }

  /** Going on from (r, c) in direction (dr, dc) leads away from (x, y). */
  predicate LeadsAway(x: int, y: int, r: int, c: int, dr: int, dc: int) {
    if dr > 0 then x < r else if dr < 0 then r < x else if dc > 0 then y < c else c < y
  }

  lemma {:induction false} ArmLeadingAway(b: Board, x: int, y: int, stone: int, r: int, c: int, dr: int, dc: int,
                                          color: int)
    requires Square(b) && OnBoard(b, x, y) && (dr != 0 || dc != 0) && LeadsAway(x, y, r, c, dr, dc)
    ensures Arm(Placed(b, x, y, stone), r, c, dr, dc, color) == Arm(b, r, c, dr, dc, color)
    decreases Room(b, r, c, dr, dc)
  {
    var b' := Placed(b, x, y, stone);
    assert At(b', r, c) == At(b, r, c);
    if OnBoard(b, r, c) && b[r][c] == color {
      ArmStep(b, r, c, dr, dc, color);
      ArmLeadingAway(b, x, y, stone, r + dr, c + dc, dr, dc, color);
    }
  }

  /** Whether a stone wins can be read off the board before it is placed, whatever the cell holds. */
  lemma StoneWinsIff(b: Board, x: int, y: int, stone: int)
    requires Square(b) && OnBoard(b, x, y) && Chess(stone)
    ensures WinThrough(Placed(b, x, y, stone), x, y, stone) <==> Completes(b, x, y, stone)
  {
    hide At, Placed, Arm, FiveThrough;
    forall dr, dc | Direction(dr, dc)
      ensures FiveThrough(Placed(b, x, y, stone), x, y, dr, dc, stone) <==>
                Arm(b, x + dr, y + dc, dr, dc, stone) + Arm(b, x - dr, y - dc, -dr, -dc, stone) == 4
    {
      StoneWinsAlong(b, x, y, stone, dr, dc);
    }
  }

  lemma StoneWinsAlong(b: Board, x: int, y: int, stone: int, dr: int, dc: int)
    requires Square(b) && OnBoard(b, x, y) && Chess(stone) && Direction(dr, dc)
    ensures FiveThrough(Placed(b, x, y, stone), x, y, dr, dc, stone) <==>
              Arm(b, x + dr, y + dc, dr, dc, stone) + Arm(b, x - dr, y - dc, -dr, -dc, stone) == 4
  {
    hide At, Arm, FiveThrough;
    ArmLeadingAway(b, x, y, stone, x + dr, y + dc, dr, dc, stone);
    ArmLeadingAway(b, x, y, stone, x - dr, y - dc, -dr, -dc, stone);
    CountIsFiveThrough(Placed(b, x, y, stone), x, y, dr, dc, stone);
  }

  /** The stone about to be overwritten is the opponent's and ends a run of it: past it lie exactly five more. */
  ghost predicate Exposes(b: Board, x: int, y: int, stone: int)
    requires Square(b) && OnBoard(b, x, y)
  {
    var other := b[x][y];
    Chess(other) && other != stone && exists dr, dc :: Direction(dr, dc) && Arm(b, x + dr, y + dc, dr, dc, other) == 5
  }

  lemma ArmOfFive(b: Board, x: int, y: int, dr: int, dc: int, color: int)
    requires Square(b) && (dr != 0 || dc != 0) && Chess(color)
    ensures Arm(b, x + dr, y + dc, dr, dc, color) == 5
       <==> && At(b, x + dr, y + dc) == color && At(b, x + 2 * dr, y + 2 * dc) == color
            && At(b, x + 3 * dr, y + 3 * dc) == color && At(b, x + 4 * dr, y + 4 * dc) == color
            && At(b, x + 5 * dr, y + 5 * dc) == color && At(b, x + 6 * dr, y + 6 * dc) != color
  {
    ArmUpToFour(b, x + dr, y + dc, dr, dc, color);
    AtIsArm(b, x + dr, y + dc, dr, dc, color);
    hide Arm, At;
    assert x + dr + dr == x + 2 * dr && x + dr + 2 * dr == x + 3 * dr && x + dr + 3 * dr == x + 4 * dr;
    assert x + dr + 4 * dr == x + 5 * dr && x + dr + 5 * dr == x + 6 * dr;
  }

  lemma AtIsArm(b: Board, r: int, c: int, dr: int, dc: int, color: int)
    requires Square(b) && (dr != 0 || dc != 0) && Chess(color)
    ensures Arm(b, r, c, dr, dc, color) == if At(b, r, c) == color then 1 + Arm(b, r + dr, c + dc, dr, dc, color) else 0
  {
  }

  /** Taking away the end of such a run leaves a five that does not contain the new stone. */
  lemma ExposedFive(b: Board, x: int, y: int, stone: int, dr: int, dc: int)
    requires Square(b) && OnBoard(b, x, y) && Chess(stone) && Chess(b[x][y]) && b[x][y] != stone
    requires Direction(dr, dc) && Arm(b, x + dr, y + dc, dr, dc, b[x][y]) == 5
    ensures FiveFrom(Placed(b, x, y, stone), x + dr, y + dc, dr, dc, b[x][y])
  {
    hide At, Arm, Placed;
    var other := b[x][y];
    ArmOfFive(b, x, y, dr, dc, other);
    var b', r, c := Placed(b, x, y, stone), x + dr, y + dc;
    assert At(b', r - dr, c - dc) == stone;
    assert r + dr == x + 2 * dr && c + dc == y + 2 * dc && r + 2 * dr == x + 3 * dr && c + 2 * dc == y + 3 * dc;
    assert r + 3 * dr == x + 4 * dr && c + 3 * dc == y + 4 * dc && r + 4 * dr == x + 5 * dr && c + 4 * dc == y + 5 * dc;
    assert r + 5 * dr == x + 6 * dr && c + 5 * dc == y + 6 * dc;
  }

  /** A five of the new board that was not there before runs through the new stone or was exposed by it. */
  lemma NewFiveIsThroughOrExposed(b: Board, x: int, y: int, stone: int, r: int, c: int, dr: int, dc: int, color: int)
    requires Square(b) && OnBoard(b, x, y) && Chess(stone) && Chess(color) && Direction(dr, dc)
    requires FiveFrom(Placed(b, x, y, stone), r, c, dr, dc, color) && !FiveFrom(b, r, c, dr, dc, color)
    ensures || (color == stone && FiveThrough(Placed(b, x, y, stone), x, y, dr, dc, color))
            || Exposes(b, x, y, stone)
  {
    hide At, Arm, FiveThrough, Placed;
    var b' := Placed(b, x, y, stone);
    if InRun(r, c, dr, dc, x, y) {
      assert At(b', x, y) == stone;
      RunContainingCellGoesThroughIt(b', x, y, r, c, dr, dc, color);
    } else {
      EndOfRunWasOverwritten(b, x, y, stone, r, c, dr, dc, color);
      if x == r - dr && y == c - dc {
        ArmOfFive(b, x, y, dr, dc, color);
      } else {
        ArmOfFive(b, x, y, -dr, -dc, color);
        assert Direction(-dr, -dc) && Arm(b, x + -dr, y + -dc, -dr, -dc, color) == 5;
      }
    }
  }

  lemma EndOfRunWasOverwritten(b: Board, x: int, y: int, stone: int, r: int, c: int, dr: int, dc: int, color: int)
    requires Square(b) && OnBoard(b, x, y) && Chess(stone) && Chess(color) && Direction(dr, dc)
    requires FiveFrom(Placed(b, x, y, stone), r, c, dr, dc, color) && !FiveFrom(b, r, c, dr, dc, color)
    requires !InRun(r, c, dr, dc, x, y)
    ensures b[x][y] == color != stone
    ensures if x == r - dr && y == c - dc
            then && At(b, x + dr, y + dc) == color && At(b, x + 2 * dr, y + 2 * dc) == color
                 && At(b, x + 3 * dr, y + 3 * dc) == color && At(b, x + 4 * dr, y + 4 * dc) == color
                 && At(b, x + 5 * dr, y + 5 * dc) == color && At(b, x + 6 * dr, y + 6 * dc) != color
            else && At(b, x - dr, y - dc) == color && At(b, x - 2 * dr, y - 2 * dc) == color
                 && At(b, x - 3 * dr, y - 3 * dc) == color && At(b, x - 4 * dr, y - 4 * dc) == color
                 && At(b, x - 5 * dr, y - 5 * dc) == color && At(b, x - 6 * dr, y - 6 * dc) != color
  {
    AtCell(b, x, y);
    hide At, Placed;
    assert (x == r - dr && y == c - dc) || (x == r + 5 * dr && y == c + 5 * dc);
  }

  /** Nothing stops a stone from going on an occupied cell. On a board without a five, whatever the cell holds, the
      check around the new stone is as good as the scan exactly when four stones of its colour adjoin the cell or the
      stone it covers does not end a run of the opponent's with exactly five more: such a five does not contain the new
      stone. */
  lemma OverwriteCheckIff(b: Board, x: int, y: int, stone: int)
    requires Square(b) && OnBoard(b, x, y) && Chess(stone) && !HasFive(b)
    ensures var b' := Placed(b, x, y, stone);
            (WinThrough(b', x, y, stone) <==> HasFive(b')) <==> Completes(b, x, y, stone) || !Exposes(b, x, y, stone)
  {
    var b' := Placed(b, x, y, stone);
    StoneWinsIff(b, x, y, stone);
    hide At, Arm, Placed, FiveFrom, Completes;
    if HasFive(b') && !WinThrough(b', x, y, stone) {
      var r, c, dr, dc, color :| Direction(dr, dc) && Chess(color) && FiveFrom(b', r, c, dr, dc, color);
      NewFiveIsThroughOrExposed(b, x, y, stone, r, c, dr, dc, color);
    }
    if Exposes(b, x, y, stone) {
      var dr, dc :| Direction(dr, dc) && Arm(b, x + dr, y + dc, dr, dc, b[x][y]) == 5;
      ExposedFive(b, x, y, stone, dr, dc);
    }
  }

  // ---------------------------------------------------------------- a game in which a win goes unnoticed

  /** Six white stones in the first row, the gap at the fourth cell closed last. */
  const SIX_MOVES: seq<Move> := [Move(0, 0, 1), Move(0, 1, 1), Move(0, 2, 1), Move(0, 4, 1), Move(0, 5, 1),
                                 Move(0, 3, 1)]

  /** The stones of the board are white ones in the cells `cols` of the first row. */
  ghost predicate RowOf(b: Board, cols: set<int>)
    requires Square(b)
  {
    && |b| >= 6 && cols <= {0, 1, 2, 3, 4, 5}
    && forall r, c :: At(b, r, c) == if r == 0 && c in cols then WHITE_CHESS else if OnBoard(b, r, c) then 0 else -1
  }

  lemma RowHasNoFive(b: Board, cols: set<int>)
    requires Square(b) && RowOf(b, cols) && (3 !in cols || cols == {0, 1, 2, 3, 4, 5})
    ensures !HasFive(b)
  {
    forall r, c, dr, dc, color | Direction(dr, dc) && Chess(color) ensures !FiveFrom(b, r, c, dr, dc, color) {
      hide At;
      assert color == WHITE_CHESS && At(b, r, c) == At(b, r + dr, c + dc) == WHITE_CHESS ==> dr == 0;
    }
  }

  /** One more stone of that row: it is legal, keeps the shape and is not reported as a win. */
  lemma NextOfSix(b: Board, cols: set<int>, col: int, moves: seq<Move>)
    requires Square(b) && RowOf(b, cols) && 0 <= col < 6 && col !in cols
             && (3 !in cols + {col} || cols + {col} == {0, 1, 2, 3, 4, 5})
    requires 3 !in cols && moves != [] && moves[0] == Move(0, col, 1)
    ensures var b' := Placed(b, 0, col, 1);
            && RowOf(b', cols + {col})
            && (Playable(b', moves[1..]) ==> Playable(b, moves) && After(b, moves) == After(b', moves[1..]))
            && (Playable(b', moves[1..]) && Undecided(b', moves[1..]) ==> Undecided(b, moves))
  {
    AtCell(b, 0, col);
    RowHasNoFive(b, cols);
    RowHasNoFive(Placed(b, 0, col, 1), cols + {col});
    LastStoneDecides(b, 0, col, 1);
    hide WinThrough, HasFive;
  }

  lemma SixStones(n: nat) returns (b: Board)
    requires n >= 6
    ensures Playable(EmptyBoard(n), SIX_MOVES) && Undecided(EmptyBoard(n), SIX_MOVES)
    ensures b == After(EmptyBoard(n), SIX_MOVES) && RowOf(b, {0, 1, 2, 3, 4, 5})
  {
    hide Placed, At, WinThrough, HasFive;
    var b0 := EmptyBoard(n);
    EmptyRow(n);
    var b1 := Placed(b0, 0, 0, 1);
    var b2 := Placed(b1, 0, 1, 1);
    var b3 := Placed(b2, 0, 2, 1);
    var b4 := Placed(b3, 0, 4, 1);
    var b5 := Placed(b4, 0, 5, 1);
    b := Placed(b5, 0, 3, 1);
    NextOfSix(b0, {}, 0, SIX_MOVES);
    NextOfSix(b1, {0}, 1, SIX_MOVES[1..]);
    NextOfSix(b2, {0, 1}, 2, SIX_MOVES[2..]);
    NextOfSix(b3, {0, 1, 2}, 4, SIX_MOVES[3..]);
    NextOfSix(b4, {0, 1, 2, 4}, 5, SIX_MOVES[4..]);
    NextOfSix(b5, {0, 1, 2, 4, 5}, 3, SIX_MOVES[5..]);
    assert SIX_MOVES[6..] == [];
  }

  lemma EmptyRow(n: nat)
    requires n >= 6
    ensures RowOf(EmptyBoard(n), {})
  {
  }

  /** On every board large enough it happens in play: six white stones in a row, the last one in the gap, are never
      reported; a black stone on the end of them leaves a white five, and that is not reported either. */
  lemma MissedWinIsReachable(n: nat)
    requires n >= 6
    ensures Playable(EmptyBoard(n), SIX_MOVES) && Undecided(EmptyBoard(n), SIX_MOVES)
    ensures var b := After(EmptyBoard(n), SIX_MOVES);
            && OnBoard(b, 0, 5) && !HasFive(b) && Exposes(b, 0, 5, BLACK_CHESS)
            && !WinThrough(Placed(b, 0, 5, BLACK_CHESS), 0, 5, BLACK_CHESS)
            && HasFive(Placed(b, 0, 5, BLACK_CHESS))
  {
    var b := SixStones(n);
    hide Playable, Undecided, After;
    AtCell(b, 0, 5);
    RowHasNoFive(b, {0, 1, 2, 3, 4, 5});
    ArmOfFive(b, 0, 5, 0, -1, WHITE_CHESS);
    LoneStoneDoesNotWin(b, 0, 5, BLACK_CHESS);
    StoneWinsIff(b, 0, 5, BLACK_CHESS);
    hide Completes, At, Placed, Arm, FiveFrom, FiveThrough, WinThrough, HasFive;
    assert b[0][5] == WHITE_CHESS && Direction(0, -1) && Arm(b, 0 + 0, 5 + -1, 0, -1, WHITE_CHESS) == 5;
    OverwriteCheckIff(b, 0, 5, BLACK_CHESS);
  }

  lemma LoneStoneDoesNotWin(b: Board, x: int, y: int, stone: int)
    requires Square(b) && OnBoard(b, x, y) && Chess(stone) && forall r, c :: At(b, r, c) != stone
    ensures !WinThrough(Placed(b, x, y, stone), x, y, stone)
  {
    hide At, Placed;
  }

  // ---------------------------------------------------------------- the room's board

  class GameRoomInfo {
    const roomId: nat
    const whiteId: nat
    const blackId: nat
    var roomCount: nat // players who have not left, a 32-bit number
    var board: Board

    ghost predicate Valid()
      reads this`board
    {
      Square(board)
    }

    /** The source never sets the count; the room is meant to start with its two players. */
    constructor (n: nat, roomId: nat, whiteId: nat, blackId: nat)
      ensures Valid() && board == EmptyBoard(n) && roomCount == 2
      ensures this.roomId == roomId && this.whiteId == whiteId && this.blackId == blackId
    {
      this.roomId, this.whiteId, this.blackId := roomId, whiteId, blackId;
      roomCount := 2;
      board := seq(n, _ => seq(n, _ => 0));
    }

    method SubCount()
      modifies this`roomCount
      ensures roomCount == (old(roomCount) - 1) % 0x1_0000_0000
    {
      roomCount := (roomCount - 1) % 0x1_0000_0000;
    }

    /** The other one of two players; white for an id that is neither. */
    method GetOtherId(id: nat) returns (other: nat)
      ensures id == whiteId ==> other == blackId
      ensures id != whiteId ==> other == whiteId
    {
      other := if id == whiteId then blackId else whiteId;
    }

    /** A cell may be played exactly when it is on the board and empty. */
    method IsValidPosition(x: int, y: int) returns (ok: bool)
      requires Valid()
      ensures ok <==> At(board, x, y) == 0
    {
      if x < 0 || x >= |board| || y < 0 || y >= |board| {
        return false;
      }
      if board[x][y] != 0 {
        return false;
      }
      return true;
    }

    /** The loop that `five` runs twice: walks from (r, c) and adds the stones of `color` it meets to `count`. */
    method CountAlong(start: int, row: int, col: int, dr: int, dc: int, color: int) returns (count: int)
      requires Valid() && (dr != 0 || dc != 0)
      ensures count == start + Arm(board, row, col, dr, dc, color)
    {
      hide Room, Arm;
      count := start;
      var r, c := row, col;
      while r >= 0 && r < |board| && c >= 0 && c < |board|
        invariant count + Arm(board, r, c, dr, dc, color) == start + Arm(board, row, col, dr, dc, color)
        decreases Room(board, r, c, dr, dc)
      {
        ArmStep(board, r, c, dr, dc, color);
        if board[r][c] == color {
          count := count + 1;
          r, c := r + dr, c + dc;
        } else {
          break;
        }
      }
      ArmStep(board, r, c, dr, dc, color);
    }

    /** Exactly when a maximal run of five goes through (row, col) in this direction or its reverse. */
    method Five(row: int, col: int, dr: int, dc: int, color: int) returns (won: bool)
      requires Valid() && OnBoard(board, row, col) && Direction(dr, dc)
      requires Chess(color) && board[row][col] == color
      ensures won <==> FiveThrough(board, row, col, dr, dc, color)
      ensures won <==> FiveThrough(board, row, col, -dr, -dc, color)
    {
      hide At, Arm, FiveThrough;
      AtCell(board, row, col);
      var count := CountAlong(1, row + dr, col + dc, dr, dc, color);
      count := CountAlong(count, row - dr, col - dc, -dr, -dc, color);
      CountIsFiveThrough(board, row, col, dr, dc, color);
      FiveThroughReversed(board, row, col, dr, dc, color);
      return count == 5;
    }

    method CheckWin(x: int, y: int, color: int) returns (won: bool)
      requires Valid() && OnBoard(board, x, y) && Chess(color) && board[x][y] == color
      ensures won <==> WinThrough(board, x, y, color)
    {
      hide FiveThrough;
      var vertical := Five(x, y, 1, 0, color);
      if vertical { return true; }
      var horizontal := Five(x, y, 0, 1, color);
      if horizontal { return true; }
      var diagonal := Five(x, y, -1, -1, color);
      if diagonal { return true; }
      won := Five(x, y, -1, 1, color);
      if WinThrough(board, x, y, color) {
        ghost var dr, dc :| Direction(dr, dc) && FiveThrough(board, x, y, dr, dc, color);
        assert won || dr == 0 || dr == 1 || dr == -1;
      }
    }

    /** The stone of the user goes on the board; the answer is a win exactly when a maximal five runs through it,
        and on a board without a five and an empty cell exactly when the whole board now has one. */
    method HandleChess(x: int, y: int, userId: int) returns (won: bool)
      requires Valid() && OnBoard(board, x, y)
      modifies this`board
      ensures Valid()
      ensures var stone := if userId == whiteId then WHITE_CHESS else BLACK_CHESS;
              && board == Placed(old(board), x, y, stone)
              && (won <==> WinThrough(board, x, y, stone))
              && (won <==> Completes(old(board), x, y, stone))
      ensures !HasFive(old(board)) ==>
                var stone := if userId == whiteId then WHITE_CHESS else BLACK_CHESS;
                (won <==> HasFive(board)) <==> won || !Exposes(old(board), x, y, stone)
    {
      var chess := 0;
      if userId == whiteId {
        chess := WHITE_CHESS;
      } else {
        chess := BLACK_CHESS;
      }
      StoneWinsIff(board, x, y, chess);
      if !HasFive(board) {
        OverwriteCheckIff(board, x, y, chess);
      }
      board := board[x := board[x][y := chess]];
      won := CheckWin(x, y, chess);
    }
  }
}
