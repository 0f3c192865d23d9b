/**
 * The rules engine of Bagh-Chal on the 5x5 grid of intersections: positions,
 * pieces, the diagonal-parity restriction, move generation (steps and tiger
 * capture jumps) and the ordered win test.
 *
 * Move generation follows the game's loop over eight compass directions,
 * direction by direction, so the order of the generated targets is the
 * game's order. `LegalTarget` is an independent, declarative description of
 * the same set, and `ValidMovesSpec` proves the two agree.
 */
module Rules {
  import opened Options

  const Size: int := 5
  const TotalGoats: int := 20
  const CapturesToWin: int := 5

  const TigersWinText: string := "Tigers Win! 5 goats have been captured."
  const GoatsWinText: string := "Goats Win! All tigers are trapped."

  datatype Side = Tiger | Goat {
    function Other(): Side {
      if this == Tiger then Goat else Tiger
    }
  }

  datatype Position = Position(row: int, col: int)

  datatype Piece = Piece(side: Side, pos: Position)

  /** The part of the game state that the peers exchange: pieces, counters and turn. */
  datatype Board = Board(
    tigers: seq<Piece>,
    goats: seq<Piece>,
    goatsToPlace: int,
    goatsCaptured: int,
    turn: Side)

  function Abs(x: int): nat {
    if x < 0 then -x else x
  }

  /** Evenness by stepping two at a time towards zero. `EvenIsRemainderZero`
      shows it is the remainder test the game's code writes. */
  predicate Even(n: int)
    decreases Abs(n)
  {
    if n == 0 then true
    else if n == 1 || n == -1 then false
    else if n > 0 then Even(n - 2)
    else Even(n + 2)
  }

  /** The game's `(row + col) % 2 === 0`. */
  predicate EvenSum(row: int, col: int) {
    Even(row + col)
  }

  /** `Even` is a zero remainder on division by two. Dafny's `%` is Euclidean
      and JavaScript's truncates, but both give 0 exactly for even numbers, so
      the test agrees with the game's test for every integer. */
  lemma {:induction false} EvenIsRemainderZero(n: int)
    ensures Even(n) <==> n % 2 == 0
    decreases Abs(n)
  {
    if n > 1 {
      EvenIsRemainderZero(n - 2);
    } else if n < -1 {
      EvenIsRemainderZero(n + 2);
    }
  }

  /** A diagonal line joins the two cells: they are diagonal neighbours and both
      have an even coordinate sum. */
  predicate HasDiagonal(row: int, col: int, targetRow: int, targetCol: int) {
    Abs(row - targetRow) == 1 && Abs(col - targetCol) == 1
    && EvenSum(row, col) && EvenSum(targetRow, targetCol)
  }

  predicate IsValidPosition(row: int, col: int) {
    0 <= row < Size && 0 <= col < Size
  }

  predicate OnBoard(p: Position) {
    IsValidPosition(p.row, p.col)
  }

  predicate CanJumpDiagonally(fromRow: int, fromCol: int, midRow: int, midCol: int, toRow: int, toCol: int) {
    HasDiagonal(fromRow, fromCol, midRow, midCol) && HasDiagonal(midRow, midCol, toRow, toCol)
  }

  /** Some piece of `pieces` stands on `p`. */
  predicate PieceAt(p: Position, pieces: seq<Piece>) {
    exists q :: q in pieces && q.pos == p
  }

  predicate IsOccupied(p: Position, tigers: seq<Piece>, goats: seq<Piece>) {
    PieceAt(p, tigers) || PieceAt(p, goats)
  }

  /** The eight compass directions, in the order the game scans them. */
  const Directions: seq<(int, int)> :=
    [(-1, 0), (1, 0), (0, -1), (0, 1), (-1, -1), (-1, 1), (1, -1), (1, 1)]

  /** Row or column moved by two: how the game recognises a capture jump. */
  predicate IsJumpDelta(from: Position, to: Position) {
    Abs(to.row - from.row) == 2 || Abs(to.col - from.col) == 2
  }

  /** The cell between the ends of a jump. Exact when both coordinate sums are
      even, which holds for every jump the generator produces. */
  function Midpoint(from: Position, to: Position): Position {
    Position((from.row + to.row) / 2, (from.col + to.col) / 2)
  }

  /** The targets one direction contributes, past the direction's two guards:
      the neighbour when it is free, then, for a tiger, the cell beyond when the
      jump lands. */
  function DirectionMoves(piece: Piece, tigers: seq<Piece>, goats: seq<Piece>, d: (int, int)): seq<Position> {
    var row := piece.pos.row;
    var col := piece.pos.col;
    var next := Position(row + d.0, col + d.1);
    if !DirectionOpen(piece, d) then []
    else
      var step := if !IsOccupied(next, tigers, goats) then [next] else [];
      var jump := if piece.side == Tiger && JumpLands(piece.pos, tigers, goats, d)
                  then [Position(row + 2 * d.0, col + 2 * d.1)] else [];
      step + jump
  }

  function MovesAlong(piece: Piece, tigers: seq<Piece>, goats: seq<Piece>, dirs: seq<(int, int)>): seq<Position> {
    if |dirs| == 0 then []
    else DirectionMoves(piece, tigers, goats, dirs[0]) + MovesAlong(piece, tigers, goats, dirs[1..])
  }

  /** Every target of `piece`, in the game's order. */
  function ValidMoves(piece: Piece, tigers: seq<Piece>, goats: seq<Piece>): seq<Position> {
    MovesAlong(piece, tigers, goats, Directions)
  }

  // ---------------------------------------------------------------------------
  // Declarative description of a legal target

  /** A single step along a drawn line: orthogonal, or diagonal where a diagonal exists. */
  predicate IsStep(from: Position, to: Position) {
    Abs(to.row - from.row) + Abs(to.col - from.col) == 1
    || HasDiagonal(from.row, from.col, to.row, to.col)
  }

  /** A capture jump for a tiger at `from`: two cells along one of the eight
      directions, over an on-board goat, with both half-segments on drawn lines. */
  predicate IsCapture(from: Position, to: Position, goats: seq<Piece>) {
    var dr := to.row - from.row;
    var dc := to.col - from.col;
    var mid := Midpoint(from, to);
    && (dr == -2 || dr == 0 || dr == 2)
    && (dc == -2 || dc == 0 || dc == 2)
    && (dr != 0 || dc != 0)
    && OnBoard(mid)
    && PieceAt(mid, goats)
    && (dr != 0 && dc != 0 ==> CanJumpDiagonally(from.row, from.col, mid.row, mid.col, to.row, to.col))
  }

  predicate LegalTarget(piece: Piece, to: Position, tigers: seq<Piece>, goats: seq<Piece>) {
    && OnBoard(to)
    && !IsOccupied(to, tigers, goats)
    && (IsStep(piece.pos, to) || (piece.side == Tiger && IsCapture(piece.pos, to, goats)))
  }

  lemma {:induction false} MovesAlongMembership(piece: Piece, tigers: seq<Piece>, goats: seq<Piece>, dirs: seq<(int, int)>, to: Position)
    ensures to in MovesAlong(piece, tigers, goats, dirs)
        <==> exists k :: 0 <= k < |dirs| && to in DirectionMoves(piece, tigers, goats, dirs[k])
  {
    if |dirs| > 0 {
      MovesAlongMembership(piece, tigers, goats, dirs[1..], to);
      if to in MovesAlong(piece, tigers, goats, dirs[1..]) {
        var k :| 0 <= k < |dirs[1..]| && to in DirectionMoves(piece, tigers, goats, dirs[1..][k]);
        assert dirs[1..][k] == dirs[k + 1];
      }
      if exists k :: 0 <= k < |dirs| && to in DirectionMoves(piece, tigers, goats, dirs[k]) {
        var k :| 0 <= k < |dirs| && to in DirectionMoves(piece, tigers, goats, dirs[k]);
        if k > 0 {
          assert dirs[k] == dirs[1..][k - 1];
        }
      }
    }
  }

  /** What one direction contributes, stated without the control flow. */
  lemma DirectionMovesSpec(piece: Piece, tigers: seq<Piece>, goats: seq<Piece>, d: (int, int), to: Position)
    requires d in Directions
    ensures to in DirectionMoves(piece, tigers, goats, d)
        <==> ((to == Position(piece.pos.row + d.0, piece.pos.col + d.1) && LegalTarget(piece, to, tigers, goats) && IsStep(piece.pos, to))
              || (to == Position(piece.pos.row + 2 * d.0, piece.pos.col + 2 * d.1) && LegalTarget(piece, to, tigers, goats)
                  && piece.side == Tiger && IsCapture(piece.pos, to, goats)))
  {
    var from := piece.pos;
    var mid := Position(from.row + d.0, from.col + d.1);
    var jumpTo := Position(from.row + 2 * d.0, from.col + 2 * d.1);
    if to == mid {
      StepTargetSpec(piece, tigers, goats, d);
    } else if to == jumpTo {
      JumpTargetSpec(piece, tigers, goats, d);
    } else {
      assert to !in DirectionMoves(piece, tigers, goats, d);
    }
  }

  /** The one-cell target of a direction is generated exactly when it is a
      legal step; it is never a capture. */
  lemma StepTargetSpec(piece: Piece, tigers: seq<Piece>, goats: seq<Piece>, d: (int, int))
    requires d in Directions
    ensures var to := Position(piece.pos.row + d.0, piece.pos.col + d.1);
            && (to in DirectionMoves(piece, tigers, goats, d) <==> LegalTarget(piece, to, tigers, goats) && IsStep(piece.pos, to))
            && !IsCapture(piece.pos, to, goats)
  {
    assert -1 <= d.0 <= 1 && -1 <= d.1 <= 1 && d != (0, 0);
    DirectionMovesParts(piece, tigers, goats, d);
    StepGeneratedIsStep(piece, tigers, goats, d);
  }

  /** The two-cell target of a direction is generated exactly when it is a
      tiger's capture onto a free cell; it is never a step. */
  lemma JumpTargetSpec(piece: Piece, tigers: seq<Piece>, goats: seq<Piece>, d: (int, int))
    requires d in Directions
    ensures var to := Position(piece.pos.row + 2 * d.0, piece.pos.col + 2 * d.1);
            && (to in DirectionMoves(piece, tigers, goats, d)
                <==> LegalTarget(piece, to, tigers, goats) && piece.side == Tiger && IsCapture(piece.pos, to, goats))
            && !IsStep(piece.pos, to)
  {
    assert -1 <= d.0 <= 1 && -1 <= d.1 <= 1 && d != (0, 0);
    DirectionMovesParts(piece, tigers, goats, d);
    JumpGeneratedIsCapture(piece, tigers, goats, d);
  }

  /** The direction's loop body passes its two guards: the neighbour is on the
      grid, and a diagonal neighbour is joined by a drawn line. */
  predicate DirectionOpen(piece: Piece, d: (int, int)) {
    var row := piece.pos.row;
    var col := piece.pos.col;
    && IsValidPosition(row + d.0, col + d.1)
    && (!(Abs(d.0) == 1 && Abs(d.1) == 1) || HasDiagonal(row, col, row + d.0, col + d.1))
  }

  /** The conditions under which a direction's loop body adds the step target. */
  predicate StepGenerated(piece: Piece, tigers: seq<Piece>, goats: seq<Piece>, d: (int, int)) {
    DirectionOpen(piece, d) && !IsOccupied(Position(piece.pos.row + d.0, piece.pos.col + d.1), tigers, goats)
  }

  /** The jump test both scans make once a direction is open: the cell two
      away is on the grid and free, the neighbour holds a goat, and a diagonal
      jump runs along drawn lines. */
  predicate JumpLands(pos: Position, tigers: seq<Piece>, goats: seq<Piece>, d: (int, int)) {
    var mid := Position(pos.row + d.0, pos.col + d.1);
    var to := Position(pos.row + 2 * d.0, pos.col + 2 * d.1);
    && IsValidPosition(to.row, to.col)
    && PieceAt(mid, goats)
    && !IsOccupied(to, tigers, goats)
    && (!(Abs(d.0) == 1 && Abs(d.1) == 1) || CanJumpDiagonally(pos.row, pos.col, mid.row, mid.col, to.row, to.col))
  }

  /** The conditions under which a direction's loop body adds the jump target. */
  predicate JumpGenerated(piece: Piece, tigers: seq<Piece>, goats: seq<Piece>, d: (int, int)) {
    DirectionOpen(piece, d) && piece.side == Tiger && JumpLands(piece.pos, tigers, goats, d)
  }

  /** A direction contributes nothing unless it is open, and then the free
      neighbour followed by a tiger's landing jump. */
  lemma DirectionMovesUnfold(piece: Piece, tigers: seq<Piece>, goats: seq<Piece>, d: (int, int))
    ensures var next := Position(piece.pos.row + d.0, piece.pos.col + d.1);
            var beyond := Position(piece.pos.row + 2 * d.0, piece.pos.col + 2 * d.1);
            DirectionMoves(piece, tigers, goats, d)
            == if !DirectionOpen(piece, d) then []
               else (if !IsOccupied(next, tigers, goats) then [next] else [])
                    + (if piece.side == Tiger && JumpLands(piece.pos, tigers, goats, d) then [beyond] else [])
  {
  }

  /** One direction's contribution: the step target if added, then the jump
      target if added. */
  lemma DirectionMovesParts(piece: Piece, tigers: seq<Piece>, goats: seq<Piece>, d: (int, int))
    ensures DirectionMoves(piece, tigers, goats, d)
         == (if StepGenerated(piece, tigers, goats, d) then [Position(piece.pos.row + d.0, piece.pos.col + d.1)] else [])
          + (if JumpGenerated(piece, tigers, goats, d) then [Position(piece.pos.row + 2 * d.0, piece.pos.col + 2 * d.1)] else [])
  {
  }

  lemma StepGeneratedIsStep(piece: Piece, tigers: seq<Piece>, goats: seq<Piece>, d: (int, int))
    requires -1 <= d.0 <= 1 && -1 <= d.1 <= 1 && d != (0, 0)
    ensures var to := Position(piece.pos.row + d.0, piece.pos.col + d.1);
            && (StepGenerated(piece, tigers, goats, d) <==> LegalTarget(piece, to, tigers, goats) && IsStep(piece.pos, to))
            && !IsCapture(piece.pos, to, goats)
  {
    var from := piece.pos;
    var to := Position(from.row + d.0, from.col + d.1);
    assert Abs(to.row - from.row) == Abs(d.0) && Abs(to.col - from.col) == Abs(d.1);
    if Abs(d.0) == 1 && Abs(d.1) == 1 {
      assert IsStep(from, to) <==> HasDiagonal(from.row, from.col, to.row, to.col);
    } else {
      assert IsStep(from, to);
    }
  }

  lemma JumpGeneratedIsCapture(piece: Piece, tigers: seq<Piece>, goats: seq<Piece>, d: (int, int))
    requires -1 <= d.0 <= 1 && -1 <= d.1 <= 1 && d != (0, 0)
    ensures var to := Position(piece.pos.row + 2 * d.0, piece.pos.col + 2 * d.1);
            && (JumpGenerated(piece, tigers, goats, d)
                <==> LegalTarget(piece, to, tigers, goats) && piece.side == Tiger && IsCapture(piece.pos, to, goats))
            && !IsStep(piece.pos, to)
  {
    if d.0 != 0 && d.1 != 0 {
      DiagonalJumpIsCapture(piece, tigers, goats, d);
    } else {
      StraightJumpIsCapture(piece, tigers, goats, d);
    }
  }

  lemma StraightJumpIsCapture(piece: Piece, tigers: seq<Piece>, goats: seq<Piece>, d: (int, int))
    requires -1 <= d.0 <= 1 && -1 <= d.1 <= 1 && (d.0 == 0 <==> d.1 != 0)
    ensures var to := Position(piece.pos.row + 2 * d.0, piece.pos.col + 2 * d.1);
            && (JumpGenerated(piece, tigers, goats, d)
                <==> LegalTarget(piece, to, tigers, goats) && piece.side == Tiger && IsCapture(piece.pos, to, goats))
            && !IsStep(piece.pos, to)
  {
    var from := piece.pos;
    var to := Position(from.row + 2 * d.0, from.col + 2 * d.1);
    var mid := Position(from.row + d.0, from.col + d.1);
    assert Midpoint(from, to) == mid;
    assert !(Abs(d.0) == 1 && Abs(d.1) == 1);
  }

  lemma DiagonalJumpIsCapture(piece: Piece, tigers: seq<Piece>, goats: seq<Piece>, d: (int, int))
    requires (d.0 == 1 || d.0 == -1) && (d.1 == 1 || d.1 == -1)
    ensures var to := Position(piece.pos.row + 2 * d.0, piece.pos.col + 2 * d.1);
            && (JumpGenerated(piece, tigers, goats, d)
                <==> LegalTarget(piece, to, tigers, goats) && piece.side == Tiger && IsCapture(piece.pos, to, goats))
            && !IsStep(piece.pos, to)
  {
    JumpIsNotStep(piece.pos, d);
    DiagonalJumpSound(piece, tigers, goats, d);
    DiagonalJumpComplete(piece, tigers, goats, d);
  }

  /** Two cells away is never a single step. */
  lemma JumpIsNotStep(from: Position, d: (int, int))
    requires (d.0 == 1 || d.0 == -1) && (d.1 == 1 || d.1 == -1)
    ensures !IsStep(from, Position(from.row + 2 * d.0, from.col + 2 * d.1))
  {
    assert Abs(2 * d.0) == 2;
  }

  /** A diagonal jump the loop adds is a legal capture. */
  lemma DiagonalJumpSound(piece: Piece, tigers: seq<Piece>, goats: seq<Piece>, d: (int, int))
    requires (d.0 == 1 || d.0 == -1) && (d.1 == 1 || d.1 == -1)
    ensures var to := Position(piece.pos.row + 2 * d.0, piece.pos.col + 2 * d.1);
            JumpGenerated(piece, tigers, goats, d)
            ==> LegalTarget(piece, to, tigers, goats) && piece.side == Tiger && IsCapture(piece.pos, to, goats)
  {
    DiagonalJumpCaptures(piece, tigers, goats, d);
    DiagonalJumpLegal(piece, tigers, goats, d);
  }

  /** A diagonal jump the loop adds passes over a goat along drawn lines. */
  lemma DiagonalJumpCaptures(piece: Piece, tigers: seq<Piece>, goats: seq<Piece>, d: (int, int))
    requires (d.0 == 1 || d.0 == -1) && (d.1 == 1 || d.1 == -1)
    ensures JumpGenerated(piece, tigers, goats, d)
            ==> piece.side == Tiger && IsCapture(piece.pos, Position(piece.pos.row + 2 * d.0, piece.pos.col + 2 * d.1), goats)
  {
    JumpToMiddle(piece, tigers, goats, d);
    DiagonalCaptureFromMiddle(piece.pos, d, goats);
  }

  /** A diagonal jump the loop adds lands on a legal target. */
  lemma DiagonalJumpLegal(piece: Piece, tigers: seq<Piece>, goats: seq<Piece>, d: (int, int))
    requires (d.0 == 1 || d.0 == -1) && (d.1 == 1 || d.1 == -1)
    ensures JumpGenerated(piece, tigers, goats, d)
            ==> LegalTarget(piece, Position(piece.pos.row + 2 * d.0, piece.pos.col + 2 * d.1), tigers, goats)
  {
    var to := Position(piece.pos.row + 2 * d.0, piece.pos.col + 2 * d.1);
    DiagonalJumpCaptures(piece, tigers, goats, d);
    CaptureIsLegal(piece, to, tigers, goats);
    JumpToMiddle(piece, tigers, goats, d);
  }

  /** A tiger's capture onto a free cell of the grid is a legal target. */
  lemma CaptureIsLegal(piece: Piece, to: Position, tigers: seq<Piece>, goats: seq<Piece>)
    ensures OnBoard(to) && !IsOccupied(to, tigers, goats) && piece.side == Tiger && IsCapture(piece.pos, to, goats)
            ==> LegalTarget(piece, to, tigers, goats)
  {
  }

  /** The cells of a diagonal jump the loop adds: the converse of `JumpFromMiddle`. */
  lemma JumpToMiddle(piece: Piece, tigers: seq<Piece>, goats: seq<Piece>, d: (int, int))
    requires (d.0 == 1 || d.0 == -1) && (d.1 == 1 || d.1 == -1)
    ensures var from := piece.pos;
            var mid := Position(from.row + d.0, from.col + d.1);
            var to := Position(from.row + 2 * d.0, from.col + 2 * d.1);
            JumpGenerated(piece, tigers, goats, d) ==>
            && OnBoard(to) && !IsOccupied(to, tigers, goats) && piece.side == Tiger
            && OnBoard(mid) && PieceAt(mid, goats)
            && CanJumpDiagonally(from.row, from.col, mid.row, mid.col, to.row, to.col)
  {
    assert Abs(d.0) == 1 && Abs(d.1) == 1;
  }

  /** A goat on the diagonal neighbour, with the line continuing past it, makes
      the cell beyond a capture target. */
  lemma DiagonalCaptureFromMiddle(from: Position, d: (int, int), goats: seq<Piece>)
    requires (d.0 == 1 || d.0 == -1) && (d.1 == 1 || d.1 == -1)
    ensures var mid := Position(from.row + d.0, from.col + d.1);
            var to := Position(from.row + 2 * d.0, from.col + 2 * d.1);
            && OnBoard(mid) && PieceAt(mid, goats)
            && CanJumpDiagonally(from.row, from.col, mid.row, mid.col, to.row, to.col)
            ==> IsCapture(from, to, goats)
  {
    var to := Position(from.row + 2 * d.0, from.col + 2 * d.1);
    assert Midpoint(from, to) == Position(from.row + d.0, from.col + d.1);
  }

  /** A legal diagonal capture is a jump the loop adds. */
  lemma DiagonalJumpComplete(piece: Piece, tigers: seq<Piece>, goats: seq<Piece>, d: (int, int))
    requires (d.0 == 1 || d.0 == -1) && (d.1 == 1 || d.1 == -1)
    ensures var to := Position(piece.pos.row + 2 * d.0, piece.pos.col + 2 * d.1);
            LegalTarget(piece, to, tigers, goats) && piece.side == Tiger && IsCapture(piece.pos, to, goats)
            ==> JumpGenerated(piece, tigers, goats, d)
  {
    var from := piece.pos;
    var to := Position(from.row + 2 * d.0, from.col + 2 * d.1);
    DiagonalCaptureMiddle(from, d, goats);
    JumpFromMiddle(piece, tigers, goats, d);
  }

  /** What a diagonal capture says about the cell it passes over. */
  lemma DiagonalCaptureMiddle(from: Position, d: (int, int), goats: seq<Piece>)
    requires (d.0 == 1 || d.0 == -1) && (d.1 == 1 || d.1 == -1)
    ensures var mid := Position(from.row + d.0, from.col + d.1);
            var to := Position(from.row + 2 * d.0, from.col + 2 * d.1);
            IsCapture(from, to, goats) ==>
            && OnBoard(mid) && PieceAt(mid, goats)
            && CanJumpDiagonally(from.row, from.col, mid.row, mid.col, to.row, to.col)
  {
    var to := Position(from.row + 2 * d.0, from.col + 2 * d.1);
    assert Midpoint(from, to) == Position(from.row + d.0, from.col + d.1);
  }

  /** The loop's jump conditions, read off the cells of a diagonal jump. */
  lemma JumpFromMiddle(piece: Piece, tigers: seq<Piece>, goats: seq<Piece>, d: (int, int))
    requires (d.0 == 1 || d.0 == -1) && (d.1 == 1 || d.1 == -1)
    ensures var from := piece.pos;
            var mid := Position(from.row + d.0, from.col + d.1);
            var to := Position(from.row + 2 * d.0, from.col + 2 * d.1);
            && OnBoard(to) && !IsOccupied(to, tigers, goats) && piece.side == Tiger
            && OnBoard(mid) && PieceAt(mid, goats)
            && CanJumpDiagonally(from.row, from.col, mid.row, mid.col, to.row, to.col)
            ==> JumpGenerated(piece, tigers, goats, d)
  {
    assert Abs(d.0) == 1 && Abs(d.1) == 1;
  }

  /** The direction a legal target lies in. */
  function DirectionIndex(d: (int, int)): (k: nat)
    ensures k < |Directions|
    ensures d in Directions ==> Directions[k] == d
  {
    if d == (-1, 0) then 0 else if d == (1, 0) then 1 else if d == (0, -1) then 2
    else if d == (0, 1) then 3 else if d == (-1, -1) then 4 else if d == (-1, 1) then 5
    else if d == (1, -1) then 6 else 7
  }

  lemma ValidMovesSound(piece: Piece, tigers: seq<Piece>, goats: seq<Piece>, to: Position)
    requires to in ValidMoves(piece, tigers, goats)
    ensures LegalTarget(piece, to, tigers, goats)
  {
    MovesAlongMembership(piece, tigers, goats, Directions, to);
    var k :| 0 <= k < |Directions| && to in DirectionMoves(piece, tigers, goats, Directions[k]);
    DirectionMovesSpec(piece, tigers, goats, Directions[k], to);
  }

  lemma ValidMovesComplete(piece: Piece, tigers: seq<Piece>, goats: seq<Piece>, to: Position)
    requires LegalTarget(piece, to, tigers, goats)
    ensures to in ValidMoves(piece, tigers, goats)
  {
    var from := piece.pos;
    var dr := to.row - from.row;
    var dc := to.col - from.col;
    var d := if IsStep(from, to) then (dr, dc) else (dr / 2, dc / 2);
    assert d in Directions;
    var k := DirectionIndex(d);
    DirectionMovesSpec(piece, tigers, goats, d, to);
    MovesAlongMembership(piece, tigers, goats, Directions, to);
  }

  /** The generator returns exactly the legal targets. */
  lemma ValidMovesSpec(piece: Piece, tigers: seq<Piece>, goats: seq<Piece>, to: Position)
    ensures to in ValidMoves(piece, tigers, goats) <==> LegalTarget(piece, to, tigers, goats)
  {
    if to in ValidMoves(piece, tigers, goats) {
      ValidMovesSound(piece, tigers, goats, to);
    }
    if LegalTarget(piece, to, tigers, goats) {
      ValidMovesComplete(piece, tigers, goats, to);
    }
  }

  /** The move list is exactly the set of legal targets. */
  lemma ValidMovesAreLegalTargets(piece: Piece, tigers: seq<Piece>, goats: seq<Piece>)
    ensures forall to :: to in ValidMoves(piece, tigers, goats) <==> LegalTarget(piece, to, tigers, goats)
  {
    forall to
      ensures to in ValidMoves(piece, tigers, goats) <==> LegalTarget(piece, to, tigers, goats)
    {
      ValidMovesSpec(piece, tigers, goats, to);
    }
  }

  /** Every generated target is on the grid and free of tigers and goats. */
  lemma ValidMovesOnBoardAndEmpty(piece: Piece, tigers: seq<Piece>, goats: seq<Piece>)
    ensures forall to :: to in ValidMoves(piece, tigers, goats) ==> OnBoard(to) && !IsOccupied(to, tigers, goats)
  {
    forall to | to in ValidMoves(piece, tigers, goats)
      ensures OnBoard(to) && !IsOccupied(to, tigers, goats)
    {
      ValidMovesSpec(piece, tigers, goats, to);
    }
  }

  /** Diagonal lines are undirected. */
  lemma HasDiagonalSymmetric(row: int, col: int, targetRow: int, targetCol: int)
    ensures HasDiagonal(row, col, targetRow, targetCol) <==> HasDiagonal(targetRow, targetCol, row, col)
  {
  }

  /** A diagonal one-cell move is generated only between two even-sum cells. */
  lemma DiagonalStepNeedsEvenEnds(piece: Piece, tigers: seq<Piece>, goats: seq<Piece>, to: Position)
    requires to in ValidMoves(piece, tigers, goats)
    requires Abs(to.row - piece.pos.row) == 1 && Abs(to.col - piece.pos.col) == 1
    ensures EvenSum(piece.pos.row, piece.pos.col) && EvenSum(to.row, to.col)
  {
    ValidMovesSpec(piece, tigers, goats, to);
  }

  /** Targets that are not steps are capture jumps, and only tigers get them:
      the landing cell is free and on the grid and the midpoint holds a goat. */
  lemma JumpTargetsAreTigerCaptures(piece: Piece, tigers: seq<Piece>, goats: seq<Piece>, to: Position)
    requires to in ValidMoves(piece, tigers, goats)
    requires !IsStep(piece.pos, to)
    ensures piece.side == Tiger
    ensures IsCapture(piece.pos, to, goats) && PieceAt(Midpoint(piece.pos, to), goats)
    ensures OnBoard(to) && !IsOccupied(to, tigers, goats)
  {
    ValidMovesSpec(piece, tigers, goats, to);
  }

  /** Goats only ever step. */
  lemma GoatTargetsAreSteps(piece: Piece, tigers: seq<Piece>, goats: seq<Piece>)
    requires piece.side == Goat
    ensures forall to :: to in ValidMoves(piece, tigers, goats) ==> IsStep(piece.pos, to)
  {
    forall to | to in ValidMoves(piece, tigers, goats)
      ensures IsStep(piece.pos, to)
    {
      ValidMovesSpec(piece, tigers, goats, to);
    }
  }

  /** A generated target is a jump exactly when row or column moves by two,
      and then its midpoint holds a goat. */
  lemma JumpDeltaIsCapture(piece: Piece, tigers: seq<Piece>, goats: seq<Piece>, to: Position)
    requires to in ValidMoves(piece, tigers, goats)
    ensures IsJumpDelta(piece.pos, to) <==> !IsStep(piece.pos, to)
    ensures IsJumpDelta(piece.pos, to) ==>
              piece.side == Tiger && IsCapture(piece.pos, to, goats) && PieceAt(Midpoint(piece.pos, to), goats)
  {
    ValidMovesSpec(piece, tigers, goats, to);
  }

  // ---------------------------------------------------------------------------
  // Win test

  /** The win test's own scan for one tiger: a free neighbour ends the scan with
      "can move"; otherwise a jump over a goat onto a free cell does. */
  function CanMoveAlong(tiger: Piece, tigers: seq<Piece>, goats: seq<Piece>, dirs: seq<(int, int)>): bool {
    if |dirs| == 0 then false
    else
      var d := dirs[0];
      if !DirectionOpen(tiger, d) then CanMoveAlong(tiger, tigers, goats, dirs[1..])
      else if !IsOccupied(Position(tiger.pos.row + d.0, tiger.pos.col + d.1), tigers, goats) then true
      else if JumpLands(tiger.pos, tigers, goats, d) then true
      else CanMoveAlong(tiger, tigers, goats, dirs[1..])
  }

  predicate TigerCanMove(tiger: Piece, tigers: seq<Piece>, goats: seq<Piece>) {
    CanMoveAlong(tiger, tigers, goats, Directions)
  }

  predicate AnyTigerCanMove(tigers: seq<Piece>, goats: seq<Piece>) {
    exists t :: t in tigers && TigerCanMove(t, tigers, goats)
  }

  /** The ordered win test: captures first, then a fully trapped tiger side. */
  function CheckWin(captured: int, tigers: seq<Piece>, goats: seq<Piece>): (r: Option<string>)
    ensures captured >= CapturesToWin ==> r == Some(TigersWinText)
    ensures captured < CapturesToWin ==>
              (r == Some(GoatsWinText) <==> forall t :: t in tigers ==> !TigerCanMove(t, tigers, goats))
    ensures captured < CapturesToWin ==> (r.None? <==> AnyTigerCanMove(tigers, goats))
  {
    if captured >= CapturesToWin then Some(TigersWinText)
    else if !AnyTigerCanMove(tigers, goats) then Some(GoatsWinText)
    else None
  }

  lemma {:induction false} CanMoveAlongAgrees(tiger: Piece, tigers: seq<Piece>, goats: seq<Piece>, dirs: seq<(int, int)>)
    requires tiger.side == Tiger
    ensures CanMoveAlong(tiger, tigers, goats, dirs) <==> |MovesAlong(tiger, tigers, goats, dirs)| > 0
  {
    if |dirs| > 0 {
      CanMoveAlongAgrees(tiger, tigers, goats, dirs[1..]);
      CanMoveAlongHead(tiger, tigers, goats, dirs);
      DirectionMovesParts(tiger, tigers, goats, dirs[0]);
    }
  }

  /** The win test's scan succeeds in its first direction exactly when the
      generator adds a step or a jump there. */
  lemma CanMoveAlongHead(tiger: Piece, tigers: seq<Piece>, goats: seq<Piece>, dirs: seq<(int, int)>)
    requires tiger.side == Tiger && |dirs| > 0
    ensures CanMoveAlong(tiger, tigers, goats, dirs)
        <==> StepGenerated(tiger, tigers, goats, dirs[0]) || JumpGenerated(tiger, tigers, goats, dirs[0])
             || CanMoveAlong(tiger, tigers, goats, dirs[1..])
  {
  }

  /** The win test's scan says "can move" exactly when the tiger's generated
      targets are non-empty. */
  lemma TigerCanMoveIffHasMoves(tiger: Piece, tigers: seq<Piece>, goats: seq<Piece>)
    requires tiger.side == Tiger
    ensures TigerCanMove(tiger, tigers, goats) <==> ValidMoves(tiger, tigers, goats) != []
  {
    CanMoveAlongAgrees(tiger, tigers, goats, Directions);
  }

  /** How many tigers have no target at all. */
  function TrappedCount(ts: seq<Piece>, tigers: seq<Piece>, goats: seq<Piece>): (n: nat)
    ensures n <= |ts|
    ensures n == |ts| <==> forall t :: t in ts ==> ValidMoves(t, tigers, goats) == []
  {
    if |ts| == 0 then 0
    else
      var rest := TrappedCount(ts[1..], tigers, goats);
      assert forall t :: t in ts <==> t == ts[0] || t in ts[1..];
      (if ValidMoves(ts[0], tigers, goats) == [] then 1 else 0) + rest
  }

  /** The win test declares the goats' win exactly when the trapped counter
      shown to the players reaches the number of tigers. */
  lemma GoatWinIffAllTrapped(captured: int, tigers: seq<Piece>, goats: seq<Piece>)
    requires captured < CapturesToWin
    requires forall t :: t in tigers ==> t.side == Tiger
    ensures CheckWin(captured, tigers, goats) == Some(GoatsWinText)
        <==> TrappedCount(tigers, tigers, goats) == |tigers|
  {
    forall t | t in tigers
      ensures TigerCanMove(t, tigers, goats) <==> ValidMoves(t, tigers, goats) != []
    {
      TigerCanMoveIffHasMoves(t, tigers, goats);
    }
  }
}
