/**
 * The game's state transitions: a click on an intersection (goat placement,
 * or moving the selected piece with capture bookkeeping), selecting a piece,
 * the computer's move, and resetting. Each transition is atomic: the win test
 * the game defers by 50 ms is applied in the same step, and the AI's
 * thinking delay is not modelled.
 *
 * The invariant `Consistent` is what every transition keeps: four tigers,
 * every piece on the grid, no two pieces on one cell, and
 * captured + live goats + goats to place == 20.
 */
module GameLogic {
  import opened Options
  import opened Rules
  import opened Pieces
  import opened Ranking
  import opened GameAI

  datatype GameMode = Pvp | VsComputer | VsTiger | VsGoat

  datatype GameState = GameState(
    board: Board,
    selected: Option<Piece>,
    mode: GameMode,
    difficulty: Difficulty,
    gameOver: Option<string>,
    aiThinking: bool)

  const InitialTigers: seq<Piece> := [
    Piece(Tiger, Position(0, 0)), Piece(Tiger, Position(0, 4)),
    Piece(Tiger, Position(4, 0)), Piece(Tiger, Position(4, 4))]

  const InitialBoard: Board := Board(InitialTigers, [], TotalGoats, 0, Goat)

  /** The state the game starts in: two players, medium difficulty. */
  const InitialState: GameState := GameState(InitialBoard, None, Pvp, Medium, None, false)

  /** The board invariant every transition keeps. */
  predicate Consistent(b: Board) {
    && |b.tigers| == 4
    && (forall t :: t in b.tigers ==> t.side == Tiger && OnBoard(t.pos))
    && (forall g :: g in b.goats ==> g.side == Goat && OnBoard(g.pos))
    && b.goatsToPlace >= 0 && b.goatsCaptured >= 0
    && b.goatsCaptured + |b.goats| + b.goatsToPlace == TotalGoats
    && Distinct(b.tigers) && Distinct(b.goats)
    && (forall g :: g in b.goats ==> !PieceAt(g.pos, b.tigers))
  }

  /** The board is consistent, a selected piece is one of its side's pieces,
      and nothing is selected when the computer is to move. */
  predicate Inv(s: GameState) {
    && Consistent(s.board)
    && (IsAITurn(s.mode, s.board.turn) ==> s.selected.None?)
    && (s.selected.Some? && s.selected.value.side == Tiger ==> s.selected.value in s.board.tigers)
    && (s.selected.Some? && s.selected.value.side == Goat ==> s.selected.value in s.board.goats)
  }

  /** Whether the computer plays the side to move. */
  predicate IsAITurn(mode: GameMode, turn: Side) {
    match mode
    case Pvp => false
    case VsComputer => turn == Tiger
    case VsTiger => turn == Tiger
    case VsGoat => turn == Goat
  }

  /** Outside two-player mode the computer plays exactly one of the two sides. */
  lemma AIPlaysOneSide(mode: GameMode)
    ensures mode == Pvp ==> !IsAITurn(mode, Tiger) && !IsAITurn(mode, Goat)
    ensures mode != Pvp ==> IsAITurn(mode, Tiger) != IsAITurn(mode, Goat)
    ensures mode != Pvp ==> (IsAITurn(mode, Tiger) <==> mode != VsGoat)
  {
  }

  /** Clicks and selections are ignored after the game ends, while the
      computer thinks and on the computer's turn. */
  predicate InputBlocked(s: GameState) {
    s.gameOver.Some? || s.aiThinking || IsAITurn(s.mode, s.board.turn)
  }

  // ---------------------------------------------------------------------------
  // Board updates shared by the player's and the computer's moves

  /** A goat placed on `at`; the tigers move next. */
  function PlaceGoat(b: Board, at: Position): (r: Board)
    ensures r.tigers == b.tigers && r.goatsCaptured == b.goatsCaptured
    ensures |r.goats| == |b.goats| + 1 && r.goats[..|b.goats|] == b.goats
    ensures r.goats[|b.goats|] == Piece(Goat, at)
    ensures r.goatsToPlace == b.goatsToPlace - 1 && r.turn == Tiger
  {
    b.(goats := b.goats + [Piece(Goat, at)], goatsToPlace := b.goatsToPlace - 1, turn := Tiger)
  }

  /** `p` moved to `to`: a tiger's jump also removes the goat it jumps over and
      counts the capture. The turn is left as it is. */
  function ApplyMove(b: Board, p: Piece, to: Position): (r: Board)
    ensures r.turn == b.turn && r.goatsToPlace == b.goatsToPlace
    ensures p.side == Goat ==> r.tigers == b.tigers && r.goatsCaptured == b.goatsCaptured
    ensures p.side == Tiger && !IsJumpDelta(p.pos, to) ==> r.goats == b.goats && r.goatsCaptured == b.goatsCaptured
    ensures p.side == Tiger && IsJumpDelta(p.pos, to) ==> r.goatsCaptured == b.goatsCaptured + 1
  {
    if p.side == Tiger then
      var capture := IsJumpDelta(p.pos, to);
      var goats := if capture then Without(b.goats, Midpoint(p.pos, to)) else b.goats;
      var captured := if capture then b.goatsCaptured + 1 else b.goatsCaptured;
      b.(tigers := MoveFrom(b.tigers, p.pos, to), goats := goats, goatsCaptured := captured)
    else
      b.(goats := MoveFrom(b.goats, p.pos, to))
  }

  /** The position after a finished move, with the win test applied to it. */
  function Settle(s: GameState, b: Board): (r: GameState)
    ensures r.board == b && r.selected == s.selected && r.mode == s.mode && r.difficulty == s.difficulty
    ensures r.gameOver.Some? <==> b.goatsCaptured >= CapturesToWin || !AnyTigerCanMove(b.tigers, b.goats)
  {
    s.(board := b, gameOver := CheckWin(b.goatsCaptured, b.tigers, b.goats))
  }

  // ---------------------------------------------------------------------------
  // Player input

  /** A click on the intersection (`row`, `col`). During the placement phase with
      nothing selected it places a goat on a free cell. With a piece selected it
      moves it there if that is a legal target, and otherwise only clears the
      selection. */
  function HandleNodeClick(s: GameState, row: int, col: int): (r: GameState)
    ensures InputBlocked(s) ==> r == s
    ensures r.mode == s.mode && r.difficulty == s.difficulty && r.aiThinking == s.aiThinking
    ensures r.board != s.board ==> r.board.turn == s.board.turn.Other() && r.selected.None?
  {
    var b := s.board;
    var at := Position(row, col);
    if InputBlocked(s) then s
    else if b.turn == Goat && b.goatsToPlace > 0 && s.selected.None? then
      if !IsOccupied(at, b.tigers, b.goats) then Settle(s, PlaceGoat(b, at)) else s
    else if s.selected.None? then s
    else
      var p := s.selected.value;
      if at in ValidMoves(p, b.tigers, b.goats) then
        Settle(s.(selected := None), ApplyMove(b, p, at).(turn := b.turn.Other()))
      else s.(selected := None)
  }

  /** Selecting `piece`: only a piece of the side to move, never a goat while
      goats are still being placed; selecting the selected piece again
      deselects it. */
  function HandlePieceSelect(s: GameState, piece: Piece): (r: GameState)
    ensures r.board == s.board && r.gameOver == s.gameOver && r.mode == s.mode
    ensures r.aiThinking == s.aiThinking
    ensures r.selected != s.selected ==> r.selected.None? || r.selected == Some(piece)
  {
    var b := s.board;
    if InputBlocked(s) || piece.side != b.turn || (b.turn == Goat && b.goatsToPlace > 0) then s
    else if s.selected.Some? && s.selected.value.pos == piece.pos then s.(selected := None)
    else s.(selected := Some(piece))
  }

  /** Starting over: tigers on the four corners, no goats, twenty to place,
      none captured, goats to move, nothing selected and no outcome. The mode
      and difficulty are kept. */
  function ResetGame(s: GameState): (r: GameState)
    ensures Inv(r) && r.board.turn == Goat && r.gameOver.None? && r.selected.None? && !r.aiThinking
    ensures r.board.goats == [] && r.board.goatsToPlace == TotalGoats && r.board.goatsCaptured == 0
    ensures forall p :: PieceAt(p, r.board.tigers) <==> p.row in {0, 4} && p.col in {0, 4}
    ensures r.mode == s.mode && r.difficulty == s.difficulty
  {
    var r := s.(board := InitialBoard, selected := None, gameOver := None, aiThinking := false);
    assert forall p :: PieceAt(p, InitialTigers) <==> p in {Position(0, 0), Position(0, 4), Position(4, 0), Position(4, 4)} by {
      forall p ensures PieceAt(p, InitialTigers) <==> p in {Position(0, 0), Position(0, 4), Position(4, 0), Position(4, 4)} {
        if p in {Position(0, 0), Position(0, 4), Position(4, 0), Position(4, 4)} {
          var k := if p == Position(0, 0) then 0 else if p == Position(0, 4) then 1 else if p == Position(4, 0) then 2 else 3;
          assert InitialTigers[k] in InitialTigers;
        }
      }
    }
    r
  }

  /** The targets highlighted for the selected piece; none without a selection. */
  function SelectedMoves(s: GameState): (r: seq<Position>)
    ensures s.selected.None? ==> r == []
    ensures forall to :: to in r ==> OnBoard(to) && !IsOccupied(to, s.board.tigers, s.board.goats)
  {
    if s.selected.None? then []
    else
      ValidMovesOnBoardAndEmpty(s.selected.value, s.board.tigers, s.board.goats);
      ValidMoves(s.selected.value, s.board.tigers, s.board.goats)
  }

  /** The "trapped" counter shown to the players: tigers without any target. */
  function TigersTrapped(b: Board): (n: nat)
    ensures n <= |b.tigers|
    ensures n == |b.tigers| <==> forall t :: t in b.tigers ==> ValidMoves(t, b.tigers, b.goats) == []
  {
    TrappedCount(b.tigers, b.tigers, b.goats)
  }

  // ---------------------------------------------------------------------------
  // The computer's move

  /** The computer's move for the side to move, given the two random draws:
      a tiger move, or a goat placement while goats remain to be placed, or a
      goat move. The computer never changes the board when it has no option. */
  function ExecuteAIMove(s: GameState, roll: Roll): (r: GameState)
    ensures s.gameOver.Some? || !IsAITurn(s.mode, s.board.turn) ==> r == s
    ensures r.mode == s.mode && r.difficulty == s.difficulty && r.selected == s.selected
    ensures r.board != s.board ==> r.board.turn == s.board.turn.Other()
  {
    var b := s.board;
    if s.gameOver.Some? || !IsAITurn(s.mode, b.turn) then s
    else if b.turn == Tiger then
      match TigerAIMove(s.difficulty, roll, b.tigers, b.goats)
      case None => s.(aiThinking := false)
      case Some(m) => Settle(s.(aiThinking := false), ApplyMove(b, m.tiger, m.to).(turn := Goat))
    else if b.goatsToPlace > 0 then
      match GoatAIPlacement(s.difficulty, roll, b.tigers, b.goats)
      case None => s.(aiThinking := false)
      case Some(at) => Settle(s.(aiThinking := false), PlaceGoat(b, at))
    else
      match GoatAIMove(s.difficulty, roll, b.tigers, b.goats)
      case None => s.(aiThinking := false)
      case Some(m) => Settle(s.(aiThinking := false), ApplyMove(b, m.goat, m.to).(turn := Tiger))
  }

  // ---------------------------------------------------------------------------
  // Properties of the transitions

  /** Placing on a free cell adds exactly one goat there, uses up one goat to
      place and hands the turn to the tigers; nothing else on the board changes. */
  lemma ClickPlacesGoat(s: GameState, row: int, col: int)
    requires !InputBlocked(s) && s.board.turn == Goat && s.board.goatsToPlace > 0 && s.selected.None?
    requires !IsOccupied(Position(row, col), s.board.tigers, s.board.goats)
    ensures var r := HandleNodeClick(s, row, col).board;
            && r.goats == s.board.goats + [Piece(Goat, Position(row, col))]
            && r.tigers == s.board.tigers && r.goatsCaptured == s.board.goatsCaptured
            && r.goatsToPlace == s.board.goatsToPlace - 1 && r.turn == Tiger
  {
  }

  /** Clicking an occupied cell during placement changes nothing. */
  lemma ClickOnOccupiedCellDuringPlacement(s: GameState, row: int, col: int)
    requires s.board.turn == Goat && s.board.goatsToPlace > 0 && s.selected.None?
    requires IsOccupied(Position(row, col), s.board.tigers, s.board.goats)
    ensures HandleNodeClick(s, row, col) == s
  {
  }

  /** A click on a cell that is not a target of the selected piece clears the
      selection and nothing else. */
  lemma ClickOnInvalidTarget(s: GameState, row: int, col: int)
    requires !InputBlocked(s) && s.selected.Some?
    requires Position(row, col) !in ValidMoves(s.selected.value, s.board.tigers, s.board.goats)
    ensures HandleNodeClick(s, row, col) == s.(selected := None)
  {
  }

  /** A capture removes exactly the goat on the jumped-over cell, counts it,
      and moves only the selected tiger; the other side moves next. */
  lemma ClickCaptures(s: GameState, row: int, col: int)
    requires Inv(s) && !InputBlocked(s) && s.selected.Some?
    requires var p := s.selected.value;
             p.side == Tiger && Position(row, col) in ValidMoves(p, s.board.tigers, s.board.goats)
             && IsJumpDelta(p.pos, Position(row, col))
    ensures var p := s.selected.value;
            var to := Position(row, col);
            var mid := Midpoint(p.pos, to);
            var b := s.board;
            var r := HandleNodeClick(s, row, col).board;
            && (forall g :: g in r.goats <==> g in b.goats && g.pos != mid)
            && |r.goats| == |b.goats| - 1
            && r.goatsCaptured == b.goatsCaptured + 1 && r.goatsToPlace == b.goatsToPlace
            && |r.tigers| == |b.tigers|
            && (forall x :: PieceAt(x, r.tigers) <==> (x != p.pos && PieceAt(x, b.tigers)) || x == to)
            && r.turn == b.turn.Other()
  {
    var p := s.selected.value;
    var b := s.board;
    var to := Position(row, col);
    JumpDeltaIsCapture(p, b.tigers, b.goats, to);
    WithoutRemovesOne(b.goats, Midpoint(p.pos, to));
    ValidMovesOnBoardAndEmpty(p, b.tigers, b.goats);
    forall x
      ensures PieceAt(x, MoveFrom(b.tigers, p.pos, to)) <==> (x != p.pos && PieceAt(x, b.tigers)) || x == to
    {
      MoveFromOccupancy(b.tigers, p.pos, to, x);
    }
  }

  /** The board invariant survives a move of a piece of the board to one of its
      targets. */
  lemma ApplyMoveConsistent(b: Board, p: Piece, to: Position, turn: Side)
    requires Consistent(b)
    requires (p.side == Tiger && p in b.tigers) || (p.side == Goat && p in b.goats)
    requires to in ValidMoves(p, b.tigers, b.goats)
    ensures Consistent(ApplyMove(b, p, to).(turn := turn))
  {
    ValidMovesOnBoardAndEmpty(p, b.tigers, b.goats);
    var r := ApplyMove(b, p, to);
    if p.side == Tiger {
      var mid := Midpoint(p.pos, to);
      MoveFromDistinct(b.tigers, p.pos, to);
      MoveFromElements(b.tigers, p.pos, to);
      if IsJumpDelta(p.pos, to) {
        JumpDeltaIsCapture(p, b.tigers, b.goats, to);
        WithoutRemovesOne(b.goats, mid);
        WithoutDistinct(b.goats, mid);
      }
      forall g | g in r.goats
        ensures !PieceAt(g.pos, r.tigers)
      {
        assert g in b.goats;
        MoveFromOccupancy(b.tigers, p.pos, to, g.pos);
      }
    } else {
      MoveFromDistinct(b.goats, p.pos, to);
      MoveFromElements(b.goats, p.pos, to);
      forall g | g in r.goats
        ensures !PieceAt(g.pos, r.tigers)
      {
      }
    }
  }

  /** The board invariant survives placing a goat on a free cell of the grid. */
  lemma PlaceGoatConsistent(b: Board, at: Position)
    requires Consistent(b) && b.goatsToPlace > 0
    requires OnBoard(at) && !IsOccupied(at, b.tigers, b.goats)
    ensures Consistent(PlaceGoat(b, at))
  {
    DistinctSnoc(b.goats, Piece(Goat, at));
  }

  /** Every click on the grid keeps the invariant. */
  lemma ClickKeepsInvariant(s: GameState, row: int, col: int)
    requires Inv(s) && IsValidPosition(row, col)
    ensures Inv(HandleNodeClick(s, row, col))
  {
    var b := s.board;
    var at := Position(row, col);
    if InputBlocked(s) {
    } else if b.turn == Goat && b.goatsToPlace > 0 && s.selected.None? {
      if !IsOccupied(at, b.tigers, b.goats) {
        PlaceGoatConsistent(b, at);
      }
    } else if s.selected.Some? && at in ValidMoves(s.selected.value, b.tigers, b.goats) {
      ApplyMoveConsistent(b, s.selected.value, at, b.turn.Other());
    }
  }

  /** Selecting a piece of the board keeps the invariant. */
  lemma SelectKeepsInvariant(s: GameState, piece: Piece)
    requires Inv(s)
    requires (piece.side == Tiger && piece in s.board.tigers) || (piece.side == Goat && piece in s.board.goats)
    ensures Inv(HandlePieceSelect(s, piece))
  {
  }

  /** Selection is refused for the other side's pieces and for goats while
      goats remain to be placed; selecting the selected piece again clears the
      selection. */
  lemma SelectRules(s: GameState, piece: Piece)
    ensures piece.side != s.board.turn ==> HandlePieceSelect(s, piece) == s
    ensures s.board.turn == Goat && s.board.goatsToPlace > 0 ==> HandlePieceSelect(s, piece) == s
    ensures !InputBlocked(s) && piece.side == s.board.turn && !(piece.side == Goat && s.board.goatsToPlace > 0) ==>
              (HandlePieceSelect(s, piece).selected.None? <==> s.selected.Some? && s.selected.value.pos == piece.pos)
    ensures !InputBlocked(s) && piece.side == s.board.turn && !(piece.side == Goat && s.board.goatsToPlace > 0) ==>
              (HandlePieceSelect(s, piece).selected.Some? ==> HandlePieceSelect(s, piece).selected == Some(piece))
  {
  }

  /** The computer's move keeps the invariant. */
  lemma AIMoveKeepsInvariant(s: GameState, roll: Roll)
    requires Inv(s)
    ensures Inv(ExecuteAIMove(s, roll))
  {
    var b := s.board;
    if s.gameOver.Some? || !IsAITurn(s.mode, b.turn) {
    } else if b.turn == Tiger {
      var m := TigerAIMove(s.difficulty, roll, b.tigers, b.goats);
      if m.Some? {
        ApplyMoveConsistent(b, m.value.tiger, m.value.to, Goat);
      }
    } else if b.goatsToPlace > 0 {
      var at := GoatAIPlacement(s.difficulty, roll, b.tigers, b.goats);
      if at.Some? {
        PlaceGoatConsistent(b, at.value);
      }
    } else {
      var m := GoatAIMove(s.difficulty, roll, b.tigers, b.goats);
      if m.Some? {
        ApplyMoveConsistent(b, m.value.goat, m.value.to, Tiger);
      }
    }
  }

  /** On a consistent board the goats' win is declared exactly when the
      trapped counter reaches four. */
  lemma GoatsWinIffFourTrapped(b: Board)
    requires Consistent(b) && b.goatsCaptured < CapturesToWin
    ensures CheckWin(b.goatsCaptured, b.tigers, b.goats) == Some(GoatsWinText) <==> TigersTrapped(b) == 4
  {
    GoatWinIffAllTrapped(b.goatsCaptured, b.tigers, b.goats);
  }

  /** While a goat remains to be placed the computer always has a placement:
      the counter invariant leaves at most 4 + 19 of the 25 cells occupied. */
  lemma AIPlacementAvailable(s: GameState, roll: Roll)
    requires Inv(s) && s.board.goatsToPlace > 0
    ensures GoatAIPlacement(s.difficulty, roll, s.board.tigers, s.board.goats).Some?
  {
    var b := s.board;
    var occupied := (set t | t in b.tigers :: t.pos) + (set g | g in b.goats :: g.pos);
    var cells := set r, c | 0 <= r < Size && 0 <= c < Size :: Position(r, c);
    assert |occupied| <= 4 + 19 by {
      CellCount(b.tigers);
      CellCount(b.goats);
    }
    GridHas25Cells();
    assert |cells| == 25;
    var free := cells - occupied;
    assert |free| > 0;
    var p :| p in free;
    assert !IsOccupied(p, b.tigers, b.goats);
  }

  lemma {:induction false} CellCount(ps: seq<Piece>)
    ensures |set q | q in ps :: q.pos| <= |ps|
  {
    if |ps| > 0 {
      CellCount(ps[1..]);
      assert (set q | q in ps :: q.pos) == {ps[0].pos} + (set q | q in ps[1..] :: q.pos) by {
        assert forall q :: q in ps <==> q == ps[0] || q in ps[1..];
      }
    }
  }

  lemma GridHas25Cells()
    ensures |set r, c | 0 <= r < Size && 0 <= c < Size :: Position(r, c)| == 25
  {
    var cells := set r, c | 0 <= r < Size && 0 <= c < Size :: Position(r, c);
    var k := set k | 0 <= k < 25 :: Cell(k);
    assert cells == k by {
      forall p | p in cells ensures p in k {
        assert Cell(p.row * Size + p.col) == p;
      }
    }
    CellsInjective(25);
  }

  lemma {:induction false} CellsInjective(n: nat)
    requires n <= 25
    ensures |set k | 0 <= k < n :: Cell(k)| == n
  {
    if n > 0 {
      CellsInjective(n - 1);
      var prev := set k | 0 <= k < n - 1 :: Cell(k);
      assert (set k | 0 <= k < n :: Cell(k)) == prev + {Cell(n - 1)};
      assert Cell(n - 1) !in prev;
    }
  }
}
