/**
 * The heuristic AI: for the side to move it enumerates every legal move (or,
 * for goats still being placed, every empty cell), scores each with the
 * integer heuristics of the game, ranks them by descending score and takes
 * the best one, or on a "suboptimal" roll one of the first three (four for
 * placements).
 *
 * The AI's own copy of the move generator is the method `GetValidMoves`,
 * proved to compute exactly the rules engine's `ValidMoves`; the scoring
 * functions use the latter.
 */
module GameAI {
  import opened Options
  import opened Rules
  import opened Pieces
  import opened Ranking

  datatype Difficulty = Easy | Medium | Hard

  /** The two `Math.random()` draws behind one decision: the suboptimal roll
      and, when it succeeds, the index draw. */
  datatype Roll = Roll(chance: Random01, pick: Random01)

  datatype TigerMove = TigerMove(tiger: Piece, to: Position)

  datatype GoatMove = GoatMove(goat: Piece, to: Position)

  const TigerChoiceWidth: nat := 3
  const PlacementChoiceWidth: nat := 4
  const GoatChoiceWidth: nat := 3

  /** Easy errs on half the rolls, medium on a fifth, hard never. */
  function ShouldMakeSuboptimalMove(d: Difficulty, chance: Random01): (b: bool)
    ensures d == Easy ==> (b <==> chance < 0.5)
    ensures d == Medium ==> (b <==> chance < 0.2)
    ensures d == Hard ==> !b
    ensures b ==> chance < 0.5
  {
    match d
    case Easy => chance < 0.5
    case Medium => chance < 0.2
    case Hard => false
  }

  function LookaheadDepth(d: Difficulty): (depth: nat)
    ensures depth <= 2
  {
    match d
    case Easy => 0
    case Medium => 1
    case Hard => 2
  }

  /** The random draws matter only on the suboptimal branch: two rolls that
      both stay off it give the same decision, for each of the three AI
      decisions. Hard, which never takes that branch, is deterministic. */
  lemma RollMattersOnlyWhenErring(difficulty: Difficulty, r1: Roll, r2: Roll, tigers: seq<Piece>, goats: seq<Piece>)
    requires !ShouldMakeSuboptimalMove(difficulty, r1.chance) && !ShouldMakeSuboptimalMove(difficulty, r2.chance)
    ensures TigerAIMove(difficulty, r1, tigers, goats) == TigerAIMove(difficulty, r2, tigers, goats)
    ensures GoatAIPlacement(difficulty, r1, tigers, goats) == GoatAIPlacement(difficulty, r2, tigers, goats)
    ensures GoatAIMove(difficulty, r1, tigers, goats) == GoatAIMove(difficulty, r2, tigers, goats)
  {
    var depth := LookaheadDepth(difficulty);
    var tc := TigerCandidates(depth, tigers, goats);
    if |tc| > 0 {
      PickIgnoresDrawWhenOptimal(tc, TigerChoiceWidth, r1.pick, r2.pick);
    }
    var pc := PlacementCandidatesFrom(depth, tigers, goats, 0);
    if |pc| > 0 {
      PickIgnoresDrawWhenOptimal(pc, PlacementChoiceWidth, r1.pick, r2.pick);
    }
    var gc := GoatCandidatesFrom(depth, tigers, goats, 0);
    if |gc| > 0 {
      PickIgnoresDrawWhenOptimal(gc, GoatChoiceWidth, r1.pick, r2.pick);
    }
  }

  /** Harder levels look further ahead and err on fewer rolls. */
  lemma DifficultyIsMonotone(chance: Random01)
    ensures LookaheadDepth(Easy) < LookaheadDepth(Medium) < LookaheadDepth(Hard)
    ensures ShouldMakeSuboptimalMove(Hard, chance) ==> ShouldMakeSuboptimalMove(Medium, chance)
    ensures ShouldMakeSuboptimalMove(Medium, chance) ==> ShouldMakeSuboptimalMove(Easy, chance)
  {
  }

  // ---------------------------------------------------------------------------
  // The AI's move generator

  /** The AI's duplicate of the move generator, written as the same loop. */
  method GetValidMoves(piece: Piece, tigers: seq<Piece>, goats: seq<Piece>) returns (moves: seq<Position>)
    ensures moves == ValidMoves(piece, tigers, goats)
    ensures forall to :: to in moves <==> LegalTarget(piece, to, tigers, goats)
  {
    moves := [];
    var k := 0;
    while k < |Directions|
      invariant 0 <= k <= |Directions|
      invariant moves + MovesAlong(piece, tigers, goats, Directions[k..]) == ValidMoves(piece, tigers, goats)
    {
      var tail := Directions[k..];
      assert tail[0] == Directions[k] && tail[1..] == Directions[k + 1..];
      var here := DirectionMoves(piece, tigers, goats, Directions[k]);
      var later := MovesAlong(piece, tigers, goats, Directions[k + 1..]);
      assert MovesAlong(piece, tigers, goats, tail) == here + later;
      var before := moves;
      moves := PushDirection(piece, tigers, goats, Directions[k], moves);
      assert moves + later == before + (here + later);
      k := k + 1;
    }
    assert Directions[k..] == [];
    ValidMovesAreLegalTargets(piece, tigers, goats);
  }

  /** One iteration of the generator's loop: a direction that fails either
      guard adds nothing; otherwise the free neighbour is pushed, then, for a
      tiger, the capture jump along `d`. */
  method PushDirection(piece: Piece, tigers: seq<Piece>, goats: seq<Piece>, d: (int, int), moves: seq<Position>)
    returns (r: seq<Position>)
    ensures r == moves + DirectionMoves(piece, tigers, goats, d)
  {
    DirectionMovesUnfold(piece, tigers, goats, d);
    r := moves;
    if !DirectionOpen(piece, d) {
      return;
    }
    var next := Position(piece.pos.row + d.0, piece.pos.col + d.1);
    ghost var step := if !IsOccupied(next, tigers, goats) then [next] else [];
    if !IsOccupied(next, tigers, goats) {
      r := r + [next];
    }
    ghost var jump := if piece.side == Tiger && JumpLands(piece.pos, tigers, goats, d)
                      then [Position(piece.pos.row + 2 * d.0, piece.pos.col + 2 * d.1)] else [];
    r := PushJump(piece, tigers, goats, d, r);
    assert r == moves + step + jump == moves + (step + jump);
  }

  /** The second half of a loop iteration, once both guards have passed: a
      tiger's jump over an adjacent goat onto a free cell. */
  method PushJump(piece: Piece, tigers: seq<Piece>, goats: seq<Piece>, d: (int, int), moves: seq<Position>)
    returns (r: seq<Position>)
    ensures r == moves + if piece.side == Tiger && JumpLands(piece.pos, tigers, goats, d) then [Position(piece.pos.row + 2 * d.0, piece.pos.col + 2 * d.1)] else []
  {
    r := moves;
    var row := piece.pos.row;
    var col := piece.pos.col;
    var dr, dc := d.0, d.1;
    var newRow := row + dr;
    var newCol := col + dc;
    var isDiagonal := Abs(dr) == 1 && Abs(dc) == 1;
    if piece.side == Tiger {
      var jumpRow := row + dr * 2;
      var jumpCol := col + dc * 2;
      assert Position(jumpRow, jumpCol) == Position(row + 2 * d.0, col + 2 * d.1);
      if IsValidPosition(jumpRow, jumpCol) {
        var hasGoatToCapture := PieceAt(Position(newRow, newCol), goats);
        if hasGoatToCapture && !IsOccupied(Position(jumpRow, jumpCol), tigers, goats) {
          if isDiagonal {
            if CanJumpDiagonally(row, col, newRow, newCol, jumpRow, jumpCol) {
              r := r + [Position(jumpRow, jumpCol)];
            }
          } else {
            r := r + [Position(jumpRow, jumpCol)];
          }
        }
      }
    }
  }

  // ---------------------------------------------------------------------------
  // Scoring helpers

  function SumOver<T>(xs: seq<T>, f: T -> int): int {
    if |xs| == 0 then 0 else f(xs[0]) + SumOver(xs[1..], f)
  }

  function CenterDistance(p: Position): nat {
    Abs(p.row - 2) + Abs(p.col - 2)
  }

  /** Some target in `moves` is a jump from `from`. */
  predicate HasJumpFrom(from: Position, moves: seq<Position>) {
    exists m :: m in moves && IsJumpDelta(from, m)
  }

  /** How many jumps in `moves` (of the tiger at `from`) pass over `pos`. */
  function JumpsOver(from: Position, moves: seq<Position>, pos: Position): int {
    SumOver(moves, (m: Position) => if IsJumpDelta(from, m) && Midpoint(from, m) == pos then 1 else 0)
  }

  /** The tiger at index `i` of `tigers`, relocated to `move` in place. */
  function WithTigerAt(tigers: seq<Piece>, i: nat, move: Position): seq<Piece>
    requires i < |tigers|
  {
    tigers[i := tigers[i].(pos := move)]
  }

  // ---------------------------------------------------------------------------
  // Tiger moves

  /** Captures score 100 (plus 50 at depth 2 if the landing cell allows another
      capture); other moves score by closeness to the centre, plus 25 at depth
      1 when they threaten a capture, minus 15 at depth 2 when they leave at most
      one follow-up move. */
  function TigerMoveScore(depth: nat, tigers: seq<Piece>, goats: seq<Piece>, i: nat, move: Position): (score: int)
    requires i < |tigers|
    ensures IsJumpDelta(tigers[i].pos, move) ==> score >= 100
    ensures !IsJumpDelta(tigers[i].pos, move) ==> score <= 10 + 25
  {
    var from := tigers[i].pos;
    var tempTiger := tigers[i].(pos := move);
    var tempTigers := WithTigerAt(tigers, i, move);
    if IsJumpDelta(from, move) then
      var newGoats := Without(goats, Midpoint(from, move));
      100 + (if depth >= 2 && HasJumpFrom(move, ValidMoves(tempTiger, tempTigers, newGoats)) then 50 else 0)
    else
      var future := ValidMoves(tempTiger, tempTigers, goats);
      10 - CenterDistance(move)
      + (if depth >= 1 && HasJumpFrom(move, future) then 25 else 0)
      - (if depth >= 2 && |future| <= 1 then 15 else 0)
  }

  /** A scored tiger move the enumeration produces. */
  ghost predicate IsTigerCandidate(depth: nat, tigers: seq<Piece>, goats: seq<Piece>, c: Scored<TigerMove>) {
    exists j :: 0 <= j < |tigers| && c.item.tiger == tigers[j] && c.item.to in ValidMoves(tigers[j], tigers, goats)
                && c.score == TigerMoveScore(depth, tigers, goats, j, c.item.to)
  }

  function ScoreTigerMoves(depth: nat, tigers: seq<Piece>, goats: seq<Piece>, i: nat, ms: seq<Position>): seq<Scored<TigerMove>>
    requires i < |tigers|
  {
    seq(|ms|, k requires 0 <= k < |ms| => Scored(TigerMove(tigers[i], ms[k]), TigerMoveScore(depth, tigers, goats, i, ms[k])))
  }

  /** Every move of every tiger from index `i` on, tiger by tiger. */
  function TigerCandidatesFrom(depth: nat, tigers: seq<Piece>, goats: seq<Piece>, i: nat): (cs: seq<Scored<TigerMove>>)
    requires i <= |tigers|
    ensures forall c :: c in cs ==> IsTigerCandidate(depth, tigers, goats, c)
    ensures |cs| == 0 <==> forall j :: i <= j < |tigers| ==> ValidMoves(tigers[j], tigers, goats) == []
    decreases |tigers| - i
  {
    if i == |tigers| then []
    else
      var here := ScoreTigerMoves(depth, tigers, goats, i, ValidMoves(tigers[i], tigers, goats));
      var rest := TigerCandidatesFrom(depth, tigers, goats, i + 1);
      assert forall c :: c in here ==> IsTigerCandidate(depth, tigers, goats, c) by {
        forall c | c in here
          ensures IsTigerCandidate(depth, tigers, goats, c)
        {
          var k :| 0 <= k < |here| && here[k] == c;
        }
      }
      here + rest
  }

  /** A scored list of one tiger's targets holds a jump iff the targets do. */
  lemma ScoredJumps(depth: nat, tigers: seq<Piece>, goats: seq<Piece>, i: nat, ms: seq<Position>)
    requires i < |tigers|
    ensures (exists c :: c in ScoreTigerMoves(depth, tigers, goats, i, ms) && IsJumpDelta(c.item.tiger.pos, c.item.to))
        <==> (exists to :: to in ms && IsJumpDelta(tigers[i].pos, to))
  {
    var here := ScoreTigerMoves(depth, tigers, goats, i, ms);
    if exists to :: to in ms && IsJumpDelta(tigers[i].pos, to) {
      var to :| to in ms && IsJumpDelta(tigers[i].pos, to);
      var k :| 0 <= k < |ms| && ms[k] == to;
      assert here[k] in here;
    }
    if exists c :: c in here && IsJumpDelta(c.item.tiger.pos, c.item.to) {
      var c :| c in here && IsJumpDelta(c.item.tiger.pos, c.item.to);
      var k :| 0 <= k < |here| && here[k] == c;
      assert ms[k] in ms;
    }
  }

  /** A jump target of a tiger from index `i` on is among the candidates. */
  lemma {:induction false} TigerJumpIsCandidate(depth: nat, tigers: seq<Piece>, goats: seq<Piece>, i: nat)
    requires i <= |tigers|
    ensures (exists j, to :: i <= j < |tigers| && to in ValidMoves(tigers[j], tigers, goats) && IsJumpDelta(tigers[j].pos, to))
        ==> (exists c :: c in TigerCandidatesFrom(depth, tigers, goats, i) && IsJumpDelta(c.item.tiger.pos, c.item.to))
    decreases |tigers| - i
  {
    if exists j, to :: i <= j < |tigers| && to in ValidMoves(tigers[j], tigers, goats) && IsJumpDelta(tigers[j].pos, to) {
      var j, to :| i <= j < |tigers| && to in ValidMoves(tigers[j], tigers, goats) && IsJumpDelta(tigers[j].pos, to);
      var ms := ValidMoves(tigers[i], tigers, goats);
      var here := ScoreTigerMoves(depth, tigers, goats, i, ms);
      var rest := TigerCandidatesFrom(depth, tigers, goats, i + 1);
      assert TigerCandidatesFrom(depth, tigers, goats, i) == here + rest;
      if j == i {
        ScoredJumps(depth, tigers, goats, i, ms);
        var c :| c in here && IsJumpDelta(c.item.tiger.pos, c.item.to);
        assert c in here + rest;
      } else {
        TigerJumpIsCandidate(depth, tigers, goats, i + 1);
        assert i + 1 <= j < |tigers| && to in ValidMoves(tigers[j], tigers, goats) && IsJumpDelta(tigers[j].pos, to);
        var c :| c in rest && IsJumpDelta(c.item.tiger.pos, c.item.to);
        assert c in here + rest;
      }
    }
  }


  function TigerCandidates(depth: nat, tigers: seq<Piece>, goats: seq<Piece>): seq<Scored<TigerMove>> {
    TigerCandidatesFrom(depth, tigers, goats, 0)
  }

  /** The tiger AI's decision: none exactly when no tiger can move; otherwise a
      tiger of the board and one of its legal targets. */
  function TigerAIMove(difficulty: Difficulty, roll: Roll, tigers: seq<Piece>, goats: seq<Piece>): (r: Option<TigerMove>)
    ensures r.None? <==> forall t :: t in tigers ==> ValidMoves(t, tigers, goats) == []
    ensures r.Some? ==> r.value.tiger in tigers && r.value.to in ValidMoves(r.value.tiger, tigers, goats)
  {
    var candidates := TigerCandidates(LookaheadDepth(difficulty), tigers, goats);
    assert (forall t :: t in tigers ==> ValidMoves(t, tigers, goats) == [])
       <==> (forall j :: 0 <= j < |tigers| ==> ValidMoves(tigers[j], tigers, goats) == []);
    if |candidates| == 0 then None
    else
      var c := Pick(candidates, ShouldMakeSuboptimalMove(difficulty, roll.chance), TigerChoiceWidth, roll.pick);
      Some(c.item)
  }

  /** Without the suboptimal roll, the tiger AI captures whenever any tiger can. */
  lemma TigerAIPrefersCapture(difficulty: Difficulty, roll: Roll, tigers: seq<Piece>, goats: seq<Piece>, j: nat, to: Position)
    requires !ShouldMakeSuboptimalMove(difficulty, roll.chance)
    requires j < |tigers| && to in ValidMoves(tigers[j], tigers, goats) && IsJumpDelta(tigers[j].pos, to)
    ensures TigerAIMove(difficulty, roll, tigers, goats).Some?
    ensures var m := TigerAIMove(difficulty, roll, tigers, goats).value;
            IsJumpDelta(m.tiger.pos, m.to) && PieceAt(Midpoint(m.tiger.pos, m.to), goats)
  {
    var depth := LookaheadDepth(difficulty);
    var candidates := TigerCandidates(depth, tigers, goats);
    assert tigers[j] in tigers;
    TigerJumpIsCandidate(depth, tigers, goats, 0);
    var cj :| cj in candidates && IsJumpDelta(cj.item.tiger.pos, cj.item.to);
    var c := Pick(candidates, false, TigerChoiceWidth, roll.pick);
    assert c == Pick(candidates, ShouldMakeSuboptimalMove(difficulty, roll.chance), TigerChoiceWidth, roll.pick);
    assert IsTigerCandidate(depth, tigers, goats, cj);
    assert cj.score >= 100;
    assert IsTigerCandidate(depth, tigers, goats, c);
    var m := c.item;
    JumpDeltaIsCapture(m.tiger, tigers, goats, m.to);
  }

  /** Without the suboptimal roll, the chosen tiger move scores at least as much
      as every enumerated move. */
  lemma TigerAIPicksBest(difficulty: Difficulty, roll: Roll, tigers: seq<Piece>, goats: seq<Piece>)
    requires !ShouldMakeSuboptimalMove(difficulty, roll.chance)
    requires TigerAIMove(difficulty, roll, tigers, goats).Some?
    ensures exists c :: c in TigerCandidates(LookaheadDepth(difficulty), tigers, goats)
                        && c.item == TigerAIMove(difficulty, roll, tigers, goats).value
                        && forall d :: d in TigerCandidates(LookaheadDepth(difficulty), tigers, goats) ==> d.score <= c.score
  {
    var candidates := TigerCandidates(LookaheadDepth(difficulty), tigers, goats);
    var c := Pick(candidates, false, TigerChoiceWidth, roll.pick);
    assert c.item == TigerAIMove(difficulty, roll, tigers, goats).value;
  }

  // ---------------------------------------------------------------------------
  // Goat placements

  /** The cell visited `k`-th by the row-major scan of the grid. */
  function Cell(k: nat): Position {
    Position(k / Size, k % Size)
  }

  /** Centrality, +35 per tiger capture landing here, +20 per capture passing
      over here, +5 per orthogonally adjacent goat, at depth 2 the mobility the
      placement leaves the tigers, and -40 per capture that would take it. */
  function PlacementScore(depth: nat, tigers: seq<Piece>, goats: seq<Piece>, pos: Position): int {
    var withGoat := goats + [Piece(Goat, pos)];
    (4 - CenterDistance(pos)) * 2
    + SumOver(tigers, (t: Piece) => SumOver(ValidMoves(t, tigers, goats), (m: Position) =>
        if IsJumpDelta(t.pos, m) then (if m == pos then 35 else 0) + (if Midpoint(t.pos, m) == pos then 20 else 0) else 0))
    + 5 * SumOver(goats, (g: Piece) => if Abs(g.pos.row - pos.row) + Abs(g.pos.col - pos.col) == 1 then 1 else 0)
    + (if depth >= 2 then 20 - SumOver(tigers, (t: Piece) => |ValidMoves(t, tigers, withGoat)|) else 0)
    - 40 * SumOver(tigers, (t: Piece) => JumpsOver(t.pos, ValidMoves(t, tigers, withGoat), pos))
  }

  ghost predicate IsPlacementCandidate(depth: nat, tigers: seq<Piece>, goats: seq<Piece>, c: Scored<Position>) {
    OnBoard(c.item) && !IsOccupied(c.item, tigers, goats) && c.score == PlacementScore(depth, tigers, goats, c.item)
  }

  /** The empty cells from scan index `k` on, scored. */
  function PlacementCandidatesFrom(depth: nat, tigers: seq<Piece>, goats: seq<Piece>, k: nat): (cs: seq<Scored<Position>>)
    requires k <= Size * Size
    ensures forall c :: c in cs ==> IsPlacementCandidate(depth, tigers, goats, c)
    ensures |cs| == 0 <==> forall j :: k <= j < Size * Size ==> IsOccupied(Cell(j), tigers, goats)
    decreases Size * Size - k
  {
    if k == Size * Size then []
    else
      var here := if !IsOccupied(Cell(k), tigers, goats) then [Scored(Cell(k), PlacementScore(depth, tigers, goats, Cell(k)))] else [];
      here + PlacementCandidatesFrom(depth, tigers, goats, k + 1)
  }

  /** The goat AI's placement: an empty cell of the grid, none exactly when the
      grid is full. */
  function GoatAIPlacement(difficulty: Difficulty, roll: Roll, tigers: seq<Piece>, goats: seq<Piece>): (r: Option<Position>)
    ensures r.Some? ==> OnBoard(r.value) && !IsOccupied(r.value, tigers, goats)
    ensures r.None? <==> forall p :: OnBoard(p) ==> IsOccupied(p, tigers, goats)
  {
    var candidates := PlacementCandidatesFrom(LookaheadDepth(difficulty), tigers, goats, 0);
    GridIsScanned(tigers, goats);
    if |candidates| == 0 then None
    else
      var c := Pick(candidates, ShouldMakeSuboptimalMove(difficulty, roll.chance), PlacementChoiceWidth, roll.pick);
      Some(c.item)
  }

  /** The row-major scan visits exactly the cells of the grid. */
  lemma GridIsScanned(tigers: seq<Piece>, goats: seq<Piece>)
    ensures (forall j :: 0 <= j < Size * Size ==> IsOccupied(Cell(j), tigers, goats))
        <==> (forall p :: OnBoard(p) ==> IsOccupied(p, tigers, goats))
  {
    if forall j :: 0 <= j < Size * Size ==> IsOccupied(Cell(j), tigers, goats) {
      forall p | OnBoard(p)
        ensures IsOccupied(p, tigers, goats)
      {
        var j := p.row * Size + p.col;
        assert Cell(j) == p;
      }
    }
  }

  /** Without the suboptimal roll the placement has the best score of all
      empty cells. */
  lemma GoatAIPlacementPicksBest(difficulty: Difficulty, roll: Roll, tigers: seq<Piece>, goats: seq<Piece>)
    requires !ShouldMakeSuboptimalMove(difficulty, roll.chance)
    ensures GoatAIPlacement(difficulty, roll, tigers, goats).Some? ==>
            var best := GoatAIPlacement(difficulty, roll, tigers, goats).value;
            var depth := LookaheadDepth(difficulty);
            forall c :: c in PlacementCandidatesFrom(depth, tigers, goats, 0) ==>
              c.score <= PlacementScore(depth, tigers, goats, best)
  {
    if GoatAIPlacement(difficulty, roll, tigers, goats).Some? {
      var depth := LookaheadDepth(difficulty);
      var candidates := PlacementCandidatesFrom(depth, tigers, goats, 0);
      var c := Pick(candidates, false, PlacementChoiceWidth, roll.pick);
      assert IsPlacementCandidate(depth, tigers, goats, c);
    }
  }

  // ---------------------------------------------------------------------------
  // Goat moves

  /** 50 minus twice the tigers' total mobility after the move, +30 per fully
      trapped tiger, at depth 2 +15 per tiger left with at most two moves, -45
      when a tiger could capture the moved goat, plus centrality. */
  function GoatMoveScore(depth: nat, tigers: seq<Piece>, goats: seq<Piece>, i: nat, move: Position): int
    requires i < |goats|
  {
    var tempGoats := goats[i := goats[i].(pos := move)];
    var canBeCaptured := exists t :: t in tigers && JumpsOver(t.pos, ValidMoves(t, tigers, tempGoats), move) > 0;
    50 - Mobility(tigers, tempGoats) * 2
    + TrappedTigers(tigers, tempGoats) * 30
    + (if depth >= 2 then 15 * NearlyTrapped(tigers, tempGoats) else 0)
    - (if canBeCaptured then 45 else 0)
    + (4 - CenterDistance(move))
  }

  /** The tigers' total number of targets. */
  function Mobility(tigers: seq<Piece>, goats: seq<Piece>): int {
    SumOver(tigers, (t: Piece) => |ValidMoves(t, tigers, goats)|)
  }

  /** The number of tigers without a target. */
  function TrappedTigers(tigers: seq<Piece>, goats: seq<Piece>): int {
    SumOver(tigers, (t: Piece) => if |ValidMoves(t, tigers, goats)| == 0 then 1 else 0)
  }

  /** The number of tigers with at most two targets. */
  function NearlyTrapped(tigers: seq<Piece>, goats: seq<Piece>): int {
    SumOver(tigers, (t: Piece) => if |ValidMoves(t, tigers, goats)| <= 2 then 1 else 0)
  }

  /** Every tiger trapped. */
  predicate AllTrapped(tigers: seq<Piece>, goats: seq<Piece>) {
    forall t :: t in tigers ==> ValidMoves(t, tigers, goats) == []
  }

  /** A sum of terms each at most `hi` is at most `hi * n`, and less when the
      term at `k` falls short. */
  lemma {:induction false} SumOverAtMost<T>(xs: seq<T>, f: T -> int, hi: int, k: int)
    requires forall m :: 0 <= m < |xs| ==> f(xs[m]) <= hi
    ensures SumOver(xs, f) <= hi * |xs|
    ensures 0 <= k < |xs| && f(xs[k]) < hi ==> SumOver(xs, f) < hi * |xs|
  {
    if |xs| > 0 {
      assert forall m :: 0 <= m < |xs[1..]| ==> xs[1..][m] == xs[m + 1];
      SumOverAtMost(xs[1..], f, hi, k - 1);
      assert hi * |xs| == hi + hi * |xs[1..]|;
    }
  }

  /** A sum of terms each at least `lo` is at least `lo * n`, and more when
      the term at `k` exceeds it. */
  lemma {:induction false} SumOverAtLeast<T>(xs: seq<T>, f: T -> int, lo: int, k: int)
    requires forall m :: 0 <= m < |xs| ==> f(xs[m]) >= lo
    ensures SumOver(xs, f) >= lo * |xs|
    ensures 0 <= k < |xs| && f(xs[k]) > lo ==> SumOver(xs, f) > lo * |xs|
  {
    if |xs| > 0 {
      assert forall m :: 0 <= m < |xs[1..]| ==> xs[1..][m] == xs[m + 1];
      SumOverAtLeast(xs[1..], f, lo, k - 1);
      assert lo * |xs| == lo + lo * |xs[1..]|;
    }
  }

  /** With every tiger trapped the tigers have no mobility, all of them
      count as trapped and as nearly trapped, and none can capture anything. */
  lemma AllTrappedCounts(tigers: seq<Piece>, goats: seq<Piece>, pos: Position)
    requires AllTrapped(tigers, goats)
    ensures Mobility(tigers, goats) == 0
    ensures TrappedTigers(tigers, goats) == |tigers| && NearlyTrapped(tigers, goats) == |tigers|
    ensures !exists t :: t in tigers && JumpsOver(t.pos, ValidMoves(t, tigers, goats), pos) > 0
  {
    assert forall m :: 0 <= m < |tigers| ==> tigers[m] in tigers;
    SumOverAtMost(tigers, (t: Piece) => |ValidMoves(t, tigers, goats)|, 0, -1);
    SumOverAtLeast(tigers, (t: Piece) => |ValidMoves(t, tigers, goats)|, 0, -1);
    SumOverAtMost(tigers, (t: Piece) => if |ValidMoves(t, tigers, goats)| == 0 then 1 else 0, 1, -1);
    SumOverAtLeast(tigers, (t: Piece) => if |ValidMoves(t, tigers, goats)| == 0 then 1 else 0, 1, -1);
    SumOverAtMost(tigers, (t: Piece) => if |ValidMoves(t, tigers, goats)| <= 2 then 1 else 0, 1, -1);
    SumOverAtLeast(tigers, (t: Piece) => if |ValidMoves(t, tigers, goats)| <= 2 then 1 else 0, 1, -1);
  }

  /** With some tiger left a target the tigers have some mobility, at least
      one tiger is not trapped, and at most all of them are nearly trapped. */
  lemma SomeFreeCounts(tigers: seq<Piece>, goats: seq<Piece>)
    requires !AllTrapped(tigers, goats)
    ensures Mobility(tigers, goats) >= 1
    ensures TrappedTigers(tigers, goats) <= |tigers| - 1 && NearlyTrapped(tigers, goats) <= |tigers|
  {
    var t0 :| t0 in tigers && ValidMoves(t0, tigers, goats) != [];
    var k :| 0 <= k < |tigers| && tigers[k] == t0;
    SumOverAtLeast(tigers, (t: Piece) => |ValidMoves(t, tigers, goats)|, 0, k);
    SumOverAtMost(tigers, (t: Piece) => if |ValidMoves(t, tigers, goats)| == 0 then 1 else 0, 1, k);
    SumOverAtMost(tigers, (t: Piece) => if |ValidMoves(t, tigers, goats)| <= 2 then 1 else 0, 1, -1);
  }

  /** A goat move that traps every tiger outscores, at any depth, every goat
      move that leaves some tiger a target. The trapping move is a legal
      target, so it lies on the board; the trap gains 30 for each tiger
      and loses nothing to mobility or to the capture penalty, which more
      than covers the at most 4 points centrality can differ by. */
  lemma TrapOutscoresEveryOtherMove(depth: nat, tigers: seq<Piece>, goats: seq<Piece>,
                                    i: nat, trap: Position, j: nat, other: Position)
    requires i < |goats| && j < |goats|
    requires trap in ValidMoves(goats[i], tigers, goats)
    requires AllTrapped(tigers, goats[i := goats[i].(pos := trap)])
    requires !AllTrapped(tigers, goats[j := goats[j].(pos := other)])
    ensures GoatMoveScore(depth, tigers, goats, i, trap) > GoatMoveScore(depth, tigers, goats, j, other)
  {
    ValidMovesOnBoardAndEmpty(goats[i], tigers, goats);
    assert CenterDistance(trap) <= 4;
    AllTrappedCounts(tigers, goats[i := goats[i].(pos := trap)], trap);
    SomeFreeCounts(tigers, goats[j := goats[j].(pos := other)]);
  }

  ghost predicate IsGoatCandidate(depth: nat, tigers: seq<Piece>, goats: seq<Piece>, c: Scored<GoatMove>) {
    exists j :: 0 <= j < |goats| && c.item.goat == goats[j] && c.item.to in ValidMoves(goats[j], tigers, goats)
                && c.score == GoatMoveScore(depth, tigers, goats, j, c.item.to)
  }

  function ScoreGoatMoves(depth: nat, tigers: seq<Piece>, goats: seq<Piece>, i: nat, ms: seq<Position>): seq<Scored<GoatMove>>
    requires i < |goats|
  {
    seq(|ms|, k requires 0 <= k < |ms| => Scored(GoatMove(goats[i], ms[k]), GoatMoveScore(depth, tigers, goats, i, ms[k])))
  }

  function GoatCandidatesFrom(depth: nat, tigers: seq<Piece>, goats: seq<Piece>, i: nat): (cs: seq<Scored<GoatMove>>)
    requires i <= |goats|
    ensures forall c :: c in cs ==> IsGoatCandidate(depth, tigers, goats, c)
    ensures |cs| == 0 <==> forall j :: i <= j < |goats| ==> ValidMoves(goats[j], tigers, goats) == []
    decreases |goats| - i
  {
    if i == |goats| then []
    else
      var here := ScoreGoatMoves(depth, tigers, goats, i, ValidMoves(goats[i], tigers, goats));
      var rest := GoatCandidatesFrom(depth, tigers, goats, i + 1);
      assert forall c :: c in here ==> IsGoatCandidate(depth, tigers, goats, c) by {
        forall c | c in here
          ensures IsGoatCandidate(depth, tigers, goats, c)
        {
          var k :| 0 <= k < |here| && here[k] == c;
        }
      }
      here + rest
  }

  /** The goat AI's movement-phase decision: none exactly when no goat can
      move; otherwise one step of a goat on the board. */
  function GoatAIMove(difficulty: Difficulty, roll: Roll, tigers: seq<Piece>, goats: seq<Piece>): (r: Option<GoatMove>)
    ensures r.None? <==> forall g :: g in goats ==> ValidMoves(g, tigers, goats) == []
    ensures r.Some? ==> r.value.goat in goats && r.value.to in ValidMoves(r.value.goat, tigers, goats)
    ensures r.Some? && r.value.goat.side == Goat ==> IsStep(r.value.goat.pos, r.value.to)
  {
    var candidates := GoatCandidatesFrom(LookaheadDepth(difficulty), tigers, goats, 0);
    assert (forall g :: g in goats ==> ValidMoves(g, tigers, goats) == [])
       <==> (forall j :: 0 <= j < |goats| ==> ValidMoves(goats[j], tigers, goats) == []);
    if |candidates| == 0 then None
    else
      var c := Pick(candidates, ShouldMakeSuboptimalMove(difficulty, roll.chance), GoatChoiceWidth, roll.pick);
      assert IsGoatCandidate(LookaheadDepth(difficulty), tigers, goats, c);
      assert c.item.goat.side == Goat ==> IsStep(c.item.goat.pos, c.item.to) by {
        if c.item.goat.side == Goat {
          GoatTargetsAreSteps(c.item.goat, tigers, goats);
        }
      }
      Some(c.item)
  }

  /** Without the suboptimal roll the goat move has the best score of all
      enumerated goat moves. */
  lemma GoatAIMovePicksBest(difficulty: Difficulty, roll: Roll, tigers: seq<Piece>, goats: seq<Piece>)
    requires !ShouldMakeSuboptimalMove(difficulty, roll.chance)
    requires GoatAIMove(difficulty, roll, tigers, goats).Some?
    ensures exists c :: c in GoatCandidatesFrom(LookaheadDepth(difficulty), tigers, goats, 0)
                        && c.item == GoatAIMove(difficulty, roll, tigers, goats).value
                        && forall d :: d in GoatCandidatesFrom(LookaheadDepth(difficulty), tigers, goats, 0) ==> d.score <= c.score
  {
    var candidates := GoatCandidatesFrom(LookaheadDepth(difficulty), tigers, goats, 0);
    var c := Pick(candidates, false, GoatChoiceWidth, roll.pick);
    assert c.item == GoatAIMove(difficulty, roll, tigers, goats).value;
  }

  /** Every legal step of the goat at index `j` is among the candidates
      enumerated from any index up to `j`, with its score. */
  lemma {:induction false} GoatMoveIsCandidate(depth: nat, tigers: seq<Piece>, goats: seq<Piece>, i: nat, j: nat, to: Position)
    requires i <= j < |goats| && to in ValidMoves(goats[j], tigers, goats)
    ensures Scored(GoatMove(goats[j], to), GoatMoveScore(depth, tigers, goats, j, to)) in GoatCandidatesFrom(depth, tigers, goats, i)
    decreases j - i
  {
    var ms := ValidMoves(goats[i], tigers, goats);
    var here := ScoreGoatMoves(depth, tigers, goats, i, ms);
    var rest := GoatCandidatesFrom(depth, tigers, goats, i + 1);
    assert GoatCandidatesFrom(depth, tigers, goats, i) == here + rest;
    if i == j {
      var k :| 0 <= k < |ms| && ms[k] == to;
      assert here[k] in here;
    } else {
      GoatMoveIsCandidate(depth, tigers, goats, i + 1, j, to);
    }
  }

  /** Without the suboptimal roll, when some goat step traps every tiger, the
      goat AI plays a step that traps every tiger. */
  lemma GoatAIPrefersTrap(difficulty: Difficulty, roll: Roll, tigers: seq<Piece>, goats: seq<Piece>, j: nat, to: Position)
    requires !ShouldMakeSuboptimalMove(difficulty, roll.chance)
    requires j < |goats| && to in ValidMoves(goats[j], tigers, goats)
    requires AllTrapped(tigers, goats[j := goats[j].(pos := to)])
    ensures GoatAIMove(difficulty, roll, tigers, goats).Some?
    ensures var m := GoatAIMove(difficulty, roll, tigers, goats).value;
            exists k :: 0 <= k < |goats| && goats[k] == m.goat && m.to in ValidMoves(goats[k], tigers, goats)
                        && AllTrapped(tigers, goats[k := goats[k].(pos := m.to)])
  {
    var depth := LookaheadDepth(difficulty);
    var candidates := GoatCandidatesFrom(depth, tigers, goats, 0);
    GoatMoveIsCandidate(depth, tigers, goats, 0, j, to);
    var cj := Scored(GoatMove(goats[j], to), GoatMoveScore(depth, tigers, goats, j, to));
    assert goats[j] in goats;
    GoatAIMovePicksBest(difficulty, roll, tigers, goats);
    var c: Scored<GoatMove> :| c in candidates && c.item == GoatAIMove(difficulty, roll, tigers, goats).value
                                && forall d :: d in candidates ==> d.score <= c.score;
    assert IsGoatCandidate(depth, tigers, goats, c);
    var k :| 0 <= k < |goats| && c.item.goat == goats[k] && c.item.to in ValidMoves(goats[k], tigers, goats)
             && c.score == GoatMoveScore(depth, tigers, goats, k, c.item.to);
    if !AllTrapped(tigers, goats[k := goats[k].(pos := c.item.to)]) {
      TrapOutscoresEveryOtherMove(depth, tigers, goats, j, to, k, c.item.to);
      assert cj.score <= c.score;
      assert false;
    }
  }
}
