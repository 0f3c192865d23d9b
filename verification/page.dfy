/**
 * The page that ties the game, the peer session and the turn timer together:
 * whose turn it is on this peer, the gating of clicks in a networked game,
 * applying a received snapshot, describing the move just made for the other
 * peer's animation, the time-up skip and the rematch role swap.
 *
 * Each handler is atomic here. React's effects are reduced to what they send:
 * a click that changes the board sends one snapshot, and a host whose role
 * changes while connected sends the current position.
 */
module Page {
  import opened Options
  import opened Rules
  import opened Pieces
  import opened GameLogic
  import opened Session
  import opened TurnTimer

  /** What one peer's page holds: its game, its session, the role it chose or
      was given, the move being animated, and its countdown. */
  datatype PageState = PageState(
    game: GameState,
    session: Session,
    lanRole: Option<Role>,
    animation: Option<MoveAnimation>,
    countdown: Countdown)

  // ---------------------------------------------------------------------------
  // Whose turn it is

  /** The role this page acts under: the one it set itself, else the session's. */
  function EffectiveRole(p: PageState): (r: Option<Role>)
    ensures p.lanRole.Some? ==> r == p.lanRole
    ensures p.lanRole.None? ==> r == p.session.role
  {
    if p.lanRole.Some? then p.lanRole else p.session.role
  }

  predicate IsLANMode(p: PageState) {
    p.session.connection == Connected
  }

  /** Connected, and playing the side to move: never a spectator, and not
      playing the other side, so passing the turn takes it away. */
  predicate IsMyTurn(p: PageState)
    ensures IsMyTurn(p) ==> !IsSpectator(p)
    ensures IsMyTurn(p) ==> EffectiveRole(p) != Some(Plays(p.game.board.turn.Other()))
  {
    IsLANMode(p) && EffectiveRole(p) == Some(Plays(p.game.board.turn))
  }

  predicate IsSpectator(p: PageState) {
    EffectiveRole(p) == Some(Spectator)
  }

  /** Two connected peers playing opposite sides on the same position: exactly
      one of them is to move. */
  lemma TurnsAreExclusive(a: PageState, b: PageState, side: Side)
    requires IsLANMode(a) && IsLANMode(b)
    requires EffectiveRole(a) == Some(Plays(side)) && EffectiveRole(b) == Some(Plays(side.Other()))
    requires a.game.board.turn == b.game.board.turn
    ensures IsMyTurn(a) <==> !IsMyTurn(b)
  {
  }

  // ---------------------------------------------------------------------------
  // The countdown's reaction to the page

  /** The countdown has seen the turn the game shows. */
  predicate TimerInSync(p: PageState) {
    p.countdown.lastTurn == p.game.board.turn
  }

  /** The turn timer's two restarts after a transition from `before` to
      `after`: a turn it has not seen yet, or a new duration, starts the count
      over at the duration; otherwise the countdown is left as it was. */
  function TimerEffects(before: PageState, after: PageState): (r: PageState)
    ensures r == after.(countdown := r.countdown)
    ensures TimerInSync(r)
    ensures after.game.board.turn != after.countdown.lastTurn
            || after.session.timerSettings.seconds != before.session.timerSettings.seconds ==>
              r.countdown.timeLeft == after.session.timerSettings.seconds
    ensures after.game.board.turn == after.countdown.lastTurn
            && after.session.timerSettings.seconds == before.session.timerSettings.seconds ==>
              r.countdown == after.countdown
  {
    var secs := after.session.timerSettings.seconds;
    var c := ObserveTurn(after.countdown, after.game.board.turn, secs);
    after.(countdown := if secs != before.session.timerSettings.seconds then ResetTimer(c, secs) else c)
  }

  /** On a page whose countdown has seen the current turn, a transition that
      changes the turn or the duration restarts the count at the duration
      for the new turn, and one that changes neither leaves the countdown
      alone. */
  lemma TimerEffectsRestartOnChange(before: PageState, after: PageState)
    requires TimerInSync(before) && after.countdown == before.countdown
    ensures var r := TimerEffects(before, after);
            var secs := after.session.timerSettings.seconds;
            && (after.game.board.turn != before.game.board.turn || secs != before.session.timerSettings.seconds ==>
                  r.countdown == Countdown(secs, after.game.board.turn))
            && (after.game.board.turn == before.game.board.turn && secs == before.session.timerSettings.seconds ==>
                  r.countdown == before.countdown)
  {
  }

  // ---------------------------------------------------------------------------
  // Time up

  /** When the countdown runs out on the peer to move, the turn passes to the
      other side and the countdown starts over for it; the pieces and
      everything else stay as they are. */
  function HandleTimeUp(p: PageState): (r: PageState)
    ensures !IsMyTurn(p) || p.game.gameOver.Some? ==> r == p.(countdown := r.countdown) && TimerInSync(r)
    ensures (!IsMyTurn(p) || p.game.gameOver.Some?) && TimerInSync(p) ==> r == p
    ensures IsMyTurn(p) && p.game.gameOver.None? ==>
              && r.game == p.game.(board := p.game.board.(turn := p.game.board.turn.Other()))
              && r == p.(game := r.game, countdown := r.countdown)
              && !IsMyTurn(r)
    ensures TimerInSync(p) && IsMyTurn(p) && p.game.gameOver.None? ==>
              r.countdown == Countdown(p.session.timerSettings.seconds, r.game.board.turn)
  {
    if IsMyTurn(p) && p.game.gameOver.None? then
      TimerEffects(p, p.(game := p.game.(board := p.game.board.(turn := p.game.board.turn.Other()))))
    else TimerEffects(p, p)
  }

  /** As written, a time-up on a networked page flips only its own turn: no
      cell was clicked, so the flag is down and the send effect stays silent.
      Afterwards neither peer is to move, their turns disagree, every click on
      either page is refused and the other peer's own time-up does nothing. */
  lemma TimeUpStallsAsWritten(mover: PageState, other: PageState, side: Side)
    requires IsLANMode(mover) && IsLANMode(other)
    requires EffectiveRole(mover) == Some(Plays(side)) && EffectiveRole(other) == Some(Plays(side.Other()))
    requires mover.game.board.turn == side && other.game.board.turn == side
    requires mover.game.gameOver.None?
    ensures var mover' := HandleTimeUp(mover);
            && MoveEffect(mover', false, mover.game.board).None?
            && !IsMyTurn(mover') && !IsMyTurn(other)
            && mover'.game.board.turn != other.game.board.turn
            && (forall row, col :: WrappedNodeClick(mover', row, col) == (mover', None))
            && (forall row, col :: WrappedNodeClick(other, row, col) == (other, None))
            && HandleTimeUp(other).game == other.game
  {
  }

  /** The time-up as it is evidently meant: the turn passes as before, and a
      page that passed it also sends its position, so the other peer learns
      whose turn it is. */
  function HandleTimeUpCorrected(p: PageState): (r: (PageState, Option<Message>))
    ensures r.0 == HandleTimeUp(p)
    ensures r.1.Some? <==> IsMyTurn(p) && p.game.gameOver.None?
    ensures r.1.Some? ==> r.1.value.GameStateMsg? && r.1.value.snapshot.board == r.0.game.board
                          && r.1.value.snapshot.board.turn == p.game.board.turn.Other()
                          && r.1.value.snapshot.lastMove.None?
  {
    var q := HandleTimeUp(p);
    if IsMyTurn(p) && p.game.gameOver.None? then (q, Some(GameStateMsg(SnapshotOf(q, None)))) else (q, None)
  }

  /** With the position sent, a time-up on the host hands the turn to the
      guest: once the guest has the snapshot it is to move and the host is
      not, on the same board. */
  lemma TimeUpHandsTurnOver(host: PageState, guest: PageState, side: Side)
    requires IsLANMode(host) && IsLANMode(guest) && guest.session.listening
    requires host.session.isHost && !guest.session.isHost
    requires host.lanRole == Some(Plays(side)) && EffectiveRole(guest) == Some(Plays(side.Other()))
    requires host.game.board.turn == side && host.game.gameOver.None?
    ensures var (host', msg) := HandleTimeUpCorrected(host);
            var guest' := Receive(guest, msg.value);
            && !IsMyTurn(host')
            && IsMyTurn(guest')
            && guest'.game.board == host'.game.board
  {
    var (host', msg) := HandleTimeUpCorrected(host);
    assert msg.value.snapshot.hostRole == Some(Plays(side));
    assert GuestSide(Plays(side)) == side.Other();
  }

  // ---------------------------------------------------------------------------
  // Applying a received snapshot

  /** The role a guest derives from a snapshot: the side opposite the host's,
      when the snapshot names the host's role and this page is neither the
      host nor a spectator. */
  function RoleFromSnapshot(p: PageState, snap: Snapshot): (r: Option<Role>)
    ensures snap.hostRole.Some? && !p.session.isHost && !IsSpectator(p) ==>
              r == Some(Plays(GuestSide(snap.hostRole.value)))
    ensures snap.hostRole.None? || p.session.isHost || IsSpectator(p) ==> r == p.lanRole
  {
    if snap.hostRole.Some? && !p.session.isHost && !IsSpectator(p)
    then Some(Plays(GuestSide(snap.hostRole.value)))
    else p.lanRole
  }

  /** A snapshot applied as the page's handler applies it: the board is
      replaced, but an outcome is taken over only when the snapshot carries
      one. */
  function HandleReceiveGameStateAsWritten(p: PageState, snap: Snapshot): (r: PageState)
    ensures r.game.board == snap.board
    ensures snap.gameOver.Some? ==> r.game.gameOver == snap.gameOver
    ensures snap.gameOver.None? ==> r.game.gameOver == p.game.gameOver
    ensures r.game.selected == p.game.selected && r.game.mode == p.game.mode
    ensures r.session == p.session && r.countdown == p.countdown
    ensures r.lanRole == RoleFromSnapshot(p, snap)
    ensures snap.lastMove.Some? ==> r.animation == snap.lastMove
    ensures snap.lastMove.None? ==> r.animation == p.animation
  {
    var game := p.game.(board := snap.board, gameOver := if snap.gameOver.Some? then snap.gameOver else p.game.gameOver);
    p.(game := game,
       lanRole := RoleFromSnapshot(p, snap),
       animation := if snap.lastMove.Some? then snap.lastMove else p.animation)
  }

  /** A snapshot applied wholesale, as the handler evidently means it: board
      and outcome both become the sender's, so the last snapshot received
      decides the game as shown. */
  function HandleReceiveGameState(p: PageState, snap: Snapshot): (r: PageState)
    ensures r.game.board == snap.board && r.game.gameOver == snap.gameOver
    ensures r.game.selected == p.game.selected && r.game.mode == p.game.mode
    ensures r.session == p.session && r.countdown == p.countdown
    ensures r.lanRole == RoleFromSnapshot(p, snap)
    ensures snap.lastMove.Some? ==> r.animation == snap.lastMove
    ensures snap.lastMove.None? ==> r.animation == p.animation
  {
    p.(game := p.game.(board := snap.board, gameOver := snap.gameOver),
       lanRole := RoleFromSnapshot(p, snap),
       animation := if snap.lastMove.Some? then snap.lastMove else p.animation)
  }

  /** A message arriving on the main link: the session's reducer runs, a
      snapshot it hands over is applied to the page, the outcome only when the
      snapshot carries one, and the countdown reacts to the new turn or
      duration. */
  function Receive(p: PageState, msg: Message): (r: PageState)
    ensures r.session == HandleMessage(p.session, msg, false).session
    ensures !msg.GameStateMsg? || !p.session.listening ==> r == p.(session := r.session, countdown := r.countdown)
    ensures TimerInSync(r)
    ensures TimerInSync(p) && (r.game.board.turn != p.game.board.turn
                               || r.session.timerSettings.seconds != p.session.timerSettings.seconds) ==>
              r.countdown == Countdown(r.session.timerSettings.seconds, r.game.board.turn)
    ensures (TimerInSync(p) && r.game.board.turn == p.game.board.turn
             && r.session.timerSettings.seconds == p.session.timerSettings.seconds) ==>
              r.countdown == p.countdown
    ensures msg.GameStateMsg? && p.session.listening ==>
              && r.game.board == msg.snapshot.board
              && (msg.snapshot.gameOver.Some? ==> r.game.gameOver == msg.snapshot.gameOver)
              && (msg.snapshot.gameOver.None? ==> r.game.gameOver == p.game.gameOver)
              && r.lanRole == RoleFromSnapshot(p, msg.snapshot)
  {
    var got := HandleMessage(p.session, msg, false);
    var q := p.(session := got.session);
    TimerEffects(p, if got.delivered.Some? then HandleReceiveGameStateAsWritten(q, got.delivered.value) else q)
  }

  /** The receiving page with both corrections: the reducer keeps a host's
      timer settings, and a snapshot replaces the outcome as well. */
  function ReceiveCorrected(p: PageState, msg: Message): (r: PageState)
    ensures r.session == HandleMessageCorrected(p.session, msg, false).session
    ensures !msg.GameStateMsg? || !p.session.listening ==> r == p.(session := r.session, countdown := r.countdown)
    ensures TimerInSync(r)
    ensures TimerInSync(p) && (r.game.board.turn != p.game.board.turn
                               || r.session.timerSettings.seconds != p.session.timerSettings.seconds) ==>
              r.countdown == Countdown(r.session.timerSettings.seconds, r.game.board.turn)
    ensures msg.GameStateMsg? && p.session.listening ==>
              r.game.board == msg.snapshot.board && r.game.gameOver == msg.snapshot.gameOver
  {
    var got := HandleMessageCorrected(p.session, msg, false);
    var q := p.(session := got.session);
    TimerEffects(p, if got.delivered.Some? then HandleReceiveGameState(q, got.delivered.value) else q)
  }

  /** As written, of two snapshots received one after the other the second
      decides the board, but the outcome shown is the latest one either of
      them carried, and the page's own when neither carried one. */
  lemma LaterSnapshotsAsWritten(p: PageState, first: Snapshot, second: Snapshot)
    ensures var r := HandleReceiveGameStateAsWritten(HandleReceiveGameStateAsWritten(p, first), second);
            && r.game.board == second.board
            && r.game.gameOver == (if second.gameOver.Some? then second.gameOver
                                   else if first.gameOver.Some? then first.gameOver
                                   else p.game.gameOver)
  {
  }

  /** With snapshots applied wholesale, of two received one after the other
      the second decides the board and the outcome; nothing of the first is
      kept. */
  lemma LastSnapshotWins(p: PageState, first: Snapshot, second: Snapshot)
    ensures var r := HandleReceiveGameState(HandleReceiveGameState(p, first), second);
            r.game.board == second.board && r.game.gameOver == second.gameOver
            && r.game == HandleReceiveGameState(p, second).game
  {
  }

  /** As written, an outcome survives a later snapshot of a game in progress:
      a peer that saw the game end keeps showing it, and refuses input, after
      the other peer has started the next game. */
  lemma OutcomeSurvivesAsWritten(p: PageState, restart: Snapshot)
    requires p.game.gameOver == Some(TigersWinText)
    requires restart.gameOver.None? && restart.board == InitialBoard
    ensures var r := HandleReceiveGameStateAsWritten(p, restart);
            && r.game.gameOver == Some(TigersWinText) != restart.gameOver
            && InputBlocked(r.game)
            && HandleNodeClick(r.game, 2, 2) == r.game
  {
  }

  /** With the snapshot applied wholesale, the same peer follows the other
      into the new game. */
  lemma OutcomeClearedByFreshSnapshot(p: PageState, restart: Snapshot)
    requires p.game.gameOver == Some(TigersWinText) && p.game.mode == Pvp && !p.game.aiThinking
    requires restart.gameOver.None? && restart.board == InitialBoard
    ensures var r := HandleReceiveGameState(p, restart);
            && r.game.gameOver.None?
            && !InputBlocked(r.game)
  {
  }

  // ---------------------------------------------------------------------------
  // Describing the move just made

  /** The first index at which the two lists hold pieces on different cells,
      within the length of both. */
  function FirstMoved(now: seq<Piece>, prev: seq<Piece>, from: nat): (r: Option<nat>)
    requires from <= |now|
    ensures r.Some? ==> from <= r.value < |now| && r.value < |prev| && now[r.value].pos != prev[r.value].pos
                        && forall k :: from <= k < r.value ==> now[k].pos == prev[k].pos
    ensures r.None? ==> forall k :: from <= k < |now| && k < |prev| ==> now[k].pos == prev[k].pos
    decreases |now| - from
  {
    if from == |now| || from >= |prev| then None
    else if now[from].pos != prev[from].pos then Some(from)
    else FirstMoved(now, prev, from + 1)
  }

  /** The first piece of `prev` whose cell holds no piece of `now`. */
  function FirstVacated(prev: seq<Piece>, now: seq<Piece>, from: nat): (r: Option<Piece>)
    requires from <= |prev|
    ensures r.Some? ==> exists k :: from <= k < |prev| && prev[k] == r.value && !PieceAt(r.value.pos, now)
    ensures r.None? ==> forall k :: from <= k < |prev| ==> PieceAt(prev[k].pos, now)
    decreases |prev| - from
  {
    if from == |prev| then None
    else if !PieceAt(prev[from].pos, now) then Some(prev[from])
    else FirstVacated(prev, now, from + 1)
  }

  /** The cell of the goat a tiger move from `from` to `to` jumps over, if the
      row or the column moved by two. */
  function CapturedAt(from: Position, to: Position): Option<Position> {
    if IsJumpDelta(from, to) then Some(Midpoint(from, to)) else None
  }

  /** The animation sent with a snapshot, found by comparing the pieces before
      and after: a tiger that moved, else a goat that moved, else a goat that
      was added. Nothing when none of these is found. */
  function DeriveMoveAnimation(before: Board, after: Board): (r: Option<MoveAnimation>)
    ensures r.Some? && r.value.pieceType == Tiger ==>
              && PieceAt(r.value.to, after.tigers)
              && !PieceAt(r.value.from, after.tigers)
              && r.value.capturedAt == CapturedAt(r.value.from, r.value.to)
    ensures r.Some? && r.value.pieceType == Goat ==> r.value.capturedAt.None? && PieceAt(r.value.to, after.goats)
  {
    var movedTiger := FirstMoved(after.tigers, before.tigers, 0);
    var movedGoat := FirstMoved(after.goats, before.goats, 0);
    if movedTiger.Some? then
      var to := after.tigers[movedTiger.value].pos;
      assert after.tigers[movedTiger.value] in after.tigers;
      match FirstVacated(before.tigers, after.tigers, 0)
      case Some(t) => Some(MoveAnimation(Tiger, t.pos, to, CapturedAt(t.pos, to)))
      case None => None
    else if movedGoat.Some? then
      var to := after.goats[movedGoat.value].pos;
      assert after.goats[movedGoat.value] in after.goats;
      match FirstVacated(before.goats, after.goats, 0)
      case Some(g) => Some(MoveAnimation(Goat, g.pos, to, None))
      case None => None
    else if |after.goats| > |before.goats| then
      var g := after.goats[|after.goats| - 1];
      assert g in after.goats;
      Some(MoveAnimation(Goat, g.pos, g.pos, None))
    else None
  }

  /** The only index at which a move changes a list of distinct pieces is the
      index of the moved piece; every other piece stays where it was. */
  lemma MoveFromChangesOne(ps: seq<Piece>, k: nat, to: Position)
    requires Distinct(ps) && k < |ps| && !PieceAt(to, ps)
    ensures var r := MoveFrom(ps, ps[k].pos, to);
            && |r| == |ps| && r[k].pos == to && r[k].pos != ps[k].pos
            && (forall j :: 0 <= j < |ps| && j != k ==> r[j] == ps[j])
            && FirstMoved(r, ps, 0) == Some(k)
            && FirstVacated(ps, r, 0) == Some(ps[k])
  {
    var r := MoveFrom(ps, ps[k].pos, to);
    assert ps[k] in ps;
    FirstMovedIs(r, ps, 0, k);
    forall j | 0 <= j < |ps| && j != k
      ensures PieceAt(ps[j].pos, r)
    {
      assert r[j] == ps[j] && r[j] in r;
    }
    assert !PieceAt(ps[k].pos, r) by {
      forall q | q in r
        ensures q.pos != ps[k].pos
      {
        var j :| 0 <= j < |r| && r[j] == q;
        if j == k {
          assert q.pos == to;
        } else {
          assert q == ps[j];
        }
      }
    }
    FirstVacatedIs(ps, r, 0, k);
  }

  /** `FirstMoved` finds an index when every earlier index agrees. */
  lemma {:induction false} FirstMovedIs(now: seq<Piece>, prev: seq<Piece>, from: nat, k: nat)
    requires from <= k < |now| && k < |prev| && now[k].pos != prev[k].pos
    requires forall j :: from <= j < k ==> now[j].pos == prev[j].pos
    ensures FirstMoved(now, prev, from) == Some(k)
    decreases k - from
  {
    if from < k {
      FirstMovedIs(now, prev, from + 1, k);
    }
  }

  /** `FirstVacated` finds a piece when every earlier piece's cell is still
      occupied. */
  lemma {:induction false} FirstVacatedIs(prev: seq<Piece>, now: seq<Piece>, from: nat, k: nat)
    requires from <= k < |prev| && !PieceAt(prev[k].pos, now)
    requires forall j :: from <= j < k ==> PieceAt(prev[j].pos, now)
    ensures FirstVacated(prev, now, from) == Some(prev[k])
    decreases k - from
  {
    if from < k {
      FirstVacatedIs(prev, now, from + 1, k);
    }
  }

  /** Pieces that stayed put show no move. */
  lemma {:induction false} FirstMovedSame(ps: seq<Piece>, from: nat)
    requires from <= |ps|
    ensures FirstMoved(ps, ps, from).None?
    decreases |ps| - from
  {
    if from < |ps| {
      FirstMovedSame(ps, from + 1);
    }
  }

  /** A placed goat is shown as a goat appearing on its cell. */
  lemma AnimatesPlacement(b: Board, at: Position)
    ensures DeriveMoveAnimation(b, PlaceGoat(b, at)) == Some(MoveAnimation(Goat, at, at, None))
  {
    var a := PlaceGoat(b, at);
    FirstMovedSame(b.tigers, 0);
    assert FirstMoved(a.goats, b.goats, 0).None?;
  }

  /** A tiger's move is shown from its cell to its target, with the jumped
      goat's cell when it captures; that cell held a goat before the move and
      holds none after it. */
  lemma AnimatesTigerMove(b: Board, t: Piece, to: Position)
    requires Consistent(b) && t in b.tigers && to in ValidMoves(t, b.tigers, b.goats)
    ensures var a := ApplyMove(b, t, to);
            var anim := DeriveMoveAnimation(b, a);
            && anim == Some(MoveAnimation(Tiger, t.pos, to, CapturedAt(t.pos, to)))
            && (anim.value.capturedAt.Some? ==>
                  PieceAt(anim.value.capturedAt.value, b.goats) && !PieceAt(anim.value.capturedAt.value, a.goats))
  {
    var k :| 0 <= k < |b.tigers| && b.tigers[k] == t;
    ValidMovesOnBoardAndEmpty(t, b.tigers, b.goats);
    MoveFromChangesOne(b.tigers, k, to);
    if IsJumpDelta(t.pos, to) {
      JumpLandsOverGoat(t, to, b.tigers, b.goats);
    }
  }

  /** A goat's move is shown from its cell to its target, capturing nothing. */
  lemma AnimatesGoatMove(b: Board, g: Piece, to: Position)
    requires Consistent(b) && g in b.goats && to in ValidMoves(g, b.tigers, b.goats)
    ensures DeriveMoveAnimation(b, ApplyMove(b, g, to)) == Some(MoveAnimation(Goat, g.pos, to, None))
  {
    var k :| 0 <= k < |b.goats| && b.goats[k] == g;
    ValidMovesOnBoardAndEmpty(g, b.tigers, b.goats);
    MoveFromChangesOne(b.goats, k, to);
    FirstMovedSame(b.tigers, 0);
  }

  /** A tiger target two cells away jumps a goat that the move removes. */
  lemma JumpLandsOverGoat(t: Piece, to: Position, tigers: seq<Piece>, goats: seq<Piece>)
    requires t.side == Tiger && to in ValidMoves(t, tigers, goats) && IsJumpDelta(t.pos, to)
    ensures PieceAt(Midpoint(t.pos, to), goats)
    ensures !PieceAt(Midpoint(t.pos, to), Without(goats, Midpoint(t.pos, to)))
  {
    JumpDeltaIsCapture(t, tigers, goats, to);
  }

  /** The board the page shows did not change: there is nothing to animate. */
  lemma NothingToAnimate(b: Board)
    ensures DeriveMoveAnimation(b, b).None?
  {
    FirstMovedSame(b.tigers, 0);
    FirstMovedSame(b.goats, 0);
  }

  // ---------------------------------------------------------------------------
  // Player input in a networked game

  /** The snapshot this page sends of its current position. */
  function SnapshotOf(p: PageState, lastMove: Option<MoveAnimation>): (snap: Snapshot)
    ensures snap.board == p.game.board && snap.gameOver == p.game.gameOver
    ensures snap.hostRole == (if p.session.isHost then p.lanRole else None)
  {
    Snapshot(p.game.board, p.game.gameOver, if p.session.isHost then p.lanRole else None, lastMove,
             Some(p.session.timerSettings), Some(p.session.matchScore), Some(p.session.spectators))
  }

  /** The effect that sends the position after a move: it runs when the
      position changes, and sends only in a networked game, on a page that
      plays, and while the flag set by the click is up. `prev` is the board
      the move started from. */
  function MoveEffect(p: PageState, justMadeMove: bool, prev: Board): (r: Option<Message>)
    ensures r.Some? <==> IsLANMode(p) && justMadeMove && !IsSpectator(p)
    ensures r.Some? ==> r.value.GameStateMsg? && r.value.snapshot.board == p.game.board
                        && r.value.snapshot.gameOver == p.game.gameOver
                        && r.value.snapshot.lastMove == DeriveMoveAnimation(prev, p.game.board)
  {
    if IsLANMode(p) && justMadeMove && !IsSpectator(p) then
      Some(GameStateMsg(SnapshotOf(p, DeriveMoveAnimation(prev, p.game.board))))
    else None
  }

  /** The page as the send effect sees it in the render right after a click:
      the click's new position, but the outcome from before it, since the win
      check runs 50 ms later. */
  function BeforeWinCheck(before: PageState, after: PageState): (r: PageState)
    ensures r.game.board == after.game.board && r.game.gameOver == before.game.gameOver
    ensures r == after.(game := r.game)
  {
    after.(game := after.game.(gameOver := before.game.gameOver))
  }

  /** A click on the board. In a networked game it is ignored unless this peer
      is to move and is not a spectator; a click that changes the board sends
      the new position with the move that led to it. The snapshot is taken
      before the win check, so it never carries an outcome; when the check
      then ends the game the flag is already down and nothing more is sent. */
  function WrappedNodeClick(p: PageState, row: int, col: int): (r: (PageState, Option<Message>))
    ensures IsLANMode(p) && (!IsMyTurn(p) || IsSpectator(p)) ==> r == (p, None)
    ensures r.0 == p.(game := r.0.game, countdown := r.0.countdown)
    ensures TimerInSync(p) ==> TimerInSync(r.0)
    ensures TimerInSync(p) && r.0.game.board.turn != p.game.board.turn ==>
              r.0.countdown == Countdown(p.session.timerSettings.seconds, r.0.game.board.turn)
    ensures r.0.game.board.turn == p.game.board.turn ==> r.0.countdown == p.countdown
    ensures r.1.Some? <==> IsLANMode(p) && IsMyTurn(p) && r.0.game.board != p.game.board
    ensures r.1.Some? ==> r.1.value.GameStateMsg? && r.1.value.snapshot.board == r.0.game.board
                          && r.1.value.snapshot.gameOver.None?
  {
    if IsLANMode(p) && (!IsMyTurn(p) || IsSpectator(p)) then (p, None)
    else
      var q := p.(game := HandleNodeClick(p.game, row, col));
      if q.game.board != p.game.board then (TimerEffects(p, q), MoveEffect(BeforeWinCheck(p, q), true, p.game.board))
      else (q, None)
  }

  /** A click whose snapshot carries the outcome of the move, as the game
      evidently means it: the position is sent once the win check has run. */
  function WrappedNodeClickCorrected(p: PageState, row: int, col: int): (r: (PageState, Option<Message>))
    ensures r.0 == WrappedNodeClick(p, row, col).0
    ensures r.1.Some? <==> WrappedNodeClick(p, row, col).1.Some?
    ensures r.1.Some? ==> r.1.value.GameStateMsg? && r.1.value.snapshot.board == r.0.game.board
                          && r.1.value.snapshot.gameOver == r.0.game.gameOver
  {
    if IsLANMode(p) && (!IsMyTurn(p) || IsSpectator(p)) then (p, None)
    else
      var q := p.(game := HandleNodeClick(p.game, row, col));
      if q.game.board != p.game.board then (TimerEffects(p, q), MoveEffect(q, true, p.game.board))
      else (q, None)
  }

  /** Selecting a piece, with the same gating as a click. */
  function WrappedPieceSelect(p: PageState, piece: Piece): (r: PageState)
    ensures IsLANMode(p) && (!IsMyTurn(p) || IsSpectator(p)) ==> r == p
    ensures r.game.board == p.game.board && r.game.gameOver == p.game.gameOver
    ensures r == p.(game := r.game)
  {
    if IsLANMode(p) && (!IsMyTurn(p) || IsSpectator(p)) then p
    else p.(game := HandlePieceSelect(p.game, piece))
  }

  /** The snapshot a networked move sends describes that move: the selected
      piece going from its cell to the clicked one, with the jumped goat's cell
      for a tiger's capture. */
  lemma ClickSendsItsMove(p: PageState, row: int, col: int)
    requires Inv(p.game) && !InputBlocked(p.game)
    requires IsLANMode(p) && IsMyTurn(p)
    requires p.game.selected.Some? && Position(row, col) in ValidMoves(p.game.selected.value, p.game.board.tigers, p.game.board.goats)
    ensures var piece := p.game.selected.value;
            var to := Position(row, col);
            var msg := WrappedNodeClick(p, row, col).1;
            && msg.Some?
            && msg.value.snapshot.lastMove ==
                 Some(MoveAnimation(piece.side, piece.pos, to, if piece.side == Tiger then CapturedAt(piece.pos, to) else None))
  {
    var b := p.game.board;
    var piece := p.game.selected.value;
    var to := Position(row, col);
    ValidMovesOnBoardAndEmpty(piece, b.tigers, b.goats);
    assert piece.pos != to by {
      assert piece in b.tigers || piece in b.goats;
    }
    if piece.side == Tiger {
      AnimatesTigerMove(b, piece, to);
      assert ApplyMove(b, piece, to).tigers != b.tigers by {
        var k :| 0 <= k < |b.tigers| && b.tigers[k] == piece;
        MoveFromChangesOne(b.tigers, k, to);
      }
    } else {
      AnimatesGoatMove(b, piece, to);
      assert ApplyMove(b, piece, to).goats != b.goats by {
        var k :| 0 <= k < |b.goats| && b.goats[k] == piece;
        MoveFromChangesOne(b.goats, k, to);
      }
    }
  }

  /** A networked move hands the turn over: the mover is no longer to move,
      and the other peer, once it has the snapshot, is, on the same board. The
      other peer's outcome is left as it was. */
  lemma MoveHandsTurnOver(host: PageState, guest: PageState, side: Side, row: int, col: int)
    requires IsLANMode(host) && IsLANMode(guest) && guest.session.listening
    requires host.session.isHost && !guest.session.isHost
    requires host.lanRole == Some(Plays(side)) && EffectiveRole(guest) == Some(Plays(side.Other()))
    requires WrappedNodeClick(host, row, col).1.Some?
    ensures var (host', msg) := WrappedNodeClick(host, row, col);
            var guest' := Receive(guest, msg.value);
            && !IsMyTurn(host')
            && IsMyTurn(guest')
            && guest'.game.board == host'.game.board
            && guest'.game.gameOver == guest.game.gameOver
  {
    var (host', msg) := WrappedNodeClick(host, row, col);
    var snap := msg.value.snapshot;
    assert snap.hostRole == Some(Plays(side));
    assert host'.game.board.turn == host.game.board.turn.Other();
    assert GuestSide(Plays(side)) == side.Other();
  }

  /** As written, a move that ends the game is never announced: the mover's
      page shows the outcome, the other peer's does not, and the effect that
      runs when the outcome appears sends nothing. */
  lemma WinNotAnnouncedAsWritten(host: PageState, guest: PageState, side: Side, row: int, col: int)
    requires IsLANMode(host) && IsLANMode(guest) && guest.session.listening
    requires host.session.isHost && !guest.session.isHost
    requires host.lanRole == Some(Plays(side)) && EffectiveRole(guest) == Some(Plays(side.Other()))
    requires guest.game.gameOver.None?
    requires WrappedNodeClick(host, row, col).1.Some? && WrappedNodeClick(host, row, col).0.game.gameOver.Some?
    ensures var (host', msg) := WrappedNodeClick(host, row, col);
            var guest' := Receive(guest, msg.value);
            && guest'.game.gameOver.None?
            && guest'.game.gameOver != host'.game.gameOver
            && MoveEffect(host', false, host'.game.board).None?
  {
    MoveHandsTurnOver(host, guest, side, row, col);
  }

  /** With the outcome in the snapshot and snapshots applied wholesale, the
      move hands the turn over and both peers show the same board and
      outcome, a win included. */
  lemma MoveHandsTurnOverCorrected(host: PageState, guest: PageState, side: Side, row: int, col: int)
    requires IsLANMode(host) && IsLANMode(guest) && guest.session.listening
    requires host.session.isHost && !guest.session.isHost
    requires host.lanRole == Some(Plays(side)) && EffectiveRole(guest) == Some(Plays(side.Other()))
    requires WrappedNodeClickCorrected(host, row, col).1.Some?
    ensures var (host', msg) := WrappedNodeClickCorrected(host, row, col);
            var guest' := ReceiveCorrected(guest, msg.value);
            && !IsMyTurn(host')
            && IsMyTurn(guest')
            && guest'.game.board == host'.game.board
            && guest'.game.gameOver == host'.game.gameOver
  {
    var (host', msg) := WrappedNodeClickCorrected(host, row, col);
    var snap := msg.value.snapshot;
    assert snap.hostRole == Some(Plays(side));
    assert host'.game.board.turn == host.game.board.turn.Other();
    assert GuestSide(Plays(side)) == side.Other();
  }

  /** The click flag after the send effect has run, as the code keeps it:
      lowered after a send, but left up when the effect returns early. */
  function FlagAfterEffectAsWritten(p: PageState, justMadeMove: bool): (r: bool)
    ensures r <==> justMadeMove && MoveEffect(p, justMadeMove, p.game.board).None?
  {
    justMadeMove && !(IsLANMode(p) && !IsSpectator(p))
  }

  /** As written, a click in a local game raises the flag and the effect it
      triggers returns early with the flag still up; when the page then
      connects to a room, as a player not yet told its role, the effect's run
      for the new connection sends the local position. */
  lemma StaleFlagSentOnConnectAsWritten(p: PageState, row: int, col: int, joined: PageState)
    requires !IsLANMode(p)
    requires WrappedNodeClick(p, row, col).0.game.board != p.game.board
    requires joined == WrappedNodeClick(p, row, col).0.(session := joined.session)
    requires IsLANMode(joined) && !IsSpectator(joined)
    ensures var (q, sent) := WrappedNodeClick(p, row, col);
            var m := MoveEffect(joined, FlagAfterEffectAsWritten(q, true), q.game.board);
            && sent.None?
            && FlagAfterEffectAsWritten(q, true)
            && m.Some? && m.value.snapshot.board == q.game.board && m.value.snapshot.board != p.game.board
  {
  }

  /** With the flag lowered on every run of the effect, the run that follows a
      local click sends nothing and leaves the flag down, so connecting
      afterwards sends nothing either. */
  lemma NoStaleSendOnConnect(p: PageState, row: int, col: int, joined: PageState)
    requires !IsLANMode(p)
    requires joined == WrappedNodeClick(p, row, col).0.(session := joined.session)
    ensures var (q, sent) := WrappedNodeClick(p, row, col);
            && sent.None?
            && MoveEffect(q, true, p.game.board).None?
            && MoveEffect(joined, false, q.game.board).None?
  {
  }

  // ---------------------------------------------------------------------------
  // Room life cycle and rematch

  /** The position the host sends when it is connected and knows its role. */
  function InitialStateMessage(p: PageState): (r: Option<Message>)
    ensures r.Some? <==> IsLANMode(p) && p.session.isHost && p.lanRole.Some?
    ensures r.Some? ==> r.value.GameStateMsg? && r.value.snapshot.hostRole == p.lanRole
                        && r.value.snapshot.board == p.game.board
  {
    if IsLANMode(p) && p.session.isHost && p.lanRole.Some? then Some(GameStateMsg(SnapshotOf(p, None))) else None
  }

  /** Opening a room: the chosen role is remembered, a new game starts, and
      the countdown reacts to the new turn or duration. */
  function HandleCreateRoom(p: PageState, role: Role, name: string, timer: TimerSettings): (r: PageState)
    ensures r.lanRole == Some(role) && EffectiveRole(r) == Some(role)
    ensures r.game == ResetGame(p.game) && r.session == CreateRoom(p.session, role, name, timer)
    ensures TimerInSync(r)
    ensures timer.seconds != p.session.timerSettings.seconds || (TimerInSync(p) && p.game.board.turn != Goat) ==>
              r.countdown == Countdown(timer.seconds, Goat)
  {
    TimerEffects(p, p.(lanRole := Some(role), session := CreateRoom(p.session, role, name, timer), game := ResetGame(p.game)))
  }

  /** Leaving: the session is reset and the chosen role forgotten. */
  function HandleDisconnect(p: PageState): (r: PageState)
    ensures r.lanRole.None? && r.session == Disconnect(p.session)
    ensures r.session.connection == Idle && r.session.role.None? && EffectiveRole(r).None?
    ensures !IsLANMode(r) && !IsMyTurn(r)
  {
    p.(session := Disconnect(p.session), lanRole := None)
  }

  /** The role after a rematch: the other side for a player, unchanged for a
      spectator or a page without a role. */
  function SwapRole(role: Option<Role>): (r: Option<Role>)
    ensures role.Some? && role.value.Plays? ==> r == Some(Plays(role.value.side.Other()))
    ensures role.None? || role == Some(Spectator) ==> r == role
  {
    if role.Some? && role.value.Plays? then Some(Plays(role.value.side.Other())) else role
  }

  /** Accepting a rematch: answer, swap sides, start a new game and restart the
      countdown. A host that plays a side then also sends the new position. */
  function HandleRematchAccept(p: PageState): (r: (PageState, seq<Message>))
    ensures r.0.lanRole == SwapRole(p.lanRole)
    ensures r.0.game == ResetGame(p.game)
    ensures r.0.countdown == Countdown(p.session.timerSettings.seconds, Goat)
    ensures !r.0.session.rematchRequested && r.0.session.rematchRequestedBy.None?
    ensures |r.1| >= 1 && r.1[0] == RematchResponse(true)
    ensures |r.1| == 2 <==> IsLANMode(p) && p.session.isHost && p.lanRole.Some? && p.lanRole.value.Plays?
    ensures |r.1| == 2 ==> r.1[1].GameStateMsg? && r.1[1].snapshot.board == InitialBoard
                           && r.1[1].snapshot.gameOver.None?
  {
    var answered := RespondToRematch(p.session, true);
    var q := p.(session := answered.session,
                lanRole := SwapRole(p.lanRole),
                game := ResetGame(p.game),
                countdown := ResetTimer(p.countdown, p.session.timerSettings.seconds));
    var q := TimerEffects(p, q);
    var roleChanged := p.lanRole.Some? && p.lanRole.value.Plays?;
    var sent := InitialStateMessage(q);
    if roleChanged && sent.Some? then (q, [answered.message, sent.value]) else (q, [answered.message])
  }

  /** A host that plays and accepts a rematch seats the guest on the other
      side of the fresh game: once the guest has the answer and the new
      position, it plays the side the host does not, on the initial board,
      and the guest is to move exactly when the host is not. */
  lemma HostAcceptSeatsGuestOpposite(host: PageState, guest: PageState, side: Side)
    requires IsLANMode(host) && host.session.isHost && host.lanRole == Some(Plays(side))
    requires IsLANMode(guest) && !guest.session.isHost && guest.session.listening && !IsSpectator(guest)
    ensures var (host', sent) := HandleRematchAccept(host);
            var guest' := Receive(Receive(guest, sent[0]), sent[1]);
            && |sent| == 2
            && EffectiveRole(host') == Some(Plays(side.Other()))
            && EffectiveRole(guest') == Some(Plays(side))
            && guest'.game.board == host'.game.board == InitialBoard
            && (IsMyTurn(guest') <==> !IsMyTurn(host'))
  {
    var (host', sent) := HandleRematchAccept(host);
    var guest1 := Receive(guest, sent[0]);
    assert guest1.lanRole == guest.lanRole && guest1.session.role == guest.session.role;
    assert !IsSpectator(guest1);
    assert sent[1].snapshot.hostRole == Some(Plays(side.Other()));
    assert GuestSide(Plays(side.Other())) == side;
  }

  /** When the guest accepts, only the guest swaps and starts over; the
      host, on receiving the answer, keeps its side and its position, so the
      two pages end up playing the same side. */
  lemma GuestAcceptKeepsHostSide(host: PageState, guest: PageState, side: Side)
    requires host.session.isHost && host.lanRole == Some(Plays(side))
    requires !guest.session.isHost && guest.lanRole == Some(Plays(side.Other()))
    ensures var (guest', sent) := HandleRematchAccept(guest);
            var host' := Receive(host, sent[0]);
            && sent == [RematchResponse(true)]
            && host'.game == host.game && host'.lanRole == host.lanRole
            && EffectiveRole(guest') == EffectiveRole(host') == Some(Plays(side))
  {
  }
}
