# Bagh-Chal: rules, computer player, peer session and page logic in Dafny

A model of the logic behind a browser Bagh-Chal game on a 5×5 grid. Four tigers
hunt twenty goats. Goats are placed one per turn and then move one step along
the drawn lines. Tigers step the same way or capture by jumping a goat. Tigers
win after five captures; goats win when no tiger can move.

The modules follow the program's hooks and page:

- `Rules` — move generation for both sides (orthogonal steps, diagonals only
  between cells with an even coordinate sum, tiger capture jumps) and the
  ordered win test.
- `Pieces` — the list operations the transitions use: filter a captured goat
  out, move a piece to a new cell.
- `GameLogic` — the game state and its transitions: a click (goat placement,
  moving the selected piece, capture bookkeeping), selecting a piece, the
  computer's move, reset, and the trapped-tiger count.
- `Ranking` — the stable descending sort of scored candidates and the choice
  between the best one and one of the top three or four.
- `GameAI` — the computer player's own move generator, written as the game's
  loop and proved equal to `Rules`, and the scoring of tiger moves, goat
  placements and goat moves.
- `Session` — the peer session: the reducer over the closed set of message
  tags, the local effects of sending, the connection's life cycle and the
  peer-error messages.
- `TurnTimer` and `TimeFormat` — the per-turn countdown and its display.
- `Page` — the page that joins these: whose turn it is on this peer, click
  gating, applying a received snapshot, describing the move just made for the
  other peer's animation, the time-up skip and the rematch role swap.
- `Options` and `Digits` — an option type, and decimal rendering of integers
  as JavaScript prints them.

Randomness (`Math.random`), clock readings and message ids are parameters.
The AI's roll is a `Roll` of two values in [0, 1): one for the suboptimal test
and one for the index. Each handler is one atomic step: the 50 ms deferred win
check is applied in the same step as the move, except that the snapshot a
networked move sends is taken, as in the code, before that check.

## Model

| member | source | states |
|---|---|---|
| Rules.EvenIsRemainderZero | src/hooks/useGameLogic.ts:23-26 | The parity predicate the diagonal rule uses holds exactly when the sum has remainder 0 modulo 2, for every integer, negative ones included |
| Rules.HasDiagonalSymmetric | src/hooks/useGameLogic.ts:17-27 | A diagonal exists from one cell to another exactly when it exists in the other direction |
| Rules.DirectionMovesSpec | src/hooks/useGameLogic.ts:76-108 | One direction contributes exactly the neighbour when it is a legal step, and the cell two away when it is a legal tiger capture, nothing else |
| Rules.StepTargetSpec | src/hooks/useGameLogic.ts:80-87 | The neighbour is generated iff it is a legal target reached by a step; a neighbour is never a capture |
| Rules.JumpTargetSpec | src/hooks/useGameLogic.ts:89-107 | The cell two away is generated iff it is a legal capture by a tiger; it is never a step |
| Rules.StepGeneratedIsStep | src/hooks/useGameLogic.ts:80-87 | For any unit direction, the loop's step guards hold iff the neighbour is an empty on-board cell on a drawn line |
| Rules.JumpGeneratedIsCapture | src/hooks/useGameLogic.ts:89-107 | For any unit direction, the loop's jump guards hold iff the landing cell is an empty on-board cell reached by a tiger over a goat along drawn lines |
| Rules.StraightJumpIsCapture | src/hooks/useGameLogic.ts:104-106 | An orthogonal jump is added iff it is a legal capture |
| Rules.DiagonalJumpIsCapture | src/hooks/useGameLogic.ts:100-103 | A diagonal jump is added iff it is a legal capture, which needs both half-segments on drawn diagonals |
| Rules.ValidMovesSound | src/hooks/useGameLogic.ts:67-113 | Every generated target is a legal target: an empty on-board cell reached by a step, or by a tiger's capture |
| Rules.ValidMovesComplete | src/hooks/useGameLogic.ts:67-113 | Every legal target is generated |
| Rules.ValidMovesSpec | src/hooks/useGameLogic.ts:67-113 | Membership in `Rules.ValidMoves`, the generated list, is equivalent to the declarative legal-target rule |
| Rules.ValidMovesAreLegalTargets | src/hooks/useGameLogic.ts:67-113 | The same equivalence, for all targets at once |
| Rules.ValidMovesOnBoardAndEmpty | src/hooks/useGameLogic.ts:76-110 | Every generated target lies on the grid and holds neither a tiger nor a goat |
| Rules.DiagonalStepNeedsEvenEnds | src/hooks/useGameLogic.ts:82-83 | A generated diagonal step starts and ends on cells with an even coordinate sum |
| Rules.JumpTargetsAreTigerCaptures | src/hooks/useGameLogic.ts:89-108 | A generated target that is not a step belongs to a tiger and jumps a goat at the midpoint onto an empty on-board cell |
| Rules.GoatTargetsAreSteps | src/hooks/useGameLogic.ts:89 | Goats never get a two-cell target: all their targets are steps |
| Rules.JumpDeltaIsCapture | src/hooks/useGameLogic.ts:298-308 | For a generated target, a row or column change of two (how the click handler recognises a capture) holds iff the move is not a step, and then it is a tiger's capture over a goat |
| Rules.CheckWin | src/hooks/useGameLogic.ts:115-175 | The win test is ordered: five captures give the tiger text; otherwise the goat text iff no tiger can move; otherwise no outcome |
| Rules.CanMoveAlongAgrees | src/hooks/useGameLogic.ts:122-166 | The win test's early-exit scan over directions finds a move iff the generator yields a target along those directions |
| Rules.TigerCanMoveIffHasMoves | src/hooks/useGameLogic.ts:122-166 | The win test's per-tiger scan agrees with the tiger's generated target list being non-empty |
| Rules.TrappedCount | src/hooks/useGameLogic.ts:374 | The trapped count is at most the number of tigers, and equals it iff every tiger's target list is empty |
| Rules.GoatWinIffAllTrapped | src/hooks/useGameLogic.ts:168-172 | Below five captures, the goat-win text is given iff every tiger is counted as trapped |
| Pieces.Without | src/hooks/useGameLogic.ts:305 | Filtering out a cell keeps exactly the pieces not on it and never lengthens the list |
| Pieces.WithoutRemovesOne | src/hooks/useGameLogic.ts:305 | In a list without two pieces on one cell, filtering out an occupied cell removes exactly one piece |
| Pieces.MoveFromOccupancy | src/hooks/useGameLogic.ts:318-322 | After moving the piece on `from` to an empty `to`, a cell is occupied iff it was occupied and is not `from`, or it is `to` |
| Pieces.MoveFromDistinct | src/hooks/useGameLogic.ts:318-322 | Moving a piece onto an empty cell keeps all pieces on different cells |
| GameLogic.AIPlaysOneSide | src/hooks/useGameLogic.ts:178-184 | By `GameLogic.IsAITurn`, in two-player mode the computer never moves; in the other modes it plays exactly one side, tigers unless it plays goats |
| GameLogic.PlaceGoat | src/hooks/useGameLogic.ts:275-278 | A placement appends one goat on the cell, leaves tigers and captures alone, takes one goat from the reserve and hands the turn to the tigers |
| GameLogic.ApplyMove | src/hooks/useGameLogic.ts:291-331 | A goat move never touches tigers or captures; a tiger step leaves the goats alone; a tiger jump counts one more capture |
| GameLogic.Settle | src/hooks/useGameLogic.ts:336 | After a move an outcome is set iff five goats are captured or no tiger can move |
| GameLogic.HandleNodeClick | src/hooks/useGameLogic.ts:269-342 | A click while the game is over, the computer thinks or it is the computer's turn changes nothing; a click that changes the board hands the turn over and clears the selection |
| GameLogic.HandlePieceSelect | src/hooks/useGameLogic.ts:344-361 | Selecting never changes the board or the outcome; the selection either clears or becomes the clicked piece |
| GameLogic.ResetGame | src/hooks/useGameLogic.ts:363-372 | A reset gives tigers on the four corners, no goats, twenty to place, none captured, goats to move, no selection or outcome, and a state satisfying the invariant |
| GameLogic.SelectedMoves | src/hooks/useGameLogic.ts:389 | With nothing selected there are no highlighted targets; every highlighted target is an empty on-board cell |
| GameLogic.TigersTrapped | src/hooks/useGameLogic.ts:374 | The trapped count equals the number of tigers iff every tiger has an empty target list |
| GameLogic.ExecuteAIMove | src/hooks/useGameLogic.ts:187-260 | The computer does nothing once the game is over or when it is not its turn; a move it makes hands the turn over |
| GameLogic.ClickPlacesGoat | src/hooks/useGameLogic.ts:273-281 | A placement click on an empty cell adds exactly one goat there, decrements the reserve by one and makes it the tigers' turn |
| GameLogic.ClickOnOccupiedCellDuringPlacement | src/hooks/useGameLogic.ts:282-285 | A placement click on an occupied cell changes no state at all |
| GameLogic.ClickOnInvalidTarget | src/hooks/useGameLogic.ts:337-340 | A click on a cell that is not a target only clears the selection; pieces and turn stay |
| GameLogic.ClickCaptures | src/hooks/useGameLogic.ts:297-336 | A capture removes exactly the goat on the midpoint, counts one more capture, moves only the selected tiger and hands the turn over |
| GameLogic.ApplyMoveConsistent | src/hooks/useGameLogic.ts:291-331 | A legal move keeps four tigers, all pieces on distinct on-board cells and captured + live + to place == 20 |
| GameLogic.PlaceGoatConsistent | src/hooks/useGameLogic.ts:274-278 | A placement on an empty on-board cell keeps the same board invariant |
| GameLogic.ClickKeepsInvariant | src/hooks/useGameLogic.ts:269-342 | Any click on the grid keeps the game invariant |
| GameLogic.SelectKeepsInvariant | src/hooks/useGameLogic.ts:344-361 | Selecting one of the board's pieces keeps the game invariant |
| GameLogic.SelectRules | src/hooks/useGameLogic.ts:347-360 | The wrong side's piece and goats during placement are refused; otherwise the selection clears iff the piece on that cell was already selected, and else becomes the clicked piece |
| GameLogic.AIMoveKeepsInvariant | src/hooks/useGameLogic.ts:187-260 | The computer's move keeps the game invariant |
| GameLogic.GoatsWinIffFourTrapped | src/hooks/useGameLogic.ts:168-172 | On a consistent board below five captures, the goat-win text is given iff the trapped count shown is four |
| GameLogic.AIPlacementAvailable | src/hooks/useGameLogic.ts:230-232 | While goats remain to place on a consistent board, the placement AI always finds a cell |
| Ranking.SortByScoreCorrect | src/hooks/useGameAI.ts:184 | Sorting is a permutation of the candidates in descending score order |
| Ranking.FirstBestIndex | src/hooks/useGameAI.ts:184 | The first position whose score no candidate exceeds: every candidate before it scores strictly less |
| Ranking.SortHeadIsFirstBest | src/hooks/useGameAI.ts:184 | The sort keeps equal scores in generation order, so its head is the first best candidate |
| Ranking.ChoiceIndex | src/hooks/useGameAI.ts:187-192 | The chosen index is in range; it is 0 unless the suboptimal branch fires with more than one candidate, and then below the smaller of the count and the width |
| Ranking.FloorOfScaledRandom | src/hooks/useGameAI.ts:188 | The floor of a roll in [0, 1) times m lies in 0..m-1 |
| Ranking.Pick | src/hooks/useGameAI.ts:184-192 | The pick is one of the candidates and, off the suboptimal branch, is the first candidate in generation order with maximal score |
| Ranking.HeadIsBest | src/hooks/useGameAI.ts:184 | The first element after sorting has the highest score of all candidates |
| Ranking.PickIgnoresDrawWhenOptimal | src/hooks/useGameAI.ts:186-192 | Off the suboptimal branch the index draw does not change the pick |
| Ranking.PickFromTop | src/hooks/useGameAI.ts:187-190 | On the suboptimal branch the pick is one of the first min(n, width) sorted candidates |
| GameAI.ShouldMakeSuboptimalMove | src/hooks/useGameAI.ts:88-97 | Easy errs exactly on rolls below 0.5, medium exactly on rolls below 0.2, hard never |
| GameAI.LookaheadDepth | src/hooks/useGameAI.ts:100-109 | The lookahead is at most two moves |
| GameAI.RollMattersOnlyWhenErring | src/hooks/useGameAI.ts:88-97 | Two rolls that both stay off the suboptimal branch give the same tiger move, goat placement and goat move, so hard play does not depend on the draws |
| GameAI.DifficultyIsMonotone | src/hooks/useGameAI.ts:88-109 | Easy, medium and hard look ahead strictly further in that order, and a roll that makes a harder level err makes every easier level err |
| GameAI.GetValidMoves | src/hooks/useGameAI.ts:38-85 | The AI's own generator returns the same list as the rules engine, and a target is in it iff it is a legal target |
| GameAI.PushDirection | src/hooks/useGameAI.ts:47-59 | One loop iteration appends exactly the targets the rules engine assigns to that direction |
| GameAI.PushJump | src/hooks/useGameAI.ts:61-81 | The jump block appends the cell two away exactly for a tiger whose jump lands, and nothing otherwise |
| GameAI.TigerMoveScore | src/hooks/useGameAI.ts:119-175 | A capture scores at least 100; any other move scores at most 10 + 25 |
| GameAI.TigerCandidatesFrom | src/hooks/useGameAI.ts:116-179 | Every candidate is a tiger of the board with one of its legal targets and that move's score; there are none iff no tiger from the index on can move |
| GameAI.TigerAIMove | src/hooks/useGameAI.ts:112-193 | No move iff no tiger has a legal target; otherwise a tiger of the board and one of its legal targets |
| GameAI.TigerAIPrefersCapture | src/hooks/useGameAI.ts:126-192 | Off the suboptimal branch, when any capture exists the tiger AI plays a capture over a goat |
| GameAI.TigerAIPicksBest | src/hooks/useGameAI.ts:184-192 | Off the suboptimal branch the chosen tiger move has the highest score among all candidates |
| GameAI.PlacementCandidatesFrom | src/hooks/useGameAI.ts:200-266 | Every candidate is an empty on-board cell with its score; there are none iff every remaining scanned cell is occupied |
| GameAI.GoatAIPlacement | src/hooks/useGameAI.ts:196-278 | The placement is an empty on-board cell, and there is none iff every cell of the grid is occupied |
| GameAI.GridIsScanned | src/hooks/useGameAI.ts:200-202 | The row-by-row scan of 25 indices visits exactly the cells of the grid |
| GameAI.GoatAIPlacementPicksBest | src/hooks/useGameAI.ts:268-277 | Off the suboptimal branch a chosen cell has the highest score among all candidates |
| GameAI.GoatCandidatesFrom | src/hooks/useGameAI.ts:285-347 | Every candidate is a goat of the board with one of its legal targets and that move's score; there are none iff no goat from the index on can move |
| GameAI.GoatAIMove | src/hooks/useGameAI.ts:281-359 | No move iff no goat has a legal target; otherwise a goat of the board and a single step to one of its legal targets |
| GameAI.GoatAIMovePicksBest | src/hooks/useGameAI.ts:349-358 | Off the suboptimal branch the chosen goat move has the highest score among all candidates |
| GameAI.TrapOutscoresEveryOtherMove | src/hooks/useGameAI.ts:296-341 | In `GameAI.GoatMoveScore`, a legal goat step that leaves every tiger without a move scores more than any goat step that leaves some tiger a move, at every depth |
| GameAI.AllTrappedCounts | src/hooks/useGameAI.ts:296-334 | When every tiger is trapped the mobility is 0, all tigers count as trapped and nearly trapped, and none can capture |
| GameAI.SomeFreeCounts | src/hooks/useGameAI.ts:296-318 | When some tiger has a move the mobility is at least 1, at most all but one tiger is trapped, and at most all are nearly trapped |
| GameAI.GoatMoveIsCandidate | src/hooks/useGameAI.ts:285-345 | Every legal step of every goat is enumerated with its score |
| GameAI.GoatAIPrefersTrap | src/hooks/useGameAI.ts:281-358 | Off the suboptimal branch, when some goat step traps every tiger, the goat AI plays a step that traps every tiger |
| Session.GuestSide | src/hooks/useLANMultiplayer.ts:215 | A guest plays the side opposite a host that plays, and tigers otherwise |
| Session.ApplyPlayerInfo | src/hooks/useLANMultiplayer.ts:206-219 | A `player_info` names the opponent; only a guest on the main link adopts the timer settings and takes the side opposite the host's; a host's role and timer stay |
| Session.ApplyPlayerInfoAsWritten | src/hooks/useLANMultiplayer.ts:206-219 | As written, every peer on the main link adopts the sender's timer settings, the host included |
| Session.HandleMessage | src/hooks/useLANMultiplayer.ts:173-226 | A snapshot is handed over unchanged iff a callback is registered; chat appends exactly one entry and keeps earlier ones; either rematch answer clears both flags; a timer report sets only the value; a `player_info` from the main link with timer settings makes them this peer's settings and value, the host's included; a spectator name is added only from the main link; an unknown tag changes nothing; a host's role never changes |
| Session.HandleMessageCorrected | src/hooks/useLANMultiplayer.ts:209-212 | The corrected reducer: every message but `player_info` is handled as written, and a host keeps its own timer settings and value |
| Session.OnReceiveGameState | src/hooks/useLANMultiplayer.ts:557-559 | Registering the callback changes nothing but the registration |
| Session.SendChat | src/hooks/useLANMultiplayer.ts:503-513 | The sent line carries the sender's name and text and is appended to the local log, nothing else changes |
| Session.RequestRematch | src/hooks/useLANMultiplayer.ts:515-522 | Requesting marks the request with this peer's party and sends that same party |
| Session.RespondToRematch | src/hooks/useLANMultiplayer.ts:524-533 | Either answer is sent and clears both local flags, nothing else changes |
| Session.SyncTimer | src/hooks/useLANMultiplayer.ts:535-538 | The local value is set to the reported one, which is sent |
| Session.PlayerInfoOf | src/hooks/useLANMultiplayer.ts:264-271 | A peer announces its own name, timer settings and role |
| Session.Disconnect | src/hooks/useLANMultiplayer.ts:540-555 | Every field returns to its initial value except the timer settings and value, which are kept |
| Session.DisconnectIdempotent | src/hooks/useLANMultiplayer.ts:540-555 | Disconnecting twice is the same as disconnecting once |
| Session.CreateRoom | src/hooks/useLANMultiplayer.ts:305-323 | Creating a room makes this peer the host with the chosen role, name and timer, starts the countdown value at the chosen seconds and empties chat, score and spectators |
| Session.JoinRoom | src/hooks/useLANMultiplayer.ts:411-427 | Joining makes this peer a non-host with the given name and empty chat; a spectator takes the spectator role, a player keeps its role |
| Session.RoomCodeNumber | src/hooks/useLANMultiplayer.ts:90-92 | The room number lies in 10000..99999 |
| Session.RoomCode | src/hooks/useLANMultiplayer.ts:90-92 | The room code is five digits without a leading zero and reads back as the room number |
| Session.HostOpened | src/hooks/useLANMultiplayer.ts:365-369 | The registered host waits under its room code |
| Session.PrimaryOpened | src/hooks/useLANMultiplayer.ts:258-275 | An opened main link is connected with the error cleared, and sends this peer's announcement |
| Session.PrimaryClosed | src/hooks/useLANMultiplayer.ts:286-289 | A closed main link only marks the session disconnected |
| Session.PrimaryError | src/hooks/useLANMultiplayer.ts:296-301 | A main-link error shows the prefixed message and disconnects |
| Session.SpectatorClosed | src/hooks/useLANMultiplayer.ts:290-293 | A closed spectator link drops the last name of the list, if any, nothing else changes |
| Session.HostPeerError | src/hooks/useLANMultiplayer.ts:388-403 | A failing host peer shows the message for its error type and goes idle |
| Session.JoinPeerError | src/hooks/useLANMultiplayer.ts:480-492 | A failing joining peer shows the message for its error type and goes idle |
| Session.HostErrorMessagesDistinct | src/hooks/useLANMultiplayer.ts:390-401 | Different error types give the host different messages |
| Session.JoinErrorMessagesDistinct | src/hooks/useLANMultiplayer.ts:482-490 | Different error types give the joiner different messages |
| Session.ErrorMessagesDistinct | src/hooks/useLANMultiplayer.ts:388-403 | Both error mappings are injective |
| Session.ChatReachesBothLogs | src/hooks/useLANMultiplayer.ts:503-513 | A line sent by one peer ends, identical, at the end of both peers' logs |
| Session.RematchHandshake | src/hooks/useLANMultiplayer.ts:515-533 | A request marks both peers with the requester's party and either answer clears the flags on both |
| Session.TimerSyncAgrees | src/hooks/useLANMultiplayer.ts:535-538 | After a timer report sender and receiver hold the same value |
| Session.HandshakeAgrees | src/hooks/useLANMultiplayer.ts:206-219 | With the corrected reducer, after both announcements the guest plays the side the host does not, and both hold the host's timer settings |
| Session.HostTimerOverwrittenAsWritten | src/hooks/useLANMultiplayer.ts:209-212 | Through the reducer as written, a host that chose a 15 s timer ends with the guest's default settings while the guest holds the host's |
| TurnTimer.Tick | src/hooks/useTurnTimer.ts:53-70 | A stopped countdown does not move; a running one reports time up iff the value was at most 1 and then restarts at the configured seconds, otherwise it drops by exactly one |
| TurnTimer.ObserveTurn | src/hooks/useTurnTimer.ts:40-45 | A change of turn restarts the countdown at the configured seconds; the same turn changes nothing |
| TurnTimer.ResetTimer | src/hooks/useTurnTimer.ts:35-37 | A reset, like a change of the duration setting, restarts the countdown at the configured seconds and keeps the turn it counts for |
| TurnTimer.SyncReport | src/hooks/useTurnTimer.ts:81-92 | A value is reported iff the timer is enabled, the peer connected and the host, and it is the current value |
| TurnTimer.TickKeepsRange | src/hooks/useTurnTimer.ts:62-69 | Ticking keeps a value within 1..seconds |
| TurnTimer.TicksBeforeTimeUp | src/hooks/useTurnTimer.ts:63-68 | Fewer ticks than the value count down without reporting time up |
| TurnTimer.TimeUpAfterExactlyV | src/hooks/useTurnTimer.ts:63-68 | From a value v, the v-th tick is the first to report time up and it restarts the countdown |
| TurnTimer.LowIffTimeUpWithinFive | src/hooks/useTurnTimer.ts:102 | `TurnTimer.IsLow`, the low-time warning, is on exactly while time up is at most five ticks away |
| TimeFormat.JsRem | src/components/game/TurnTimer.tsx:16 | The remainder takes the dividend's sign and is the Euclidean remainder for non-negative dividends |
| TimeFormat.PadStart2 | src/components/game/TurnTimer.tsx:18 | Padding keeps strings of length two or more and otherwise left-fills with zeros to length two |
| TimeFormat.Render | src/components/game/TurnTimer.tsx:12 | Nothing is shown exactly when the timer is disabled |
| TimeFormat.SplitRecombines | src/components/game/TurnTimer.tsx:15-16 | For a non-negative count, minutes * 60 + seconds gives the count back, with seconds in 0..59 |
| TimeFormat.BelowAMinute | src/components/game/TurnTimer.tsx:17-20 | Below a minute the display is the count followed by "s" |
| TimeFormat.AtLeastAMinute | src/components/game/TurnTimer.tsx:17-18 | From a minute on the display is minutes, a colon and the seconds as exactly two digits |
| TimeFormat.FormatTimeRoundTrip | src/components/game/TurnTimer.tsx:14-21 | `TimeFormat.FormatTime` of any non-negative count reads back to that count |
| Digits.NatToStringRoundTrip | src/hooks/useLANMultiplayer.ts:91 | The decimal string of a number reads back to the number |
| Digits.NatToStringLength | src/hooks/useLANMultiplayer.ts:91 | A number with k digits prints as k characters |
| Page.EffectiveRole | src/pages/Index.tsx:86 | The role the page chose itself takes precedence over the session's |
| Page.IsMyTurn | src/pages/Index.tsx:87-88 | A page to move is never a spectator and does not play the other side, so passing the turn takes the move away |
| Page.TurnsAreExclusive | src/pages/Index.tsx:85-87 | Two connected peers playing opposite sides on the same position: exactly one of them is to move |
| Page.TimerEffects | src/hooks/useTurnTimer.ts:39-50 | After any transition the countdown has seen the current turn; it restarts at the duration when the turn moved past the one it saw or the duration changed, and is kept otherwise; nothing else on the page changes |
| Page.TimerEffectsRestartOnChange | src/hooks/useTurnTimer.ts:39-50 | From a page whose countdown has seen its turn, a transition that changes the turn or the duration gives a full countdown for the new turn, and one that changes neither keeps the countdown |
| Page.HandleTimeUp | src/pages/Index.tsx:91-96 | Time up passes the turn only on the peer to move in an unfinished game, after which it is no longer to move and the countdown starts over at the duration for the new turn; otherwise nothing changes on a page whose countdown has seen the current turn |
| Page.TimeUpStallsAsWritten | src/pages/Index.tsx:91-96 | As written, a time-up on the peer to move sends nothing; afterwards neither peer is to move, their turns disagree, every click on either page is refused and the other page's own time-up changes nothing |
| Page.HandleTimeUpCorrected | src/pages/Index.tsx:91-96 | The corrected time-up passes the turn as before and sends the new position exactly when it passed the turn |
| Page.TimeUpHandsTurnOver | src/pages/Index.tsx:91-96 | With the position sent, a time-up on the host makes the guest the one to move on the same board |
| Page.RoleFromSnapshot | src/pages/Index.tsx:121-124 | A guest that is not a spectator takes the side opposite the snapshot's host role; hosts, spectators and snapshots without a role keep the page's role |
| Page.HandleReceiveGameStateAsWritten | src/pages/Index.tsx:110-130 | The board is replaced wholesale but the outcome only when the snapshot carries one; the role is derived, the animation taken when carried, and selection, mode, session and countdown are left alone by the handler itself |
| Page.HandleReceiveGameState | src/pages/Index.tsx:110-130 | A snapshot replaces board and outcome, derives the role, sets the animation it carries, and itself leaves selection, mode, session and countdown alone |
| Page.Receive | src/pages/Index.tsx:110-124 | A message runs the session reducer; a snapshot delivered to the registered page replaces its board and derives the role, and replaces the outcome only when it carries one; anything else leaves the game alone; the countdown restarts at the duration for the new turn exactly when the turn or the duration changed, and is otherwise kept |
| Page.ReceiveCorrected | src/pages/Index.tsx:117-119 | With both corrections, a delivered snapshot replaces board and outcome, the session follows the corrected reducer, and the countdown restarts when the turn or the duration changed |
| Page.LaterSnapshotsAsWritten | src/pages/Index.tsx:110-119 | Of two snapshots received in turn, the second decides the board, while the outcome shown is the latest one either carried, else the page's own |
| Page.LastSnapshotWins | src/pages/Index.tsx:117-119 | With snapshots applied wholesale, of two received in turn the second alone decides the game shown |
| Page.OutcomeSurvivesAsWritten | src/pages/Index.tsx:117-119 | As written, a peer that saw the game end keeps the outcome and refuses clicks after a fresh game arrives |
| Page.OutcomeClearedByFreshSnapshot | src/pages/Index.tsx:117-119 | With the snapshot applied wholesale that peer follows into the fresh game and accepts input |
| Page.FirstMoved | src/pages/Index.tsx:157-160 | The index found is the first at which the two lists hold pieces on different cells; none means they agree on their common length |
| Page.FirstVacated | src/pages/Index.tsx:163-165 | The piece found is the first earlier piece whose cell is now empty; none means every earlier cell is still occupied |
| Page.DeriveMoveAnimation | src/pages/Index.tsx:152-214 | A tiger animation ends on a tiger and starts on a cell no tiger holds, with the captured cell iff it jumps; a goat animation ends on a goat and captures nothing |
| Page.MoveFromChangesOne | src/pages/Index.tsx:157-165 | Moving one piece changes only its index, and the scans find exactly that index and that piece |
| Page.AnimatesPlacement | src/pages/Index.tsx:205-213 | A placement is shown as a goat appearing on its cell, from and to equal |
| Page.AnimatesTigerMove | src/pages/Index.tsx:162-185 | A tiger move is shown from its cell to its target, with the midpoint as captured cell for a jump; that cell held a goat before and holds none after |
| Page.AnimatesGoatMove | src/pages/Index.tsx:186-204 | A goat move is shown from its cell to its target, capturing nothing |
| Page.JumpLandsOverGoat | src/pages/Index.tsx:172-177 | The captured cell of a generated jump held a goat, and the capture removes it |
| Page.NothingToAnimate | src/pages/Index.tsx:152-214 | An unchanged board yields no animation |
| Page.SnapshotOf | src/pages/Index.tsx:216-228 | The snapshot carries the page's board and outcome, and the host role only when sent by the host |
| Page.MoveEffect | src/pages/Index.tsx:142-147 | The send effect sends exactly in a networked game, on a page that plays, while the click's flag is up; the snapshot holds the page's position and the animation from the board before |
| Page.BeforeWinCheck | src/hooks/useGameLogic.ts:333-336 | The page the send effect sees after a click holds the new board but the outcome from before the deferred win check |
| Page.WrappedNodeClick | src/pages/Index.tsx:289-294 | In a networked game a click is ignored unless this peer is to move and plays; only the game and the countdown change, the countdown restarting at the duration exactly when the turn passed; a snapshot of the new position is sent iff the click changed the board in a networked game, and it never carries an outcome |
| Page.WrappedNodeClickCorrected | src/pages/Index.tsx:216-231 | The corrected click: the same page and the same decision to send, with the snapshot carrying the outcome of the move |
| Page.WrappedPieceSelect | src/pages/Index.tsx:296-299 | Selecting is gated the same way and never changes board or outcome |
| Page.ClickSendsItsMove | src/pages/Index.tsx:142-228 | A networked move sends a snapshot whose animation is the selected piece going from its cell to the clicked one, with the jumped cell for a tiger's capture |
| Page.MoveHandsTurnOver | src/pages/Index.tsx:110-124 | After a networked move and its snapshot, the mover is no longer to move, the other peer is, both show the same board, and the other peer's outcome is what it was |
| Page.FlagAfterEffectAsWritten | src/pages/Index.tsx:142-148 | The click flag survives a run of the send effect exactly when that run sends nothing |
| Page.StaleFlagSentOnConnectAsWritten | src/pages/Index.tsx:142-148 | A board-changing click in a local game sends nothing but leaves the flag up, so the run for a later connection as a non-spectator sends the local position |
| Page.NoStaleSendOnConnect | src/pages/Index.tsx:289-293 | With the flag lowered on every run, connecting after a local click sends nothing |
| Page.WinNotAnnouncedAsWritten | src/pages/Index.tsx:216-231 | As written, a move that ends the game leaves the other peer without the outcome the mover shows, and the effect run by the outcome appearing sends nothing |
| Page.MoveHandsTurnOverCorrected | src/pages/Index.tsx:216-231 | With the corrected click and receive, the turn passes and both peers show the same board and outcome, a win included |
| Page.InitialStateMessage | src/pages/Index.tsx:248-263 | The host sends the current position, with its role, exactly when connected and knowing its role |
| Page.HandleCreateRoom | src/pages/Index.tsx:236-240 | Opening a room remembers the chosen role, starts a fresh game and creates the session's room; the countdown restarts at the new duration for the goats when the duration or the turn changed |
| Page.HandleDisconnect | src/pages/Index.tsx:266-270 | Leaving resets the session, forgets the chosen role, and leaves the page without a role and out of networked play |
| Page.SwapRole | src/pages/Index.tsx:276-278 | A rematch swaps tiger and goat and leaves a spectator or missing role unchanged |
| Page.HandleRematchAccept | src/pages/Index.tsx:273-281 | Accepting answers yes, swaps the side, starts a fresh game and a full countdown for the goats, clears the request, and a connected host that plays also sends the fresh position |
| Page.HostAcceptSeatsGuestOpposite | src/pages/Index.tsx:273-281 | When a host that plays accepts, the guest, after the answer and the fresh position, plays the other side on the initial board, and exactly one of the two is to move |
| Page.GuestAcceptKeepsHostSide | src/pages/Index.tsx:273-281 | When the guest accepts, the host keeps its game and side on the answer, so both pages play the same side |

## Left out

- PeerJS transport (creating peers, ICE servers, reconnecting, `send` fan-out to spectators, the ICE-failure message): network I/O through a library outside the model; a function that sends returns the message it would send.
- The host's greeting on a spectator link (`useLANMultiplayer.ts:377-384`): spectator-link plumbing; its receipt is covered by `Session.HandleMessage` with `fromSpectator` set.
- `cleanup` (closing links, destroying the peer): resource release with no state of its own.
- Timing: the 50 ms deferred win check is applied in the same step (the snapshot a move sends is taken before it, as `Page.BeforeWinCheck` states), the AI's think delay is dropped, the 400 ms animation clearing is dropped, and the one- and five-second intervals become one call per tick.
- `Math.random`, `Date.now` and message ids: parameters (`Roll`, `Random01`, the chat id and timestamp).
- Sound, logging, localStorage and every presentation component: no game state.
- The welcome screen's mode selection and the mode, difficulty and sound setters: menu navigation that only assigns a field and resets.
- `justMadeMove` and the previous-positions ref: the flag is not part of `Page.PageState`; it is `Page.MoveEffect`'s parameter. `Page.WrappedNodeClick` models the one run of the effect that follows a board-changing click, and a networked click sends a snapshot exactly when it changed the board, with the animation derived from the board before and after. In the code the flag is raised by every click that gets past the guard, local games included (Index.tsx:289-293), and is lowered only after a send (Index.tsx:231); an early return (Index.tsx:144-148) leaves it up. Any later change of the effect's dependencies (Index.tsx:233: connection, role, outcome, timer settings, score, spectators, the pieces) then consumes it and sends the page's current position. Those later runs are not modelled, apart from the connection case logged under "## Findings" (`Page.StaleFlagSentOnConnectAsWritten`).
- `GameAI.TigerMoveScore`: the contract bounds scores (captures at least 100, other moves at most 35) instead of restating the scoring table; the exact table is the function body.
- `GameAI.GoatMoveScore`: no contract states the weights (50 minus twice the mobility, 30 per trapped tiger, 15 per nearly trapped tiger at depth 2, minus 45 when the goat could be captured, plus centrality); the one property proved about them is `GameAI.TrapOutscoresEveryOtherMove`, and the exact weights are the function body.
- `GameAI.PlacementScore`: no contract states the score of a placement (useGameAI.ts:203-261); only `GameAI.GoatAIPlacementPicksBest` relies on it, by taking a candidate of maximal score, and the weights are the function body.
- `TurnTimer.SyncReport`: states which peer reports and what value. The code re-arms its five-second interval whenever the value changes, so a report may not fire while the countdown runs; interval timing is not modelled.
- Match score, `timerValue`, `hostPlayer` and `guestPlayer` in a snapshot: the page never applies them, and the score is never incremented.
- Integer widths: JavaScript numbers are used only for small coordinates and counters, so unbounded integers are exact. `Midpoint` uses floor division, which equals JavaScript's real division for every generated jump, since both endpoint sums are even.
- `Rules.EvenSum` is written by stepping two at a time instead of with `%`; `Rules.EvenIsRemainderZero` proves the two agree.
- Rematch on the requesting peer: only the accepting peer resets and swaps sides; the requester just clears its flags when the answer arrives, although the game's description has both peers start over. The model follows the code; `Page.GuestAcceptKeepsHostSide` states the consequence when the guest accepts.
- `Session.Disconnect`: the timer settings and value are not reset, as in the code.
- `Page.HandleTimeUp`: the selection is kept, as in the code.

## Findings

| source | as written | input that shows it | evidently intended | confidence | as-written member | corrected member |
|---|---|---|---|---|---|---|
| src/pages/Index.tsx:117-119 | A received snapshot replaces the outcome only when it carries one, so a `null` outcome never clears an ended game | Peer A shows "Tigers Win!". Peer B, the host, accepts a rematch and sends the initial board with no outcome. A keeps the old outcome and refuses every click | The snapshot replaces the outcome too, like the board | medium; not executed | Page.HandleReceiveGameStateAsWritten, Page.OutcomeSurvivesAsWritten | Page.HandleReceiveGameState, Page.OutcomeClearedByFreshSnapshot, Page.LastSnapshotWins |
| src/hooks/useLANMultiplayer.ts:209-212 | Every peer adopts the timer settings of a `player_info` from the main link, the host included | The host creates a room with a 15 s timer; the guest keeps the default (off, 30 s). Both announce on open: the host ends with the guest's default settings, the guest with 15 s | Only the guest adopts the host's settings, as it does for the role | medium; not executed | Session.HandleMessage, Session.HostTimerOverwrittenAsWritten | Session.HandleMessageCorrected, Session.HandshakeAgrees |
| src/pages/Index.tsx:216-231 | The send effect takes its snapshot in the render right after the click, before the win check that runs 50 ms later (useGameLogic.ts:336), and lowers the flag; when the check then sets the outcome the effect runs again but sends nothing | A goat's move leaves no tiger a move: the goat player's page shows "Goats Win!", while the tiger player's page receives a snapshot with no outcome, has no move that would run a win check of its own, and never learns of the loss. (When a tiger's jump captures the fifth goat instead, the goat page learns of it only at its own next move, whose deferred check sees the captures.) | The other peer learns the outcome of the move that ended the game | medium; not executed | Page.WrappedNodeClick, Page.WinNotAnnouncedAsWritten | Page.WrappedNodeClickCorrected, Page.MoveHandsTurnOverCorrected |
| src/pages/Index.tsx:142-148 | Outside a networked game a click (Index.tsx:289-293) raises the `justMadeMove` flag, and the send effect returns early without lowering it | Play a move in a local game, then join a room: when the connection opens, the effect runs with the flag still up (`isSpectator` is false while the role is unknown) and sends the local position; the host applies it while the guest takes the host's initial position, so the two pages show different boards | The flag stands only for a move made in the networked game, so connecting sends nothing | medium; not executed | Page.FlagAfterEffectAsWritten, Page.StaleFlagSentOnConnectAsWritten | Page.NoStaleSendOnConnect |
| src/pages/Index.tsx:91-96 | A time-up flips only the local turn; no cell was clicked, so the flag is down and the send effect (Index.tsx:143-146) sends nothing | The player to move lets the time run out without clicking a cell: that page now waits for the other side, the other page still waits for this one, every click on either page is refused (Index.tsx:290) and neither page's time-up does anything more, so the game stalls | The page that passed the turn sends its position, and the other peer becomes the one to move | medium; not executed | Page.HandleTimeUp, Page.TimeUpStallsAsWritten | Page.HandleTimeUpCorrected, Page.TimeUpHandsTurnOver |
