/**
 * The peer session's local state and the reducer over its closed set of
 * message tags, together with the local effects of sending (chat, rematch
 * handshake, timer sync) and of the connection's life cycle (creating or
 * joining a room, the link opening, closing or failing, disconnecting).
 *
 * The transport itself is not modelled: a function that sends returns the
 * message it would send, and a connection event is a function the embedding
 * calls. Where the game draws on the clock or `Math.random` (message ids,
 * timestamps, room codes), the value is a parameter.
 */
module Session {
  import opened Options
  import opened Rules
  import opened Ranking
  import opened Digits

  datatype ConnectionState = Idle | Creating | Waiting | Joining | Connected | Disconnected

  /** A peer's role; "no role yet" is `None` where the role is optional. */
  datatype Role = Plays(side: Side) | Spectator

  datatype Party = Host | Guest

  datatype ChatMessage = ChatMessage(id: string, sender: string, text: string, timestamp: int, isEmoji: bool)

  datatype TimerSettings = TimerSettings(enabled: bool, seconds: int)

  datatype MatchScore = MatchScore(host: int, guest: int)

  /** What the receiving board animates: a piece going from `from` to `to`,
      and the cell of the goat captured on the way, if any. */
  datatype MoveAnimation = MoveAnimation(pieceType: Side, from: Position, to: Position, capturedAt: Option<Position>)

  /** The payload of a `game_state` message. */
  datatype Snapshot = Snapshot(
    board: Board,
    gameOver: Option<string>,
    hostRole: Option<Role>,
    lastMove: Option<MoveAnimation>,
    timerSettings: Option<TimerSettings>,
    matchScore: Option<MatchScore>,
    spectators: Option<seq<string>>)

  /** The payload of a `player_info` message: the sender's name, its timer
      settings and its own role, each as far as it sends them. */
  datatype PlayerInfo = PlayerInfo(name: string, timerSettings: Option<TimerSettings>, hostRole: Option<Role>)

  /** One message per tag, and whatever arrives with a tag outside the set. */
  datatype Message =
    | GameStateMsg(snapshot: Snapshot)
    | Chat(message: ChatMessage)
    | RematchRequest(from: Party)
    | RematchResponse(accepted: bool)
    | TimerSync(value: int)
    | PlayerInfoMsg(info: PlayerInfo)
    | SpectatorJoin(name: string)
    | Unrecognized(tag: string)

  datatype Session = Session(
    connection: ConnectionState,
    role: Option<Role>,
    roomCode: string,
    error: Option<string>,
    isHost: bool,
    playerName: string,
    opponentName: string,
    chat: seq<ChatMessage>,
    timerSettings: TimerSettings,
    timerValue: int,
    matchScore: MatchScore,
    rematchRequested: bool,
    rematchRequestedBy: Option<Party>,
    spectators: seq<string>,
    lastMove: Option<MoveAnimation>,
    listening: bool)

  const DefaultTimer: TimerSettings := TimerSettings(false, 30)

  const InitialSession: Session :=
    Session(Idle, None, "", None, false, "", "", [], DefaultTimer, 30, MatchScore(0, 0), false, None, [], None, false)

  /** A reducer step: the new session and the snapshot handed to the page's
      callback, if one was handed over. */
  datatype Received = Received(session: Session, delivered: Option<Snapshot>)

  /** The side a guest takes given the host's role: the other side, and tigers
      when the host's role is anything but tiger. */
  function GuestSide(hostRole: Role): (side: Side)
    ensures hostRole.Plays? ==> side == hostRole.side.Other()
    ensures hostRole == Spectator ==> side == Tiger
  {
    if hostRole == Plays(Tiger) then Goat else Tiger
  }

  /** A `player_info` message on the main link, as the game evidently means
      it: name, timer settings for a guest, and the guest's side from the
      host's. The code adopts the timer settings on the host as well; see
      `ApplyPlayerInfoAsWritten`. */
  function ApplyPlayerInfo(s: Session, info: PlayerInfo, fromSpectator: bool): (r: Session)
    ensures r.opponentName == info.name
    ensures s.isHost || fromSpectator ==> r.timerSettings == s.timerSettings && r.timerValue == s.timerValue
    ensures s.isHost || fromSpectator || info.hostRole.None? ==> r.role == s.role
    ensures !s.isHost && !fromSpectator && info.hostRole.Some? ==> r.role == Some(Plays(GuestSide(info.hostRole.value)))
  {
    var named := s.(opponentName := info.name);
    var timed :=
      if !fromSpectator && info.timerSettings.Some? && !s.isHost
      then named.(timerSettings := info.timerSettings.value, timerValue := info.timerSettings.value.seconds)
      else named;
    if !fromSpectator && info.hostRole.Some? && !s.isHost then timed.(role := Some(Plays(GuestSide(info.hostRole.value))))
    else timed
  }

  /** The `player_info` branch as the game's code writes it: the timer
      settings are adopted on every peer, host included. */
  function ApplyPlayerInfoAsWritten(s: Session, info: PlayerInfo, fromSpectator: bool): (r: Session)
    ensures r.opponentName == info.name
    ensures !fromSpectator && info.timerSettings.Some? ==>
              r.timerSettings == info.timerSettings.value && r.timerValue == info.timerSettings.value.seconds
    ensures fromSpectator || info.timerSettings.None? ==> r.timerSettings == s.timerSettings && r.timerValue == s.timerValue
    ensures s.isHost || fromSpectator || info.hostRole.None? ==> r.role == s.role
    ensures !s.isHost && !fromSpectator && info.hostRole.Some? ==> r.role == Some(Plays(GuestSide(info.hostRole.value)))
  {
    var named := s.(opponentName := info.name);
    var timed :=
      if !fromSpectator && info.timerSettings.Some?
      then named.(timerSettings := info.timerSettings.value, timerValue := info.timerSettings.value.seconds)
      else named;
    if !fromSpectator && info.hostRole.Some? && !s.isHost then timed.(role := Some(Plays(GuestSide(info.hostRole.value))))
    else timed
  }

  /** The reducer. `fromSpectator` tells whether the message came over a
      spectator link. A tag outside the set matches no case and changes
      nothing. */
  function HandleMessage(s: Session, msg: Message, fromSpectator: bool): (r: Received)
    ensures r.delivered.Some? <==> msg.GameStateMsg? && s.listening
    ensures r.delivered.Some? ==> r.delivered.value == msg.snapshot
    ensures msg.Unrecognized? ==> r.session == s
    ensures msg.Chat? ==> && |r.session.chat| == |s.chat| + 1
                          && r.session.chat[..|s.chat|] == s.chat
                          && r.session.chat[|s.chat|] == msg.message
                          && r.session == s.(chat := r.session.chat)
    ensures msg.RematchRequest? ==> r.session.rematchRequested && r.session.rematchRequestedBy == Some(msg.from)
    ensures msg.RematchResponse? ==> !r.session.rematchRequested && r.session.rematchRequestedBy.None?
    ensures msg.TimerSync? ==> r.session == s.(timerValue := msg.value)
    ensures msg.SpectatorJoin? && fromSpectator ==> r.session == s
    ensures msg.SpectatorJoin? && !fromSpectator ==> r.session.spectators == s.spectators + [msg.name]
    ensures msg.PlayerInfoMsg? && !fromSpectator && msg.info.timerSettings.Some? ==>
              && r.session.timerSettings == msg.info.timerSettings.value
              && r.session.timerValue == msg.info.timerSettings.value.seconds
    ensures msg.PlayerInfoMsg? ==> r.session.opponentName == msg.info.name
    ensures s.isHost ==> r.session.role == s.role
    ensures r.session.connection == s.connection && r.session.isHost == s.isHost && r.session.playerName == s.playerName
    ensures r.session.listening == s.listening
  {
    match msg
    case GameStateMsg(snapshot) =>
      var s' := if snapshot.lastMove.Some? then s.(lastMove := snapshot.lastMove) else s;
      Received(s', if s.listening then Some(snapshot) else None)
    case Chat(m) =>
      Received(s.(chat := s.chat + [m]), None)
    case RematchRequest(from) =>
      Received(s.(rematchRequested := true, rematchRequestedBy := Some(from)), None)
    case RematchResponse(accepted) =>
      Received(s.(rematchRequested := false, rematchRequestedBy := None), None)
    case TimerSync(value) =>
      Received(s.(timerValue := value), None)
    case PlayerInfoMsg(info) =>
      Received(ApplyPlayerInfoAsWritten(s, info, fromSpectator), None)
    case SpectatorJoin(name) =>
      Received(if fromSpectator then s else s.(spectators := s.spectators + [name]), None)
    case Unrecognized(_) =>
      Received(s, None)
  }

  /** The reducer with the `player_info` branch corrected: a host keeps its
      own timer settings, and every other message is handled as before. */
  function HandleMessageCorrected(s: Session, msg: Message, fromSpectator: bool): (r: Received)
    ensures !msg.PlayerInfoMsg? ==> r == HandleMessage(s, msg, fromSpectator)
    ensures msg.PlayerInfoMsg? && (s.isHost || fromSpectator) ==>
              r.session.timerSettings == s.timerSettings && r.session.timerValue == s.timerValue
    ensures msg.PlayerInfoMsg? && !s.isHost ==> r.session == HandleMessage(s, msg, fromSpectator).session
  {
    match msg
    case PlayerInfoMsg(info) => Received(ApplyPlayerInfo(s, info, fromSpectator), None)
    case _ => HandleMessage(s, msg, fromSpectator)
  }

  /** The page registers its snapshot callback. */
  function OnReceiveGameState(s: Session): (r: Session)
    ensures r.listening && r == s.(listening := true)
  {
    s.(listening := true)
  }

  // ---------------------------------------------------------------------------
  // Sending

  /** What a local send does, and the message it sends. */
  datatype Sent = Sent(session: Session, message: Message)

  /** Sending a chat line: the entry (with the caller's id and timestamp) is
      appended locally and sent as it is. */
  function SendChat(s: Session, id: string, timestamp: int, text: string, isEmoji: bool): (r: Sent)
    ensures r.message.Chat? && r.message.message.sender == s.playerName && r.message.message.text == text
    ensures r.session.chat == s.chat + [r.message.message]
    ensures r.session == s.(chat := r.session.chat)
  {
    var m := ChatMessage(id, s.playerName, text, timestamp, isEmoji);
    Sent(s.(chat := s.chat + [m]), Chat(m))
  }

  function RequestRematch(s: Session): (r: Sent)
    ensures r.session.rematchRequested
    ensures r.session.rematchRequestedBy == Some(if s.isHost then Host else Guest)
    ensures r.message == RematchRequest(r.session.rematchRequestedBy.value)
  {
    var from := if s.isHost then Host else Guest;
    Sent(s.(rematchRequested := true, rematchRequestedBy := Some(from)), RematchRequest(from))
  }

  /** Answering a rematch request clears the request whatever the answer. */
  function RespondToRematch(s: Session, accept: bool): (r: Sent)
    ensures r.message == RematchResponse(accept)
    ensures !r.session.rematchRequested && r.session.rematchRequestedBy.None?
    ensures r.session == s.(rematchRequested := false, rematchRequestedBy := None)
  {
    Sent(s.(rematchRequested := false, rematchRequestedBy := None), RematchResponse(accept))
  }

  /** Reporting the timer sets the local value first. */
  function SyncTimer(s: Session, value: int): (r: Sent)
    ensures r.session.timerValue == value && r.message == TimerSync(value)
    ensures r.session == s.(timerValue := value)
  {
    Sent(s.(timerValue := value), TimerSync(value))
  }

  /** What a peer announces about itself when its main link opens. */
  function PlayerInfoOf(s: Session): (info: PlayerInfo)
    ensures info.name == s.playerName && info.hostRole == s.role
    ensures info.timerSettings == Some(s.timerSettings)
  {
    PlayerInfo(s.playerName, Some(s.timerSettings), s.role)
  }

  // ---------------------------------------------------------------------------
  // Connection life cycle

  /** Leaving the room: every field back to its initial value, except the timer
      settings and value, which the game does not reset, and the page's
      registered callback. */
  function Disconnect(s: Session): (r: Session)
    ensures r.(timerSettings := DefaultTimer, timerValue := 30, listening := false) == InitialSession
    ensures r.timerSettings == s.timerSettings && r.timerValue == s.timerValue && r.listening == s.listening
  {
    InitialSession.(timerSettings := s.timerSettings, timerValue := s.timerValue, listening := s.listening)
  }

  /** Opening a room as host with the chosen role, name and timer. The chat,
      score and spectator list start empty; the room code arrives later. */
  function CreateRoom(s: Session, role: Role, name: string, timer: TimerSettings): (r: Session)
    ensures r.connection == Creating && r.error.None? && r.isHost
    ensures r.role == Some(role) && r.playerName == name
    ensures r.timerSettings == timer && r.timerValue == timer.seconds
    ensures r.chat == [] && r.matchScore == MatchScore(0, 0) && r.spectators == []
  {
    s.(error := None, connection := Creating, isHost := true, role := Some(role), playerName := name,
       timerSettings := timer, timerValue := timer.seconds, chat := [], matchScore := MatchScore(0, 0), spectators := [])
  }

  /** Joining a room as guest, or as spectator. */
  function JoinRoom(s: Session, name: string, asSpectator: bool): (r: Session)
    ensures r.connection == Joining && r.error.None? && !r.isHost && r.playerName == name && r.chat == []
    ensures asSpectator ==> r.role == Some(Spectator)
    ensures !asSpectator ==> r.role == s.role
  {
    var r := s.(error := None, connection := Joining, isHost := false, playerName := name, chat := []);
    if asSpectator then r.(role := Some(Spectator)) else r
  }

  /** The five-digit room code `Math.floor(10000 + r * 90000)`. */
  function RoomCodeNumber(r: Random01): (n: int)
    ensures 10000 <= n <= 99999
  {
    FloorOfScaledRandom(r, 90000);
    10000 + (r * 90000 as real).Floor
  }

  function RoomCode(r: Random01): (code: string)
    ensures |code| == 5 && AllDigits(code) && code[0] != '0'
    ensures DigitsValue(code) == RoomCodeNumber(r)
  {
    var n := RoomCodeNumber(r);
    assert Pow10(4) == 10000 && Pow10(5) == 100000;
    NatToStringLength(n, 5);
    NatToStringRoundTrip(n);
    NatToString(n)
  }

  /** The host's peer is registered under the room code: the room is waiting. */
  function HostOpened(s: Session, code: string): (r: Session)
    ensures r.roomCode == code && r.connection == Waiting
  {
    s.(roomCode := code, connection := Waiting)
  }

  /** The main link opened: connected, the error cleared, and this peer's
      `player_info` goes out. */
  function PrimaryOpened(s: Session): (r: Sent)
    ensures r.session.connection == Connected && r.session.error.None?
    ensures r.message == PlayerInfoMsg(PlayerInfoOf(s))
  {
    Sent(s.(connection := Connected, error := None), PlayerInfoMsg(PlayerInfoOf(s)))
  }

  function PrimaryClosed(s: Session): (r: Session)
    ensures r == s.(connection := Disconnected)
  {
    s.(connection := Disconnected)
  }

  function PrimaryError(s: Session, message: string): (r: Session)
    ensures r.connection == Disconnected && r.error == Some("Connection error: " + message)
  {
    s.(error := Some("Connection error: " + message), connection := Disconnected)
  }

  /** A spectator link closing drops the last name of the list (none when it
      is already empty). */
  function SpectatorClosed(s: Session): (r: Session)
    ensures |s.spectators| > 0 ==> r.spectators == s.spectators[..|s.spectators| - 1]
    ensures |s.spectators| == 0 ==> r.spectators == []
    ensures r == s.(spectators := r.spectators)
  {
    s.(spectators := if |s.spectators| > 0 then s.spectators[..|s.spectators| - 1] else [])
  }

  const FailedToCreatePrefix: string := "Failed to create room: "
  const FailedToJoinPrefix: string := "Failed to join room: "
  // Each fixed text is written as a short head and its tail: the proofs
  // below need only the first letter, which the verifier reads off a short
  // literal at once but not off a long one.
  const RoomInUseText: string := "Room code in use" + ", please try again"
  const RoomNotFoundText: string := "Room not found" + " - check the code and try again"
  const NetworkErrorText: string := "Network error" + " - check your internet connection"
  const ServerErrorText: string := "Server error" + " - please try again"

  /** The message shown when the host's peer fails, by error type. */
  function HostErrorMessage(errType: string): string {
    if errType == "unavailable-id" then RoomInUseText
    else if errType == "network" then NetworkErrorText
    else if errType == "server-error" then ServerErrorText
    else FailedToCreatePrefix + errType
  }

  /** The message shown when the joining peer fails, by error type. */
  function JoinErrorMessage(errType: string): string {
    if errType == "peer-unavailable" then RoomNotFoundText
    else if errType == "network" then NetworkErrorText
    else if errType == "server-error" then ServerErrorText
    else FailedToJoinPrefix + errType
  }

  /** A failing host peer shows the message for its error type and goes idle. */
  function HostPeerError(s: Session, errType: string): (r: Session)
    ensures r.connection == Idle && r.error == Some(HostErrorMessage(errType))
  {
    s.(error := Some(HostErrorMessage(errType)), connection := Idle)
  }

  /** A failing joining peer shows the message for its error type and goes idle. */
  function JoinPeerError(s: Session, errType: string): (r: Session)
    ensures r.connection == Idle && r.error == Some(JoinErrorMessage(errType))
  {
    s.(error := Some(JoinErrorMessage(errType)), connection := Idle)
  }

  // ---------------------------------------------------------------------------
  // Properties

  lemma PrefixDistinguishes(p: string, x: string, y: string)
    requires x != y
    ensures p + x != p + y
  {
    if |x| == |y| {
      var i :| 0 <= i < |x| && x[i] != y[i];
      assert (p + x)[|p| + i] != (p + y)[|p| + i];
    }
  }

  /** Different error types give different messages, for either peer. */
  lemma ErrorMessagesDistinct(e1: string, e2: string)
    requires e1 != e2
    ensures HostErrorMessage(e1) != HostErrorMessage(e2)
    ensures JoinErrorMessage(e1) != JoinErrorMessage(e2)
  {
    HostErrorMessagesDistinct(e1, e2);
    JoinErrorMessagesDistinct(e1, e2);
  }

  lemma HostErrorMessagesDistinct(e1: string, e2: string)
    requires e1 != e2
    ensures HostErrorMessage(e1) != HostErrorMessage(e2)
  {
    PrefixDistinguishes(FailedToCreatePrefix, e1, e2);
    HostInitial(e1);
    HostInitial(e2);
  }

  lemma JoinErrorMessagesDistinct(e1: string, e2: string)
    requires e1 != e2
    ensures JoinErrorMessage(e1) != JoinErrorMessage(e2)
  {
    PrefixDistinguishes(FailedToJoinPrefix, e1, e2);
    JoinInitial(e1);
    JoinInitial(e2);
  }

  lemma HostInitial(e: string)
    ensures |HostErrorMessage(e)| > 0 && HostErrorMessage(e)[0] == ErrorInitial(e, "unavailable-id")
  {
    var m := HostErrorMessage(e);
    if e == "unavailable-id" {
      assert m[0] == 'R';
    } else if e == "network" {
      assert e[0] != "unavailable-id"[0];
      assert m[0] == 'N';
    } else if e == "server-error" {
      assert e[0] != "unavailable-id"[0] && e[0] != "network"[0];
      assert m[0] == 'S';
    } else {
      assert m == FailedToCreatePrefix + e;
      assert m[0] == 'F';
    }
  }

  lemma JoinInitial(e: string)
    ensures |JoinErrorMessage(e)| > 0 && JoinErrorMessage(e)[0] == ErrorInitial(e, "peer-unavailable")
  {
    var m := JoinErrorMessage(e);
    if e == "peer-unavailable" {
      assert m[0] == 'R';
    } else if e == "network" {
      assert e[0] != "peer-unavailable"[0];
      assert m[0] == 'N';
    } else if e == "server-error" {
      assert e[0] != "peer-unavailable"[0] && e[0] != "network"[0];
      assert m[0] == 'S';
    } else {
      assert m == FailedToJoinPrefix + e;
      assert m[0] == 'F';
    }
  }

  /** The first letter of an error message, which already tells the error
      kinds with fixed texts apart from each other and from the rest. */
  function ErrorInitial(errType: string, notFound: string): char {
    if errType == notFound then 'R'
    else if errType == "network" then 'N'
    else if errType == "server-error" then 'S'
    else 'F'
  }

  /** A chat line sent by one peer ends up, identical, at the end of both logs. */
  lemma ChatReachesBothLogs(sender: Session, receiver: Session, id: string, timestamp: int, text: string, isEmoji: bool, fromSpectator: bool)
    ensures var sent := SendChat(sender, id, timestamp, text, isEmoji);
            var got := HandleMessage(receiver, sent.message, fromSpectator).session;
            && got.chat == receiver.chat + [sent.session.chat[|sender.chat|]]
            && sent.session.chat[|sender.chat|].text == text
            && sent.session.chat[|sender.chat|].sender == sender.playerName
  {
  }

  /** The rematch handshake: the request marks both peers with the requester's
      party, and either answer clears the request on both. */
  lemma RematchHandshake(requester: Session, responder: Session, accept: bool, fromSpectator: bool)
    ensures var req := RequestRematch(requester);
            var prompted := HandleMessage(responder, req.message, fromSpectator).session;
            var answer := RespondToRematch(prompted, accept);
            var done := HandleMessage(req.session, answer.message, fromSpectator).session;
            && prompted.rematchRequested
            && prompted.rematchRequestedBy == req.session.rematchRequestedBy
            && !answer.session.rematchRequested && answer.session.rematchRequestedBy.None?
            && !done.rematchRequested && done.rematchRequestedBy.None?
  {
  }

  /** A timer report leaves sender and receiver showing the same value. */
  lemma TimerSyncAgrees(sender: Session, receiver: Session, value: int, fromSpectator: bool)
    ensures var sent := SyncTimer(sender, value);
            HandleMessage(receiver, sent.message, fromSpectator).session.timerValue == sent.session.timerValue
  {
  }

  /** When the main link opens and both peers announce themselves, the guest
      takes the side the host does not play, and both end up with the host's
      timer settings. */
  lemma HandshakeAgrees(host: Session, guest: Session, side: Side)
    requires host.isHost && !guest.isHost && host.role == Some(Plays(side))
    ensures var h := PrimaryOpened(host);
            var g := PrimaryOpened(guest);
            var host' := HandleMessageCorrected(h.session, g.message, false).session;
            var guest' := HandleMessageCorrected(g.session, h.message, false).session;
            && guest'.role == Some(Plays(side.Other()))
            && host'.role == host.role
            && host'.timerSettings == host.timerSettings
            && guest'.timerSettings == host.timerSettings
            && guest'.timerValue == host.timerSettings.seconds
            && host'.opponentName == guest.playerName && guest'.opponentName == host.playerName
  {
  }

  /** The reducer as written, on the host: a host that chose a 15 s timer and
      a guest that kept the default settings end up with different settings,
      the host's overwritten by the guest's default. */
  lemma HostTimerOverwrittenAsWritten()
    ensures var chosen := TimerSettings(true, 15);
            var h := PrimaryOpened(CreateRoom(InitialSession, Plays(Tiger), "h", chosen));
            var g := PrimaryOpened(JoinRoom(InitialSession, "g", false));
            var host' := HandleMessage(h.session, g.message, false).session;
            var guest' := HandleMessage(g.session, h.message, false).session;
            && host'.timerSettings == DefaultTimer
            && guest'.timerSettings == chosen
            && host'.timerSettings != guest'.timerSettings
  {
  }

  /** Disconnecting twice is disconnecting once. */
  lemma DisconnectIdempotent(s: Session)
    ensures Disconnect(Disconnect(s)) == Disconnect(s)
  {
  }
}
