/**
 * The per-turn countdown: once a second while it runs the value drops by one,
 * and a tick at 1 (or below) reports "time up" and starts over from the
 * configured number of seconds. A change of turn, an explicit reset and a new
 * duration all start the countdown over. The host alone reports its value to
 * the other peer.
 *
 * The one-second and five-second intervals are not modelled; each tick is one
 * call of `Tick`.
 */
module TurnTimer {
  import opened Options
  import opened Rules

  /** The displayed value and the turn it is counting for. */
  datatype Countdown = Countdown(timeLeft: int, lastTurn: Side)

  datatype Ticked = Ticked(countdown: Countdown, timeUp: bool)

  function StartCountdown(seconds: int, turn: Side): Countdown {
    Countdown(seconds, turn)
  }

  /** The countdown runs only while enabled, before the game ends and while
      connected. */
  predicate Running(enabled: bool, gameOver: Option<string>, connected: bool) {
    enabled && gameOver.None? && connected
  }

  /** The value after one tick, and whether that tick reported time up. */
  function TickValue(timeLeft: int, seconds: int): (int, bool) {
    if timeLeft <= 1 then (seconds, true) else (timeLeft - 1, false)
  }

  /** One tick of the interval; nothing happens while the countdown is stopped. */
  function Tick(c: Countdown, seconds: int, running: bool): (r: Ticked)
    ensures !running ==> r == Ticked(c, false)
    ensures r.countdown.lastTurn == c.lastTurn
    ensures running ==> (r.timeUp <==> c.timeLeft <= 1)
    ensures running && !r.timeUp ==> r.countdown.timeLeft == c.timeLeft - 1
    ensures r.timeUp ==> r.countdown.timeLeft == seconds
  {
    if !running then Ticked(c, false)
    else
      var (v, up) := TickValue(c.timeLeft, seconds);
      Ticked(c.(timeLeft := v), up)
  }

  /** Seeing the current turn: a different turn than last seen starts over. */
  function ObserveTurn(c: Countdown, turn: Side, seconds: int): (r: Countdown)
    ensures r.lastTurn == turn
    ensures turn != c.lastTurn ==> r.timeLeft == seconds
    ensures turn == c.lastTurn ==> r == c
  {
    if turn != c.lastTurn then Countdown(seconds, turn) else c
  }

  /** Starting the countdown over, on an explicit reset and equally when the
      duration setting changes. */
  function ResetTimer(c: Countdown, seconds: int): (r: Countdown)
    ensures r.timeLeft == seconds && r.lastTurn == c.lastTurn
  {
    c.(timeLeft := seconds)
  }

  /** The warning state of the display. */
  predicate IsLow(enabled: bool, timeLeft: int) {
    enabled && timeLeft <= 5 && timeLeft > 0
  }

  /** The host's periodic report: only a connected host with the timer enabled
      sends its value. */
  function SyncReport(enabled: bool, connected: bool, isHost: bool, timeLeft: int): (r: Option<int>)
    ensures r.Some? <==> enabled && connected && isHost
    ensures r.Some? ==> r.value == timeLeft
  {
    if enabled && connected && isHost then Some(timeLeft) else None
  }

  // ---------------------------------------------------------------------------
  // Properties of the countdown

  /** Ticking keeps a value in 1..seconds inside that range. */
  lemma TickKeepsRange(c: Countdown, seconds: int, running: bool)
    requires 1 <= c.timeLeft <= seconds
    ensures 1 <= Tick(c, seconds, running).countdown.timeLeft <= seconds
  {
  }

  /** `n` running ticks from `timeLeft`: the final value and how many of them
      reported time up. */
  function Ticks(timeLeft: int, seconds: int, n: nat): (r: (int, nat))
    ensures r.1 <= n
    decreases n
  {
    if n == 0 then (timeLeft, 0)
    else
      var (v, up) := TickValue(timeLeft, seconds);
      var rest := Ticks(v, seconds, n - 1);
      (rest.0, rest.1 + if up then 1 else 0)
  }

  /** Fewer ticks than the value count down quietly. */
  lemma {:induction false} TicksBeforeTimeUp(v: int, seconds: int, n: nat)
    requires n < v
    ensures Ticks(v, seconds, n) == (v - n, 0)
    decreases n
  {
    if n > 0 {
      TicksBeforeTimeUp(v - 1, seconds, n - 1);
    }
  }

  /** From a value `v` of at least 1, time up is reported by exactly the
      `v`-th tick, which restarts the countdown. */
  lemma TimeUpAfterExactlyV(v: int, seconds: int)
    requires v >= 1
    ensures Ticks(v, seconds, v - 1) == (1, 0)
    ensures Ticks(v, seconds, v) == (seconds, 1)
  {
    TicksBeforeTimeUp(v, seconds, v - 1);
    TicksSplit(v, seconds, v - 1, 1);
  }

  /** `a + b` ticks are `a` ticks followed by `b` ticks. */
  lemma {:induction false} TicksSplit(v: int, seconds: int, a: nat, b: nat)
    ensures var first := Ticks(v, seconds, a);
            var second := Ticks(first.0, seconds, b);
            Ticks(v, seconds, a + b) == (second.0, first.1 + second.1)
    decreases a
  {
    if a > 0 {
      var (w, _) := TickValue(v, seconds);
      TicksSplit(w, seconds, a - 1, b);
    }
  }

  /** The warning is shown exactly while time up is at most five ticks away. */
  lemma LowIffTimeUpWithinFive(v: int, seconds: int)
    requires v >= 1
    ensures IsLow(true, v) <==> Ticks(v, seconds, 5).1 >= 1
  {
    if v <= 5 {
      TimeUpAfterExactlyV(v, seconds);
      TicksSplit(v, seconds, v, 5 - v);
    } else {
      TicksBeforeTimeUp(v, seconds, 5);
    }
  }
}
