/**
 * The turn timer's display: seconds as "<s>s" below a minute and as "m:ss"
 * from a minute on, and nothing at all while the timer is disabled.
 */
module TimeFormat {
  import opened Options
  import opened Digits

  /** JavaScript's `%`: the remainder takes the sign of the dividend. */
  function JsRem(a: int, b: int): (r: int)
    requires b > 0
    ensures -b < r < b
    ensures a >= 0 ==> r == a % b
    ensures a < 0 ==> r <= 0 && -r == (-a) % b
  {
    if a >= 0 then a % b else -((-a) % b)
  }

  /** `String.prototype.padStart(2, "0")`. */
  function PadStart2(s: string): (r: string)
    ensures |s| >= 2 ==> r == s
    ensures |s| < 2 ==> |r| == 2 && r[2 - |s|..] == s && forall i :: 0 <= i < 2 - |s| ==> r[i] == '0'
  {
    if |s| >= 2 then s else if |s| == 1 then "0" + s else "00"
  }

  /** Whole minutes and the remaining seconds, as the display splits them:
      `Math.floor(t / 60)` and `t % 60`. */
  function Split(t: int): (int, int) {
    (t / 60, JsRem(t, 60))
  }

  function FormatTime(t: int): string {
    var (mins, secs) := Split(t);
    if mins > 0 then IntToString(mins) + ":" + PadStart2(IntToString(secs))
    else IntToString(secs) + "s"
  }

  /** What the timer shows: nothing while disabled. */
  function Render(enabled: bool, timeLeft: int): (r: Option<string>)
    ensures !enabled <==> r.None?
  {
    if enabled then Some(FormatTime(timeLeft)) else None
  }

  /** For a non-negative count the split loses nothing and the seconds part is
      below a minute. */
  lemma SplitRecombines(t: int)
    requires t >= 0
    ensures Split(t).0 * 60 + Split(t).1 == t
    ensures 0 <= Split(t).1 < 60 && Split(t).0 >= 0
  {
  }

  /** Below a minute the display is the count followed by "s". */
  lemma BelowAMinute(t: int)
    requires 0 <= t < 60
    ensures FormatTime(t) == NatToString(t) + "s"
  {
    assert Split(t) == (0, t);
  }

  /** From a minute on the display is "m:ss", the seconds padded to two digits. */
  lemma AtLeastAMinute(t: int)
    requires t >= 60
    ensures var s := FormatTime(t);
            && s == NatToString(t / 60) + ":" + [DigitChar(t % 60 / 10), DigitChar(t % 60 % 10)]
            && |s| >= 4 && s[|s| - 3] == ':'
  {
    var secs := t % 60;
    if secs >= 10 {
      assert NatToString(secs) == NatToString(secs / 10) + [DigitChar(secs % 10)];
    }
  }

  /** Reads a display back into seconds. */
  function ReadTime(s: string): Option<int> {
    if |s| >= 2 && s[|s| - 1] == 's' && AllDigits(s[..|s| - 1]) then
      Some(DigitsValue(s[..|s| - 1]))
    else if |s| >= 4 && s[|s| - 3] == ':' && AllDigits(s[..|s| - 3]) && AllDigits(s[|s| - 2..]) then
      Some(DigitsValue(s[..|s| - 3]) * 60 + DigitsValue(s[|s| - 2..]))
    else None
  }

  /** The display of a non-negative count is unambiguous: it reads back to the
      count. */
  lemma FormatTimeRoundTrip(t: int)
    requires t >= 0
    ensures ReadTime(FormatTime(t)) == Some(t)
  {
    if t < 60 {
      ReadBelowAMinute(t);
    } else {
      ReadFromAMinute(t);
    }
  }

  lemma ReadBelowAMinute(t: int)
    requires 0 <= t < 60
    ensures ReadTime(FormatTime(t)) == Some(t)
  {
    var s := FormatTime(t);
    BelowAMinute(t);
    assert s[..|s| - 1] == NatToString(t);
    NatToStringRoundTrip(t);
  }

  lemma ReadFromAMinute(t: int)
    requires t >= 60
    ensures ReadTime(FormatTime(t)) == Some(t)
  {
    AtLeastAMinute(t);
    var secs := t % 60;
    var hi, lo := DigitChar(secs / 10), DigitChar(secs % 10);
    PairDigits(hi, lo);
    ReadClockForm(FormatTime(t), NatToString(t / 60), [hi, lo]);
    NatToStringRoundTrip(t / 60);
    TwoDigitsValue(secs);
  }

  /** Two digit characters form a digit string. */
  lemma PairDigits(a: char, b: char)
    requires IsDigit(a) && IsDigit(b)
    ensures AllDigits([a, b]) && |[a, b]| == 2 && [a, b][1] == b
  {
    assert forall i :: 0 <= i < 2 ==> IsDigit([a, b][i]);
  }

  /** A display of the form "m:ss" reads back as m minutes and ss seconds. */
  lemma ReadClockForm(s: string, mins: string, secs: string)
    requires s == mins + ":" + secs && |mins| >= 1 && |secs| == 2
    requires AllDigits(mins) && AllDigits(secs) && secs[1] != 's'
    ensures ReadTime(s) == Some(DigitsValue(mins) * 60 + DigitsValue(secs))
  {
    assert s[|s| - 1] == secs[1];
    assert s[|s| - 3] == ':';
    assert s[..|s| - 3] == mins;
    assert s[|s| - 2..] == secs;
  }

  lemma TwoDigitsValue(n: nat)
    requires n < 100
    ensures DigitsValue([DigitChar(n / 10), DigitChar(n % 10)]) == n
  {
    var hi := DigitChar(n / 10);
    var lo := DigitChar(n % 10);
    var s := [hi, lo];
    assert s[..1] == [hi] && s[1] == lo;
    assert [hi][..0] == [];
    assert DigitsValue([hi]) == DigitValue(hi);
    assert DigitsValue(s) == DigitsValue([hi]) * 10 + DigitValue(lo);
  }
}
