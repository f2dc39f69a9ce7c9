/**
  `format_time_remaining` of main.py: a count of seconds shown in the largest unit
  among seconds, minutes, hours and days that the thresholds 60, 3600 and 86400
  allow, the count taken with floor division, and the unit word made plural
  unless the count is exactly 1 (the seconds branch is always plural).
 */
module TimeFormat {
  import opened Decimal

  /** The display units, in seconds, smallest first. */
  const Units: seq<nat> := [1, 60, 3600, 86400]

  /**
    The unit the thresholds pick: the largest unit not exceeding `seconds`,
    and seconds for anything below a minute (zero and negative counts included).
   */
  function ChosenUnit(seconds: int): (u: nat)
    ensures u in Units
    ensures u == 1 || u <= seconds
    ensures forall i :: 0 <= i < |Units| && Units[i] <= seconds ==> Units[i] <= u
  {
    if seconds < 60 then 1
    else if seconds < 3600 then 60
    else if seconds < 86400 then 3600
    else 86400
  }

  function UnitName(u: nat): string {
    if u == 1 then "second"
    else if u == 60 then "minute"
    else if u == 3600 then "hour"
    else "day"
  }

  /** `count` and the unit word, with the plural "s" unless the count is 1. */
  function Counted(count: nat, word: string): string {
    NatToDecimal(count) + " " + word + (if count != 1 then "s" else "")
  }

  function FormatTimeRemaining(seconds: int): string {
    if seconds < 60 then IntToDecimal(seconds) + " seconds"
    else if seconds < 3600 then Counted(seconds / 60, "minute")
    else if seconds < 86400 then Counted(seconds / 3600, "hour")
    else Counted(seconds / 86400, "day")
  }

  /**
    `r` read back: it begins with a count `c`, written as Python's `str()` writes it, that is the floor of `seconds`
    divided by the chosen unit (at least 1 unless the unit is seconds), followed by
    a space and the unit's name, with a plural "s" exactly when the unit is seconds
    or `c` is not 1.
   */
  ghost predicate ShowsCount(seconds: int, r: string) {
    var n := DigitRun(r);
    var u := ChosenUnit(seconds);
    && 0 < n
    && var c := DigitsValue(r[..n]);
    && r[..n] == NatToDecimal(c)
    && c * u <= seconds < c * u + u
    && (u > 1 ==> c >= 1)
    && r[n..] == " " + UnitName(u) + (if u == 1 || c != 1 then "s" else "")
  }

  /** What the display of a non-negative count says, read back. */
  lemma {:induction false} FormatTimeRemainingMeaning(seconds: nat)
    ensures ShowsCount(seconds, FormatTimeRemaining(seconds))
  {
    if seconds < 60 {
      ShowsSeconds(seconds);
    } else if seconds < 3600 {
      ShowsMinutes(seconds);
    } else if seconds < 86400 {
      ShowsHours(seconds);
    } else {
      ShowsDays(seconds);
    }
  }

  lemma ShowsSeconds(seconds: nat)
    requires seconds < 60
    ensures ShowsCount(seconds, FormatTimeRemaining(seconds))
  {
    assert " seconds" == " " + UnitName(1) + "s";
    LeadingCount(seconds, " seconds");
  }

  lemma ShowsMinutes(seconds: nat)
    requires 60 <= seconds < 3600
    ensures ShowsCount(seconds, FormatTimeRemaining(seconds))
  {
    var c := seconds / 60;
    var tail := " minute" + (if c != 1 then "s" else "");
    assert " minute" == " " + UnitName(60);
    assert FormatTimeRemaining(seconds) == NatToDecimal(c) + tail;
    LeadingCount(c, tail);
  }

  lemma ShowsHours(seconds: nat)
    requires 3600 <= seconds < 86400
    ensures ShowsCount(seconds, FormatTimeRemaining(seconds))
  {
    var c := seconds / 3600;
    var tail := " hour" + (if c != 1 then "s" else "");
    assert " hour" == " " + UnitName(3600);
    assert FormatTimeRemaining(seconds) == NatToDecimal(c) + tail;
    LeadingCount(c, tail);
  }

  lemma ShowsDays(seconds: nat)
    requires 86400 <= seconds
    ensures ShowsCount(seconds, FormatTimeRemaining(seconds))
  {
    var c := seconds / 86400;
    var tail := " day" + (if c != 1 then "s" else "");
    assert " day" == " " + UnitName(86400);
    assert FormatTimeRemaining(seconds) == NatToDecimal(c) + tail;
    LeadingCount(c, tail);
  }

  /** A count followed by text that starts with a non-digit: the leading digit run reads back as the count. */
  lemma LeadingCount(count: nat, tail: string)
    requires tail != [] && !IsDigit(tail[0])
    ensures var r := NatToDecimal(count) + tail;
            var n := DigitRun(r);
            && n == |NatToDecimal(count)| && 0 < n
            && r[..n] == NatToDecimal(count)
            && DigitsValue(r[..n]) == count
            && r[n..] == tail
  {
    var d := NatToDecimal(count);
    DigitRunOfPrefix(d, tail);
    assert (d + tail)[..|d|] == d && (d + tail)[|d|..] == tail;
  }

  /** Single-digit examples: singular only for exactly one minute, hour or day; seconds always plural. */
  lemma FormatTimeRemainingExamples()
    ensures FormatTimeRemaining(1) == "1 seconds"
    ensures FormatTimeRemaining(60) == "1 minute"
    ensures FormatTimeRemaining(150) == "2 minutes"
    ensures FormatTimeRemaining(3600) == "1 hour"
    ensures FormatTimeRemaining(86400) == "1 day"
  {
    assert NatToDecimal(1) == "1" && NatToDecimal(2) == "2";
  }

  /** A multi-digit example: the longest accepted delay is shown as 365 days. */
  lemma FormatTimeRemainingOneYear()
    ensures FormatTimeRemaining(86400 * 365) == "365 days"
  {
    assert NatToDecimal(365) == NatToDecimal(36) + "5";
    assert NatToDecimal(36) == NatToDecimal(3) + "6";
    assert FormatTimeRemaining(86400 * 365) == Counted(365, "day");
  }
}
