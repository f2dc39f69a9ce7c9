/**
  The duration-token parser `parse_time` of main.py: the token must begin with
  `(\d+)([smhd])`; the number is scaled by the unit and anything after the unit
  letter is ignored, because the match is anchored only at the start.
 */
module TimeParser {
  import opened Wrappers
  import opened Decimal

  predicate IsUnit(c: char) {
    c == 's' || c == 'm' || c == 'h' || c == 'd'
  }

  /** Seconds per unit letter: s = 1, m = 60, h = 3600, d = 86400. */
  function UnitSeconds(u: char): nat
    requires IsUnit(u)
  {
    match u
    case 's' => 1
    case 'm' => 60
    case 'h' => 3600
    case 'd' => 86400
  }

  /** `s` begins with at least one digit immediately followed by a unit letter. */
  ghost predicate StartsWithToken(s: string) {
    exists k :: 0 < k < |s| && AllDigits(s[..k]) && IsUnit(s[k])
  }

  /**
    `parse_time`: the greedy `\d+` takes the whole leading digit run; backtracking
    to a shorter run cannot help, since the character after it is a digit again.
    None stands for Python's `None`.
   */
  function ParseTime(s: string): Option<nat> {
    var n := DigitRun(s);
    if n == 0 || n == |s| || !IsUnit(s[n]) then None
    else Some(DigitsValue(s[..n]) * UnitSeconds(s[n]))
  }

  /** Digits `n`, a unit letter, then anything: the result is `n` times the unit, trailing text ignored. */
  lemma ParseTimeToken(digits: string, u: char, rest: string)
    requires |digits| > 0 && AllDigits(digits) && IsUnit(u)
    ensures ParseTime(digits + [u] + rest) == Some(DigitsValue(digits) * UnitSeconds(u))
  {
    var s := digits + [u] + rest;
    assert s == digits + ([u] + rest);
    DigitRunOfPrefix(digits, [u] + rest);
    assert s[..|digits|] == digits;
  }

  /** `parse_time` returns None exactly when the token does not begin with digits followed by a unit letter. */
  lemma ParseTimeNoneIff(s: string)
    ensures ParseTime(s).None? <==> !StartsWithToken(s)
  {
    if ParseTime(s).Some? {
      var n := DigitRun(s);
      assert 0 < n < |s| && AllDigits(s[..n]) && IsUnit(s[n]);
    }
    if StartsWithToken(s) {
      var k :| 0 < k < |s| && AllDigits(s[..k]) && IsUnit(s[k]);
      assert s == s[..k] + s[k..];
      DigitRunOfPrefix(s[..k], s[k..]);
    }
  }

  /** The tokens of the bot's help text. */
  lemma ParseTimeExamples()
    ensures ParseTime("30s") == Some(30)
    ensures ParseTime("5m") == Some(300)
    ensures ParseTime("2h") == Some(7200)
    ensures ParseTime("1d") == Some(86400)
  {
    ParseTimeToken("30", 's', "");
    assert "30" + ['s'] + "" == "30s";
    ParseTimeToken("5", 'm', "");
    assert "5" + ['m'] + "" == "5m";
    ParseTimeToken("2", 'h', "");
    assert "2" + ['h'] + "" == "2h";
    ParseTimeToken("1", 'd', "");
    assert "1" + ['d'] + "" == "1d";
  }

  /** A zero count parses (the caller rejects it), trailing text is ignored, and tokens without a unit fail. */
  lemma ParseTimeEdgeExamples()
    ensures ParseTime("0s") == Some(0)
    ensures ParseTime("10mins") == Some(600)
    ensures ParseTime("abc") == None
    ensures ParseTime("15") == None
    ensures ParseTime("5x") == None
  {
    ParseTimeToken("0", 's', "");
    assert "0" + ['s'] + "" == "0s";
    ParseTimeToken("10", 'm', "ins");
    assert "10" + ['m'] + "ins" == "10mins";
  }
}
