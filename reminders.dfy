/**
  The reminder records kept per user by main.py, the validation of a `/remind`
  request, and the one operation both later updates use: keep, in order, the
  records that satisfy a retention rule (an id that differs from the one just
  sent, or a due time still after the clock).
 */
module Reminders {
  import opened Wrappers
  import opened Decimal
  import opened TimeParser
  import opened TimeFormat

  /** One stored reminder `{text, time, id}`; `time` is the clock instant it is due, in whole seconds. */
  datatype Reminder = Reminder(text: string, time: int, id: string)

  /** Why `/remind` refused a request; each is answered with its own reply and changes nothing. */
  datatype CreateError = UsageError | InvalidFormat | TooShort | TooLong

  /** The longest accepted delay: 365 days of 86400 seconds. */
  const MaxSeconds: nat := 86400 * 365

  /** `' '.join(words)`. */
  function JoinWords(words: seq<string>): string {
    if words == [] then ""
    else if |words| == 1 then words[0]
    else JoinWords(words[..|words| - 1]) + " " + words[|words| - 1]
  }

  /**
    The checks of `/remind`, in the source's order: at least two arguments, a
    parsable duration token, at least one second, at most a year. On success the
    value is the delay in seconds.
   */
  function ValidateRequest(args: seq<string>): (r: Result<nat, CreateError>)
    ensures r.Success? <==>
      |args| >= 2 && StartsWithToken(args[0]) && 1 <= ParseTime(args[0]).value <= MaxSeconds
    ensures r.Success? ==> Some(r.value) == ParseTime(args[0]) && 1 <= r.value <= MaxSeconds
    ensures r == Failure(UsageError) <==> |args| < 2
    ensures r == Failure(InvalidFormat) <==> |args| >= 2 && !StartsWithToken(args[0])
    ensures r == Failure(TooShort) <==> |args| >= 2 && ParseTime(args[0]) == Some(0)
    ensures r == Failure(TooLong) <==>
      |args| >= 2 && StartsWithToken(args[0]) && ParseTime(args[0]).value > MaxSeconds
  {
    if |args| < 2 then Failure(UsageError)
    else
      ParseTimeNoneIff(args[0]);
      match ParseTime(args[0])
      case None => Failure(InvalidFormat)
      case Some(seconds) =>
        if seconds < 1 then Failure(TooShort)
        else if seconds > MaxSeconds then Failure(TooLong)
        else Success(seconds)
  }

  /** A retention rule: what a record must satisfy to stay in its user's list. */
  datatype Retain =
    | OtherThan(id: string)  // after sending: drop the record with this id
    | DueAfter(now: int)     // on `/reminders`: drop the records whose time is not after `now`

  predicate Retains(k: Retain, r: Reminder) {
    match k
    case OtherThan(id) => r.id != id
    case DueAfter(now) => r.time > now
  }

  /** The records of `rs` that the rule retains, in their original order. */
  function Filter(rs: seq<Reminder>, k: Retain): (kept: seq<Reminder>)
    ensures |kept| <= |rs|
    ensures forall i :: 0 <= i < |kept| ==> Retains(k, kept[i]) && kept[i] in rs
  {
    if rs == [] then []
    else
      var front := Filter(rs[..|rs| - 1], k);
      var last := rs[|rs| - 1];
      assert forall r :: r in rs[..|rs| - 1] ==> r in rs;
      if Retains(k, last) then front + [last] else front
  }

  /** Filtering distributes over concatenation: the kept records stay in their original order. */
  lemma {:induction false} FilterConcat(a: seq<Reminder>, b: seq<Reminder>, k: Retain)
    ensures Filter(a + b, k) == Filter(a, k) + Filter(b, k)
  {
    if b == [] {
      assert a + b == a;
    } else {
      var b' := b[..|b| - 1];
      assert (a + b)[..|a + b| - 1] == a + b';
      FilterConcat(a, b', k);
    }
  }

  /** Every record is kept as often as it occurs, if the rule retains it, and dropped otherwise. */
  lemma {:induction false} FilterCount(rs: seq<Reminder>, k: Retain, x: Reminder)
    ensures multiset(Filter(rs, k))[x] == if Retains(k, x) then multiset(rs)[x] else 0
  {
    if rs != [] {
      var front := rs[..|rs| - 1];
      assert rs == front + [rs[|rs| - 1]];
      FilterCount(front, k, x);
    }
  }

  /** Nothing is kept exactly when no record satisfies the rule. */
  lemma {:induction false} FilterEmptyIff(rs: seq<Reminder>, k: Retain)
    ensures Filter(rs, k) == [] <==> forall i :: 0 <= i < |rs| ==> !Retains(k, rs[i])
  {
    if rs != [] {
      var front := rs[..|rs| - 1];
      FilterEmptyIff(front, k);
      assert forall i :: 0 <= i < |front| ==> front[i] == rs[i];
    }
  }

  /** A list that the rule retains entirely is left as it is. */
  lemma {:induction false} FilterKeepsAll(rs: seq<Reminder>, k: Retain)
    requires forall i :: 0 <= i < |rs| ==> Retains(k, rs[i])
    ensures Filter(rs, k) == rs
  {
    if rs != [] {
      var front := rs[..|rs| - 1];
      FilterKeepsAll(front, k);
      assert front + [rs[|rs| - 1]] == rs;
    }
  }

  /**
    Pruning at a later clock after pruning at an earlier one is pruning at the later
    one alone; with equal clocks, pruning twice is pruning once.
   */
  lemma {:induction false} PruneTwice(rs: seq<Reminder>, earlier: int, later: int)
    requires earlier <= later
    ensures Filter(Filter(rs, DueAfter(earlier)), DueAfter(later)) == Filter(rs, DueAfter(later))
  {
    if rs != [] {
      var front := rs[..|rs| - 1];
      var last := rs[|rs| - 1];
      PruneTwice(front, earlier, later);
      if last.time > earlier {
        FilterConcat(Filter(front, DueAfter(earlier)), [last], DueAfter(later));
      }
    }
  }

  /**
    Creating a reminder and then removing its id after sending gives back the
    user's earlier list, provided no earlier record carries the same id.
   */
  lemma AppendThenRemove(rs: seq<Reminder>, r: Reminder)
    requires forall i :: 0 <= i < |rs| ==> rs[i].id != r.id
    ensures Filter(rs + [r], OtherThan(r.id)) == rs
  {
    assert (rs + [r])[..|rs|] == rs;
    FilterKeepsAll(rs, OtherThan(r.id));
  }

  /**
    A reminder created at `created` with delay `seconds` is listed by `/reminders`
    at any clock before it is due, as the last pending record, and the remaining
    time shown for it never exceeds the requested delay: the displayed count
    times its unit is at most `seconds`.
   */
  lemma CreatedThenListed(rs: seq<Reminder>, r: Reminder, created: int, seconds: nat, now: int)
    requires r.time == created + seconds
    requires created <= now < r.time
    ensures var pending := Filter(rs + [r], DueAfter(now));
            |pending| > 0 && pending[|pending| - 1] == r
    ensures var left := r.time - now;
            var shown := FormatTimeRemaining(left);
            var n := DigitRun(shown);
            && 0 < n
            && DigitsValue(shown[..n]) * ChosenUnit(left) <= seconds
  {
    assert (rs + [r])[..|rs|] == rs;
    FormatTimeRemainingMeaning(r.time - now);
  }
}
