/**
  The in-memory store `user_reminders` of main.py, a dictionary from user id to
  that user's ordered list of reminders, and the three handlers that change it:
  `/remind` appends, the delivery task removes the delivered id, and
  `/reminders` prunes what is no longer pending. The clock reading `now`, the
  reminder id and whether the delivery succeeded are given as parameters.
 */
module Store {
  import opened Wrappers
  import opened TimeFormat
  import opened Reminders
  import TimeParser

  /** What `/remind` answers on success: the stored record and the delay as displayed. */
  datatype Confirmation = Confirmation(reminder: Reminder, timeDisplay: string)

  /** `user_reminders.get(user, [])`: a user without an entry has no reminders. */
  function ListOf(m: map<int, seq<Reminder>>, user: int): seq<Reminder> {
    if user in m then m[user] else []
  }

  /**
    The loop that copies, in order, the records a rule retains (the comprehension
    of the delivery task and the `active_reminders` loop of `/reminders`).
   */
  method Retained(rs: seq<Reminder>, k: Retain) returns (kept: seq<Reminder>)
    ensures kept == Filter(rs, k)
  {
    kept := [];
    var i := 0;
    while i < |rs|
      invariant 0 <= i <= |rs|
      invariant kept == Filter(rs[..i], k)
    {
      assert rs[..i + 1][..i] == rs[..i];
      if Retains(k, rs[i]) {
        kept := kept + [rs[i]];
      }
      i := i + 1;
    }
    assert rs[..i] == rs;
  }

  /** The time left on each pending reminder, as the `/reminders` listing displays it. */
  method RemainingDisplays(pending: seq<Reminder>, now: int) returns (lines: seq<string>)
    ensures |lines| == |pending|
    ensures forall i :: 0 <= i < |pending| ==> lines[i] == FormatTimeRemaining(pending[i].time - now)
  {
    lines := [];
    for i := 0 to |pending|
      invariant |lines| == i
      invariant forall j :: 0 <= j < i ==> lines[j] == FormatTimeRemaining(pending[j].time - now)
    {
      lines := lines + [FormatTimeRemaining(pending[i].time - now)];
    }
  }

  class ReminderStore {
    var reminders: map<int, seq<Reminder>>

    /** The bot starts with an empty store (loading the saved file is not modelled). */
    constructor ()
      ensures reminders == map[]
    {
      reminders := map[];
    }

    /**
      `/remind <time> <message...>` from `user` at clock `now`, with `id` for the new
      record. A refused request changes nothing; an accepted one appends the record
      due at `now` plus the delay to the end of the user's list, creating the list
      if needed, and leaves every other user's list alone.
     */
    method Remind(user: int, args: seq<string>, now: int, id: string)
      returns (result: Result<Confirmation, CreateError>)
      modifies this
      ensures ValidateRequest(args).Failure? ==>
        result == Failure(ValidateRequest(args).error) && reminders == old(reminders)
      ensures ValidateRequest(args).Success? ==>
        var seconds := ValidateRequest(args).value;
        var r := Reminder(JoinWords(args[1..]), now + seconds, id);
        && result == Success(Confirmation(r, FormatTimeRemaining(seconds)))
        && reminders == old(reminders)[user := ListOf(old(reminders), user) + [r]]
    {
      var checked := ValidateRequest(args);
      if checked.Failure? {
        return Failure(checked.error);
      }
      var seconds := checked.value;
      var r := Reminder(JoinWords(args[1..]), now + seconds, id);
      if user !in reminders {
        reminders := reminders[user := []];
      }
      reminders := reminders[user := reminders[user] + [r]];
      result := Success(Confirmation(r, FormatTimeRemaining(seconds)));
    }

    /**
      The end of the delivery task for reminder `id` of `user`. Only when the message
      went out (`delivered`) and the user still has an entry does the user's list
      lose every record with that id, keeping the others in order.
     */
    method RemoveAfterSend(user: int, id: string, delivered: bool)
      modifies this
      ensures !delivered || user !in old(reminders) ==> reminders == old(reminders)
      ensures delivered && user in old(reminders) ==>
        reminders == old(reminders)[user := Filter(old(reminders)[user], OtherThan(id))]
      ensures delivered && user in reminders ==>
        forall i :: 0 <= i < |reminders[user]| ==> reminders[user][i].id != id
    {
      if delivered && user in reminders {
        var kept := Retained(reminders[user], OtherThan(id));
        reminders := reminders[user := kept];
      }
    }

    /**
      The clean-up of `/reminders` at clock `now`: returns the user's records still
      due after `now`, in order, and makes them the user's list. A user without an
      entry, or with an empty list, is left as is (no entry is created).
     */
    method PruneExpired(user: int, now: int) returns (pending: seq<Reminder>)
      modifies this
      ensures pending == Filter(ListOf(old(reminders), user), DueAfter(now))
      ensures forall i :: 0 <= i < |pending| ==> pending[i].time > now
      ensures ListOf(old(reminders), user) == [] ==> reminders == old(reminders)
      ensures ListOf(old(reminders), user) != [] ==> reminders == old(reminders)[user := pending]
    {
      var current := ListOf(reminders, user);
      if current == [] {
        return [];
      }
      pending := Retained(current, DueAfter(now));
      if pending == [] {
        reminders := reminders[user := []];
        return;
      }
      reminders := reminders[user := pending];
    }

    /**
      `/reminders` at clock `now`: the clean-up of `PruneExpired`, then one line per
      pending reminder, in order, showing the time left until it is due.
     */
    method ListReminders(user: int, now: int) returns (pending: seq<Reminder>, lines: seq<string>)
      modifies this
      ensures pending == Filter(ListOf(old(reminders), user), DueAfter(now))
      ensures ListOf(old(reminders), user) == [] ==> reminders == old(reminders)
      ensures ListOf(old(reminders), user) != [] ==> reminders == old(reminders)[user := pending]
      ensures |lines| == |pending|
      ensures forall i :: 0 <= i < |pending| ==>
        pending[i].time > now && lines[i] == FormatTimeRemaining(pending[i].time - now)
    {
      pending := PruneExpired(user, now);
      lines := RemainingDisplays(pending, now);
    }
  }

  /**
    A one-shot reminder from start to end: `/remind 1s ping` for a user with no
    reminders, the delivery succeeding, then `/reminders` finding nothing pending.
   */
  method OneShotLifecycle(user: int, now: int, id: string) returns (created: Result<Confirmation, CreateError>, listed: seq<Reminder>)
    ensures created.Success? && created.value.reminder == Reminder("ping", now + 1, id)
    ensures created.value.timeDisplay == "1 seconds"
    ensures listed == []
  {
    var store := new ReminderStore();
    TimeParser.ParseTimeToken("1", 's', "");
    assert "1" + ['s'] + "" == "1s";
    created := store.Remind(user, ["1s", "ping"], now, id);
    store.RemoveAfterSend(user, id, true);
    // Listing at `now`, before the record falls due, shows that the removal alone
    // empties the list: at `now + 1` or later the prune would already drop it.
    listed := store.PruneExpired(user, now);
  }
}
