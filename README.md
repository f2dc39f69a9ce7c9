# Reminder bookkeeping of a Telegram reminder bot

A Dafny model of the reminder bookkeeping in `main.py` of a Telegram bot that
lets a user write `/remind <time> <message>` and later `/reminders`:

- **Duration tokens** (`parse_time`): a token such as `10m` must *begin* with
  decimal digits followed by one of `s`, `m`, `h`, `d`. The number is scaled by
  1, 60, 3600 or 86400 seconds. Anything after the unit letter is ignored,
  because the regular expression is anchored only at the start.
- **Request validation** (`remind`): a request is refused, with its own reply,
  if it has fewer than two arguments, an unparsable token, a delay under one
  second, or a delay over 365 days. A refused request changes nothing.
- **The store** `user_reminders`: a dictionary from user id to that user's
  ordered list of `{text, time, id}` records. It is modelled as the class
  `Store.ReminderStore` with a `map<int, seq<Reminder>>` field. Three handlers
  change it. `/remind` appends a record. The delivery task drops the delivered
  id once the message went out. `/reminders` keeps only the records still due.
- **Remaining-time display** (`format_time_remaining`): seconds, minutes, hours
  or days, by the thresholds 60, 3600 and 86400. The count uses floor division.
  The word is plural unless the count is 1; the seconds branch is always plural.

The clock (`asyncio.get_event_loop().time()`), the reminder id (built with
`hash()`) and the outcome of sending the Telegram message are parameters of
the model. Times are whole seconds (`int`).

Files: `wrappers.dfy` (Option, Result), `decimal.dfy` (the greedy digit run,
`int()` of digits and `str()` of an integer), `time_parser.dfy`,
`time_format.dfy`, `reminders.dfy` (records, validation, the order-preserving
retention filter and its laws), `store.dfy` (the store class and its loops).

## Model

| member | source | states |
|---|---|---|
| Decimal.DigitRun | main.py:45 | the greedy `\d+`: the result is the length of the longest all-digit prefix (every character before it is a digit, the one at it is not) |
| Decimal.NatToDecimal | main.py:63-72 | `str()` of a count: non-empty digits, no leading zero, and reading them back with `int()` gives the count |
| Decimal.DigitRunOfPrefix | main.py:45 | a digit string followed by a non-digit (or nothing): the greedy run stops exactly at its end |
| Decimal.DigitsValue | main.py:49 | no contract: `int()` of a digit string, the definition that `NatToDecimal`, `ParseTimeToken` and `FormatTimeRemainingMeaning` read numbers back with |
| Decimal.IntToDecimal | main.py:63 | `str()` of any integer: a non-negative one as non-empty digits without a leading zero that read back as it, a negative one as `-` followed by such digits reading back as its magnitude |
| TimeParser.UnitSeconds | main.py:50-57 | no contract: the unit multipliers s = 1, m = 60, h = 3600, d = 86400, the definition `ParseTimeToken` and the examples state results in |
| TimeParser.ParseTime | main.py:43-58 | no contract: the definition of `parse_time` (greedy digit run, then a unit letter); `ParseTimeToken`, `ParseTimeNoneIff` and the examples are the lemmas about it |
| TimeParser.ParseTimeToken | main.py:43-57 | digits `n`, a unit letter, then any trailing text parses to `n` times 1, 60, 3600 or 86400 |
| TimeParser.ParseTimeNoneIff | main.py:45-47 | the parse fails exactly when the token does not begin with at least one digit immediately followed by `s`, `m`, `h` or `d` |
| TimeParser.ParseTimeExamples | main.py:83-88 | the help text's tokens `30s`, `5m`, `2h`, `1d` parse to 30, 300, 7200 and 86400 seconds |
| TimeParser.ParseTimeEdgeExamples | main.py:45-57 | `0s` parses to 0 (rejected later by the caller), `10mins` to 600 (trailing text ignored), and `abc`, `15`, `5x` fail |
| TimeFormat.ChosenUnit | main.py:62-71 | the thresholds pick the largest of 1, 60, 3600, 86400 not exceeding the count, and seconds below a minute |
| TimeFormat.UnitName | main.py:63-72 | no contract: the unit words `second`, `minute`, `hour`, `day`, the definition `FormatTimeRemainingMeaning` names the chosen unit with |
| TimeFormat.Counted | main.py:65-72 | no contract: count, space, unit word and the plural `s` unless the count is 1, the definition the minute, hour and day branches share; `FormatTimeRemainingMeaning` states what it shows |
| TimeFormat.FormatTimeRemaining | main.py:60-72 | no contract: the definition of `format_time_remaining`; `FormatTimeRemainingMeaning` and the two example lemmas are the lemmas about it |
| TimeFormat.FormatTimeRemainingMeaning | main.py:60-72 | the display starts with a count `c`, written exactly as `str(c)`, with `c*unit <= seconds < (c+1)*unit` (floor division), at least 1 for minutes, hours and days, then the unit name, plural exactly when the unit is seconds or `c != 1`; so the whole display string is fixed |
| TimeFormat.FormatTimeRemainingExamples | main.py:60-72 | `1 seconds`, `1 minute`, `2 minutes`, `1 hour`, `1 day`: singular only for a count of exactly one minute, hour or day |
| TimeFormat.FormatTimeRemainingOneYear | main.py:71-72 | the longest accepted delay, 31536000 seconds, is shown as `365 days` |
| Reminders.JoinWords | main.py:108 | no contract: `' '.join(words)`, the definition of the reminder text that `Store.ReminderStore.Remind` stores |
| Reminders.ValidateRequest | main.py:98-133 | success exactly when there are two or more arguments, the token parses and the delay is in 1..31536000, with that delay as value; each refusal names its cause, checked in the source's order |
| Reminders.Retains | main.py:177 | no contract: the retention conditions `r['id'] != reminder_id` (line 177) and `reminder['time'] > now` (line 204), the definition `Filter` and its lemmas are stated with |
| Reminders.Filter | main.py:174-178 | every kept record satisfies the retention rule and comes from the input list, and the list does not grow |
| Reminders.FilterConcat | main.py:175-178 | filtering distributes over concatenation, so kept records keep their original order |
| Reminders.FilterCount | main.py:203-205 | a record satisfying the rule is kept as many times as it occurs; any other is dropped entirely |
| Reminders.FilterEmptyIff | main.py:207-208 | the pruned list is empty exactly when no record satisfies the rule (no reminder still pending) |
| Reminders.FilterKeepsAll | main.py:203-205 | a list whose every record satisfies the rule is returned unchanged |
| Reminders.PruneTwice | main.py:199-219 | pruning at an earlier clock and then at a later one equals pruning at the later one; pruning twice at one clock equals pruning once |
| Reminders.AppendThenRemove | main.py:140-178 | appending a record and then removing its id restores the user's earlier list when no earlier record has that id |
| Reminders.CreatedThenListed | main.py:135-225 | a record created with delay `d` is, at any clock before it is due, the last pending record, and the remaining time displayed for it reads back as a count whose value in seconds is at most `d` |
| Store.ListOf | main.py:188 | no contract: `user_reminders.get(user_id, [])`, the definition the store methods state the user's old list with |
| Store.Retained | main.py:201-205 | the loop returns exactly the records the rule retains, in order |
| Store.RemainingDisplays | main.py:222-225 | one display per pending record, each the remaining-time display of `time - now` |
| Store.ReminderStore.constructor | main.py:18 | the store starts empty |
| Store.ReminderStore.Remind | main.py:96-147 | a refused request returns its cause and leaves the store unchanged; an accepted one returns the record and the delay display, and the store differs only in the user's list, which gains the record `{joined words, now + delay, id}` at its end (created if absent) |
| Store.ReminderStore.RemoveAfterSend | main.py:164-181 | nothing changes unless the send succeeded and the user has an entry; then the user's list is the order-preserving filter without that id and no record with that id remains |
| Store.ReminderStore.PruneExpired | main.py:185-219 | returns the user's records with `time > now`, in order; the user's list becomes exactly them, unless it was absent or empty, in which case the store is unchanged |
| Store.ReminderStore.ListReminders | main.py:185-225 | the whole `/reminders` answer: the store changes as in `PruneExpired`, the pending records are those with `time > now` in order, and each gets one line showing `FormatTimeRemaining(time - now)` |
| Store.OneShotLifecycle | main.py:96-219 | `/remind 1s ping` is accepted with record `{ping, now + 1, id}` and display `1 seconds`; after a successful send `/reminders` lists nothing |

## Left out

- Telegram transport: replies, the reply keyboard, message rendering, the `/start`, `/help`, echo and error handlers and `run_polling`. These are I/O.
- `asyncio.sleep` and `create_task`: the delivery task is modelled as one plain operation (`RemoveAfterSend`) at the moment it wakes. Its outcome is the `delivered` parameter, which stands for whether `send_message` raised. Interleaving with other handlers is not modelled.
- Clock readings and wall-clock text (`get_event_loop().time()`, `datetime.now`, `strftime`, `fromtimestamp`): `now` is an integer parameter. The float arithmetic and the `int()` truncation of `time - now` in the listing are not modelled; times are whole seconds.
- The reminder id `f"{user_id}_{reminder_time}_{hash(reminder_text)}"`: `hash()` differs between processes, so the id is an abstract parameter. Nothing in the source makes ids unique, and the model does not assume they are.
- Persistence (`load_reminders`, `save_reminders`) is file I/O. Every mutation in the source is followed by a full save; the model keeps only the in-memory dictionary. On load the source turns the JSON string keys back into integer user ids with `int(k)`; the model's keys are integers throughout.
- Python's `\d` also matches non-ASCII decimal digits, which `int()` accepts; the model reads only `0`-`9`.
- TimeFormat.FormatTimeRemainingMeaning: stated for non-negative counts only. Both callers pass a count that is not negative. The function itself is modelled for all integers, a negative count showing a minus sign in the seconds branch.
- Recurring reminders (daily, weekly, monthly): `main.py` has no code for them.
- Removal after a send drops every record carrying the delivered id, not just one; ids are not unique in general, and the model follows the code.
