# Reminder scheduling engine, modelled in Dafny

This project models the scheduling and supervision engine of `reminder.py`.
That engine is the `Popup` thread. It shows a reminder message at a fixed
interval, either counted from the moment of each call or anchored to a daily
"HH:MM" start time. For each firing it starts a notification process, waits a
bounded time for it, and escalates to `terminate` and then `kill`.

Time is counted in whole seconds. The clock is passed in as parameters:
`now` stands for `datetime.now()` and `today` for the midnight of
`date.today()`. The child process and the shared `threading.Event` are
abstract objects that answer each query from a script. `Child` answers
`poll()` and `wait()`, and `Event` answers `is_set()`. Any interleaving with
the real process and with a concurrent `event.set()` is one such script.

Modules:

- `Wrappers` (Wrappers.dfy): `Option` and `Result`.
- `Sequences` (Sequences.dfy): counting the occurrences of a value in a sequence.
- `StartTime` (StartTime.dfy): unit conversion, `str.split(':')`, `int()` and the "HH:MM" anchor.
- `Schedule` (Schedule.dfy): the 24-hour window built by `sync`, the daily roll-forward and the `min` selection of `sleeper`.
- `ProcessSupervisor` (ProcessSupervisor.dfy): the abstract child and event, and a function stating what the poll loop and the escalation decide.
- `Reminder` (Popup.dfy): the class `Popup`, with `Create` (for `__init__`), `Sync`, `Sleeper`, `PollLoop`, `Escalate` and `Supervise`, plus three small client methods.

The model follows the code wherever the code departs from what one might expect:

- When no entry later than `now` is left after the roll, `min` of an empty list raises. The window is not rebuilt. `Sleeper` returns `Failure(NoLaterEntry)` in that case, and `SelectFailsIff` says exactly when it happens.
- The roll does not re-sort the list (`RollUnsortsWindow`). Selection uses `min`, so order does not matter for the target.
- The window's last entry is the first one at or after anchor + 1 day. It can lie up to one interval past that instant (`WindowOvershootsDay`).
- `poll()` is tested for truthiness. A child that exited with code 0 is therefore still polled until the budget runs out, and is then sent `terminate` (`CleanExitIsTerminated`).
- `run` starts a child even when the sleep ended because the event was set. The poll loop then stops at its first event check, and the still-running child is terminated at once (`CancelledChildIsStillEscalated`).

## Model

| member | source | states |
|---|---|---|
| `StartTime.IntervalSeconds` | reminder.py:87-90 | the unit "minutes" multiplies the interval by 60; every other unit string leaves it unchanged; the result is positive exactly when the configured interval is |
| `StartTime.Split` | reminder.py:94 | `split(':')` yields one more piece than there are separators; no piece holds the separator; joining the pieces with it gives back the string |
| `StartTime.SplitAroundSeparator` | reminder.py:94 | splitting `a + ":" + b` where neither half holds a colon gives exactly `[a, b]` |
| `StartTime.ParseIntOfDecimal` | reminder.py:95 | `int()` reads the decimal spelling of every natural number of at most 4300 digits back as that number (longer spellings exceed `int()`'s digit limit) |
| `StartTime.ParseIntOfPad2` | reminder.py:95 | zero-padded two-digit fields such as "09" read back as their value |
| `StartTime.ParseIntRejects` | reminder.py:95 | `int()` rejects a string of only whitespace, the empty string included, and any string holding a character that is not a digit, whitespace (tab, line feed, vertical tab, form feed, carriage return, space), a sign or an underscore, and a digit run of more than 4300 digits |
| `StartTime.ParseStartTime` | reminder.py:94-97 | a start time without exactly one colon fails to unpack with the actual field count; a successful parse has exactly one colon and gives today's midnight plus h hours and m minutes for some hour 0..23 and minute 0..59, so it lies within today |
| `StartTime.ParseStartTimeFields` | reminder.py:94-97 | for a start time `a:b` with exactly one colon: it parses exactly when `int(a)` and `int(b)` both succeed and form an hour 0..23 and a minute 0..59, and the result is today's midnight plus `int(a)` hours and `int(b)` minutes; otherwise the error names the first field `int()` rejects, then an out-of-range hour, then an out-of-range minute |
| `StartTime.ParseFormattedClock` | reminder.py:94-97 | "HH:MM" with a valid hour and minute parses to that minute of today; an hour of 24 or more fails with the hour error; a valid hour with a minute of 60 or more fails with the minute error |
| `StartTime.StartAnchor` | reminder.py:93-99 | no start time, or an empty one, gives no anchor; a non-empty start time that parses gives exactly the parsed instant as the anchor, and any anchor given is that instant; construction fails exactly when parsing fails |
| `Schedule.WindowLength` | reminder.py:105-107 | the number of entries `sync` builds is the least n ≥ 1 with n·interval ≥ 86400, that is ceil(86400/interval) |
| `Schedule.SyncStep` | reminder.py:106-107 | the loop condition (last entry before anchor + 1 day) holds exactly while fewer than WindowLength entries exist; appending last + interval extends the grid by its next entry |
| `Schedule.WindowShape` | reminder.py:105-107 | the window is non-empty and strictly increasing; every entry is after the anchor; every entry but the last is before anchor + 1 day; the last is at or after anchor + 1 day and less than one interval past it |
| `Schedule.SyncNeverStops` | reminder.py:106-107 | with interval ≤ 0 the last entry stays before anchor + 1 day however many entries are appended, so the loop never ends |
| `Schedule.WindowOvershootsDay` | reminder.py:106-107 | with a seven-hour interval the last entry is anchor + 28 hours, after anchor + 1 day |
| `Schedule.Roll` | reminder.py:116 | the roll keeps length and positions; each entry before `now` becomes exactly one day later; each entry at or after `now`, including one equal to `now`, is unchanged |
| `Schedule.RollUnsortsWindow` | reminder.py:116 | rolling a window of two or more entries just after its first entry leaves the list unsorted |
| `Schedule.RollKeepsGrid` | reminder.py:116 | if every entry is its window slot moved forward by whole days, the rolled list is too, so time of day never drifts |
| `Schedule.Later` | reminder.py:117 | the filtered list holds exactly the entries after `now` |
| `Schedule.Min` | reminder.py:117 | `min` of a non-empty list is an element of it and no greater than any element |
| `Schedule.Select` | reminder.py:117 | the target is the least entry strictly after `now`; no target exists (min raises) exactly when no entry is after `now` |
| `Schedule.SelectFailsIff` | reminder.py:116-117 | after the roll there is no target exactly when every entry equals `now` or lies a full day or more before it |
| `Schedule.NextAfterSync` | reminder.py:105-117 | on a freshly built window, for any `now` before its last entry, the target is the first grid instant anchor + k·interval after `now` |
| `Schedule.NineOClockExample` | reminder.py:105-117 | a 30-second interval from 09:00, asked at 09:00:10, fires next at 09:00:30 |
| `ProcessSupervisor.LoopTicks` | reminder.py:129-135 | the final counter is within the 70-tick budget; every tick before it had a falsy poll and an unset event; if below budget, the loop stopped on a truthy poll or a set event |
| `ProcessSupervisor.LoopTicksUnique` | reminder.py:129-135 | that description determines the final counter uniquely |
| `ProcessSupervisor.Supervision` | reminder.py:129-142 | the poll loop spends at most 70 ticks, and a kill is only issued when terminate was |
| `ProcessSupervisor.EscalationOrder` | reminder.py:129-142 | the actions hold exactly as many one-second waits as ticks (at most 70); terminate is issued exactly when decided; kill appears exactly when decided, and only as the last action right after terminate and the three-second wait |
| `ProcessSupervisor.CleanExitIsTerminated` | reminder.py:130-138 | a child that never reports a non-zero code, including one that exited with 0, is always sent terminate, and the loop only ends early on cancellation |
| `ProcessSupervisor.HungChildIsEscalated` | reminder.py:129-142 | a child that never exits, with no cancellation, uses all 70 ticks, is sent terminate, and is killed exactly when the grace wait times out |
| `ProcessSupervisor.FailedChildIsLeftAlone` | reminder.py:130-138 | a child that runs for j ≤ 70 polls and then reports a non-zero code, with no cancellation, ends the loop after j ticks and is neither terminated nor killed |
| `ProcessSupervisor.CancelledChildIsStillEscalated` | reminder.py:129-142 | cancellation seen at the first check while the child runs ends the loop at tick 0, yet terminate is still sent, and kill follows if the grace wait times out |
| `Reminder.Popup.Create` | reminder.py:80-99 | construction fails exactly when the start time does not parse, with that error; otherwise the new reminder holds the interval in seconds and either the window built from the anchor or no window |
| `Reminder.Popup.constructor` | reminder.py:80-99 | with an anchor the fire times are the window built from it; without one, there are none |
| `Reminder.Popup.Sync` | reminder.py:101-107 | the append loop leaves exactly the window anchor + interval, …, anchor + WindowLength·interval |
| `Reminder.Popup.Sleeper` | reminder.py:109-119 | anchored: the list is replaced by its roll, and the result is the least rolled entry after `now`, or the empty-`min` error; unanchored: the list is untouched and the result is `now + interval`; the grid invariant is kept |
| `Reminder.Popup.PollLoop` | reminder.py:129-135 | the loop ends at the counter `LoopTicks` describes, after one poll per tick plus the stopping poll and one one-second wait per tick; the event is checked once per tick, and once more when the loop stops below budget on a falsy poll |
| `Reminder.Popup.Escalate` | reminder.py:137-142 | one more poll; terminate exactly when that poll is falsy, followed by a three-second wait; kill exactly when terminate was sent and that wait times out; the child sees exactly those actions appended |
| `Reminder.Popup.Supervise` | reminder.py:129-142 | the outcome is the one `Supervision` decides from the child's and the event's answers; the child sees exactly the action sequence `Trace` of that outcome; the event has been checked once per tick, plus once when the loop stopped below budget on a falsy poll |

## Left out

- `Ticker` and `Notifier` (reminder.py:36-72): the Tk window and its countdown are rendering only.
- `parse_the_args` and `LoadConfig` (reminder.py:14-34, 160-165): argument parsing and YAML file reading are I/O. A start time that YAML reads as something other than a string is therefore not modelled.
- `start_child_process` (reminder.py:167-168): process creation is a foreign call. The child is the abstract `Child` object, created fresh for each supervision.
- `main` (reminder.py:170-196): signal handlers that call `sys.exit`, thread start-up and the thread-reaping loop are concurrency and process control. `Dummy` (reminder.py:145-157) is unused.
- The waiting loop of `sleeper` (reminder.py:121-122): `event.wait(15)` is wall-clock sleeping. `Sleeper` returns the target it would wait for.
- The outer loop of `run` (reminder.py:125-127): it repeats `sleeper`, a process spawn and the supervision until the event is set, with no bound. `Sleeper` and `Supervise` model its steps; the repetition and the spawn are not modelled.
- `datetime` precision: instants are whole seconds rather than microseconds, and `today` is a parameter. Naive datetimes make day arithmetic plain addition of 86400 seconds.
- Instants and intervals are unbounded integers. Python's `timedelta` and `datetime` arithmetic raise `OverflowError` for an interval beyond 999999999 days (reminder.py:105-107) and for an instant past year 9999 (reminder.py:105-107, 116). The model builds the window and rolls the list in those cases instead.
- `StartTime.ParseInt`: only ASCII digits and the six ASCII whitespace characters `int()` skips are modelled. Python's `int()` also accepts other Unicode decimal digits and Unicode spaces. The 4300-digit limit is modelled at its default value; a program that changes it with `sys.set_int_max_str_digits` is not.
- `Reminder.Popup.Create`: requires a positive interval in anchored mode. The model proves that `Sync` terminates, so it requires the positive interval under which the loop of `sync` ends; with any other interval that loop never returns (`Schedule.SyncNeverStops`).
- `Reminder.Popup.Sync`: requires a positive interval, for the same reason.
- `ProcessSupervisor.Child`: the scripts need not be consistent. A child may report an exit and later report running again, and the outcome of `wait` is independent of `poll`. The results of `wait` other than a timeout are not modelled, because the code ignores them.
