# Study Helper Toolkit: a verified model of its core logic

The Study Helper Toolkit is a single-page browser app. It keeps a to-do
list, a list of daily goals with a progress bar, a list of exam countdowns
and a Pomodoro study timer. All of this lives in `docs/script.js`, and most
of that file builds HTML. This project models the logic under the HTML, in
Dafny:

- **Lists** (`lists.dfy`). The to-do, goal and countdown lists are stored as
  JSON arrays. Every operation reads the whole array, changes it and writes
  it back. Each list is therefore a `seq` that the operation replaces. The
  class `Store` holds the three lists. Its methods are the page's
  `addTodo`/`toggleTodo`/`deleteTodo`, `addGoal`/`toggleGoal`/`deleteGoal`
  and `addCountdown`/`deleteCountdown`. Each method is proved equal to a
  pure function (`ItemAdded`, `Toggled`, `ItemsWithout`, `CountdownAdded`,
  `CountdownsWithout`), and the lemmas are stated about those functions.
  `FindIndex` is the linear scan behind `findIndex`, written as a loop.
- **Text** (`text.dfy`). This file models `trim()` with the exact set of
  characters ECMAScript strips. It also models how an integer is written in
  a template literal, and `padStart(2, '0')`.
- **Progress** (`progress.dfy`). This is the goal percentage
  `Math.round(completed / total * 100)`, or 0 when there are no goals.
- **Countdowns** (`countdowns.dfy`). This is the days-left text ("N days
  ago", "Today!", "Tomorrow!", "N days left") and the urgent highlight, for
  0 to 7 days left.
- **Pomodoro** (`pomodoro.dfy`). The timer's global variables `timerRunning`,
  `currentTime` and `isBreakTime` are the fields of the class
  `PomodoroTimer`. Its methods are start, pause, reset, timer-complete and
  the one-second tick. Each method is proved equal to a transition
  function on the value `Timer`. The `MM:SS` display is a function.

Two findings about the model are worth knowing:

- The progress bar shows 100% with one goal still open once there are 200
  or more goals: 199 of 200 is 99.5, which rounds up. With fewer than 200
  goals, 100% appears exactly when every goal is completed. The lemmas are
  `OneOpenOfManyIsFull`, `FullMeansAllCompleted` and `AllCompletedIsFull`.
- `startTimer` reloads the length from the minute fields only when the count
  is 0, 1500 or 300. These are the *default* lengths, not the configured
  ones. After a reset to, say, 10 minutes, a change of the study field is
  ignored on the next start (`StartKeepsStaleLength`). A configured
  length of exactly 25 or 5 minutes is re-read. The comment at
  `docs/script.js:455` says the check is meant to detect a reset timer and
  pick up the custom duration; the model follows the comparison as the
  code writes it.

## Model

| member | source | states |
|---|---|---|
| Text.Trim | docs/script.js:117 | `trim()` gives the slice of the input between its leading and trailing blanks. It is empty exactly when the input is all blank; otherwise it starts and ends with a non-blank character |
| Text.TrimIdempotent | docs/script.js:117 | trimming an already trimmed text changes nothing |
| Text.LeadingBlanks | docs/script.js:117 | the number of leading characters `trim()` removes: all of them are blank, and the next character is not |
| Text.TrailingStart | docs/script.js:117 | where the trailing blanks `trim()` removes begin: all from there on are blank, and the one before is not |
| Text.Decimal | docs/script.js:411 | an integer written in a template literal: at least one digit, and a leading zero only for 0 |
| Text.DecimalRoundTrip | docs/script.js:417 | reading back the digits written for `n` gives `n` |
| Text.IntToString | docs/script.js:591 | `toString()` of an integer: for `n >= 0`, only digits, which read back as `n`; for `n < 0`, a minus sign followed by digits that read back as `-n` |
| Text.PadStart2 | docs/script.js:591 | `padStart(2, '0')` keeps the text as its suffix and puts only zeros in front, up to length 2 |
| Text.TwoDigits | docs/script.js:589-591 | a number below 100, padded, is exactly two digits that read back as the number |
| Lists.ItemAdded | docs/script.js:115-137 | adding is refused with `EmptyText` exactly when the input is all blank. Otherwise exactly one item is appended: it carries the trimmed non-empty text, is not completed, and has the given id and timestamp. All earlier items are unchanged |
| Lists.CountdownAdded | docs/script.js:327-358 | refused with `MissingNameOrDate` when the name is blank or the date is empty. Otherwise refused with `DateInPast` when the date is before today. Otherwise one countdown with the trimmed name and a date not before today is appended, and the earlier ones are unchanged |
| Lists.FirstIndexOf | docs/script.js:175 | `findIndex`: -1 exactly when no item has the id; otherwise the index of an item with the id, and no earlier item has it |
| Lists.FindIndex | docs/script.js:175 | the linear scan returns what `FirstIndexOf` specifies |
| Lists.Toggled | docs/script.js:173-182 | the length is kept. Only the first item with the id changes, and only its `completed` flag, which is flipped. An absent id changes nothing |
| Lists.ToggledKeepsIds | docs/script.js:175-178 | after a toggle, every id is found at the same index as before |
| Lists.ToggleTwice | docs/script.js:173-182 | toggling the same id twice restores the list |
| Lists.ItemsWithout | docs/script.js:189 | an item survives a delete exactly when it was there and has another id |
| Lists.CountdownsWithout | docs/script.js:433 | a countdown survives a delete exactly when it was there and has another id |
| Lists.Filter | docs/script.js:189 | `filter` keeps exactly the accepted elements and never grows the list |
| Lists.FilterAppend | docs/script.js:189 | filtering a concatenation is concatenating the filtered parts, so the kept elements stay in their order |
| Lists.DeleteItemIdempotent | docs/script.js:187-193 | deleting the same id a second time changes nothing |
| Lists.DeleteCountdownIdempotent | docs/script.js:431-437 | deleting the same countdown id a second time changes nothing |
| Lists.DeleteAbsentItem | docs/script.js:284-290 | deleting an id that no item carries leaves the list unchanged |
| Lists.DeleteKeepsOrder | docs/script.js:286 | a delete removes items from each part of a list independently, so the relative order of the rest is kept |
| Lists.DeleteCountdownKeepsOrder | docs/script.js:433 | deleting a countdown removes countdowns from each part of the list independently, so the others keep their order |
| Lists.Store.constructor | docs/script.js:198-200 | before anything is stored, each list reads as empty |
| Lists.Store.AddTodo | docs/script.js:115-142 | `todos` becomes what `ItemAdded` gives, or stays as it was and the refusal is returned; the other lists are unchanged |
| Lists.Store.ToggleTodo | docs/script.js:173-182 | `todos` becomes `Toggled` of the old list; the other lists are unchanged |
| Lists.Store.DeleteTodo | docs/script.js:187-193 | with confirmation, `todos` loses every item with the id. Without it nothing changes. The other lists are never touched |
| Lists.Store.AddGoal | docs/script.js:209-237 | `goals` becomes what `ItemAdded` gives, or stays as it was and the refusal is returned; the other lists are unchanged |
| Lists.Store.ToggleGoal | docs/script.js:270-279 | `goals` becomes `Toggled` of the old list; the other lists are unchanged |
| Lists.Store.DeleteGoal | docs/script.js:284-290 | with confirmation, `goals` loses every goal with the id; without it nothing changes |
| Lists.Store.AddCountdown | docs/script.js:323-364 | `countdowns` becomes what `CountdownAdded` gives, or stays as it was and the refusal is returned |
| Lists.Store.DeleteCountdown | docs/script.js:431-437 | with confirmation, `countdowns` loses every countdown with the id; without it nothing changes |
| Progress.CompletedCount | docs/script.js:298 | the number of completed goals never exceeds the number of goals |
| Progress.Percent | docs/script.js:300 | the percentage lies in [0, 100] and is 0 for no goals. Otherwise it is the whole number nearest to 100 * completed / total, with halves rounded up |
| Progress.Progress | docs/script.js:295-300 | the displayed percentage lies in [0, 100] and is 0 when there are no goals |
| Progress.AllCompletedIsFull | docs/script.js:300 | a non-empty list of goals that are all completed shows 100 |
| Progress.FullMeansAllCompleted | docs/script.js:300 | with fewer than 200 goals, 100 is shown only when every goal is completed |
| Progress.OneOpenOfManyIsFull | docs/script.js:300 | with 200 or more goals and exactly one open, 100 is still shown |
| Progress.ToggleMovesCountByOne | docs/script.js:270-279 | toggling a present goal moves the completed count by exactly one, in the direction of its new state. An absent id moves nothing |
| Progress.PercentMonotone | docs/script.js:300 | one more completed goal never lowers the percentage |
| Progress.CompletingRaisesProgress | docs/script.js:270-279 | completing an open goal never lowers the progress shown |
| Progress.PercentExamples | docs/script.js:300 | 1 of 2 is 50, 1 of 3 is 33, 2 of 3 is 67, and 1 of 8 (12.5) is 13 |
| Countdowns.DaysLeftText | docs/script.js:409-419 | no contract of its own: `DaysLeftTextRoundTrip` states which text each day count gets and that it reads back as that count |
| Countdowns.IsUrgent | docs/script.js:382 | no contract of its own: `UrgentTexts` and `DaysLeftExamples` state that past days are never urgent and today, tomorrow and 3 days are |
| Countdowns.DaysLeftTextRoundTrip | docs/script.js:409-419 | 0 gives exactly "Today!" and 1 gives exactly "Tomorrow!". A past count ends in " days ago" and a count from 2 on ends in " days left". Every text reads back as the day count it was made from |
| Countdowns.DaysLeftTextInjective | docs/script.js:409-419 | two different day counts never show the same text |
| Countdowns.UrgentTexts | docs/script.js:382 | a countdown shown as "days ago" is never urgent; "Today!" and "Tomorrow!" always are |
| Countdowns.DaysLeftExamples | docs/script.js:409-419 | 0 gives "Today!" (urgent); 1 gives "Tomorrow!"; -1 gives "1 days ago"; 10 gives "10 days left" (not urgent); 3 gives "3 days left" (urgent) |
| Pomodoro.MinutesOr | docs/script.js:457-458 | the parsed field, or the default when it is NaN or 0: a non-zero parsed value is used as it is; NaN or 0 give the default, so the result is never 0 when the default is not |
| Pomodoro.IsFresh | docs/script.js:456 | no contract of its own: the counts 0, 1500 and 300 that make start reload the length; `PauseThenStart` and `StartKeepsStaleLength` state the effect |
| Pomodoro.StartStep | docs/script.js:453-482 | no contract of its own: `StartPauseGuards`, `PauseThenStart`, `ResetThenStart`, `CompleteThenStart` and `StartKeepsStaleLength` state what a start does |
| Pomodoro.PauseStep | docs/script.js:487-496 | no contract of its own: `StartPauseGuards` and `PauseThenStart` state that pause only stops the timer |
| Pomodoro.ResetStep | docs/script.js:501-515 | no contract of its own: `ResetThenStart` and `ShowablePreserved` state the reset state |
| Pomodoro.CompleteStep | docs/script.js:553-583 | no contract of its own: `CompleteThenStart` and `CompletesOnce` state that completion stops the timer in the other phase at that phase's full length |
| Pomodoro.TickStep | docs/script.js:469-476 | no contract of its own: `TicksCountDown`, `CompletesOnce` and `StoppedStays` state what ticks do |
| Pomodoro.StartPauseGuards | docs/script.js:453-496 | start while running does nothing, and pause while stopped does nothing. After start the timer runs; after pause it does not |
| Pomodoro.PauseThenStart | docs/script.js:453-491 | pause then start resumes the same count in the same phase. If that count is 0, 1500 or 300, the phase's field is read again instead |
| Pomodoro.ResetThenStart | docs/script.js:501-508 | a start right after a reset runs the study phase for exactly the study field's length |
| Pomodoro.CompleteThenStart | docs/script.js:553-572 | a start right after a completion runs the other phase for exactly its field's length |
| Pomodoro.StartKeepsStaleLength | docs/script.js:456 | after a reset to a length other than 0, 25 or 5 minutes, a changed study field is not read on start |
| Pomodoro.LengthsNeverZero | docs/script.js:457-458 | the `|| 25` / `|| 5` fallback makes neither length zero; a field that is empty, zero or positive gives a positive length |
| Pomodoro.TicksCountDown | docs/script.js:469-476 | before the count runs out, each tick takes exactly one second off, and the timer keeps running in the same phase |
| Pomodoro.CompletesOnce | docs/script.js:469-476 | with n seconds left, the timer is still running after n - 1 ticks. Completion fires on the n-th tick and only then: the timer stops in the other phase at that phase's full length, and later ticks change nothing |
| Pomodoro.RunSplit | docs/script.js:469-476 | a ticks followed by b more ticks equal a + b ticks |
| Pomodoro.StoppedStays | docs/script.js:554-555 | once the interval is cleared, ticks no longer change the timer |
| Pomodoro.OneMinuteStudySession | docs/script.js:453-476 | with a one-minute study field, reset and start give 60 seconds. After 59 ticks the timer still runs; after 60 it is stopped in the break phase at the break length |
| Pomodoro.ShowablePreserved | docs/script.js:5-8 | with minute fields from 1 to 99, every operation keeps the count between 1 second and 99:59, starting from the initial 25:00 |
| Pomodoro.JsRemainder | docs/script.js:590 | JavaScript's `%` by a positive number lies in [0, b) for a non-negative dividend and in (-b, 0] for a negative one |
| Pomodoro.JsRemainderCongruent | docs/script.js:590 | the remainder differs from the dividend by a multiple of the divisor; with `JsRemainder`'s ranges this fixes it as the remainder of a division truncating toward zero, the sign following the dividend |
| Pomodoro.Display | docs/script.js:589-591 | no contract of its own: `DisplayRoundTrip` states that below 100 minutes it is five characters that read back as the count; `NegativeCountDisplay` shows a negative count |
| Pomodoro.DisplayRoundTrip | docs/script.js:589-591 | below 100 minutes the display is exactly five characters, and reading them as MM:SS gives back the count |
| Pomodoro.ShowableDisplays | docs/script.js:588-593 | every count the timer can hold with reasonable fields is displayed as a readable MM:SS |
| Pomodoro.DisplayExamples | docs/script.js:589-591 | 300 seconds show as "05:00" and 61 seconds as "01:01" |
| Pomodoro.NegativeCountDisplay | docs/script.js:589-591 | -61 seconds, reachable with a negative minute field, shows as "-2:-1" |
| Pomodoro.PomodoroTimer.constructor | docs/script.js:5-8 | on page load the timer is stopped, in the study phase, at 1500 seconds |
| Pomodoro.PomodoroTimer.Start | docs/script.js:453-482 | the new state is `StartStep` of the old one |
| Pomodoro.PomodoroTimer.Pause | docs/script.js:487-496 | the new state is `PauseStep` of the old one |
| Pomodoro.PomodoroTimer.Reset | docs/script.js:501-515 | the new state is `ResetStep` of the fields, whatever the old state |
| Pomodoro.PomodoroTimer.Complete | docs/script.js:553-583 | the new state is `CompleteStep` of the old one |
| Pomodoro.PomodoroTimer.Tick | docs/script.js:469-476 | one firing of the interval, which exists only while running: the new state is `TickStep` of the old one |

## Left out

- Rendering: `loadTodos`, `loadGoals` and `loadCountdowns` build HTML; button enabling, colours and animation are cosmetic.
- Storage and JSON: each list is an in-memory sequence. `JSON.parse` of corrupt stored data throws in the page; that path is not modelled.
- Ids and timestamps: `Date.now()` and `new Date().toISOString()` are inputs (`id`, `createdAt`). Two items may share an id. `Toggled` then changes only the first of them, and `ItemsWithout` removes all of them.
- Dates: `calculateDaysLeft` works on floating-point milliseconds with `Math.ceil`. The days left are an input of `DaysLeftText`. `addCountdown` compares `new Date(examDate)`, which is parsed as UTC midnight, with local midnight. The model compares whole day numbers (`date < today`).
- Percent: uses exact arithmetic. The page computes `completed / total * 100` in double precision, and the model does not capture rounding error in that product.
- Minute fields: `parseInt` of the fields is an input. `None` stands for NaN, and NaN or 0 give the default. Negative minutes are not rejected, as in the page.
- Timer scheduling: `setInterval` and `clearInterval` are not modelled. A tick is a method that may be called only while the timer runs, and `Run` counts ticks while the interval exists.
- Alerts, `confirm`, notifications and sound: an alert is the returned `InputError`. A confirmation is a boolean argument. The notification and the sound at completion are left out.
- Theme toggle, notes (save, clear, load), quote selection (`Math.random`) and `formatDate` (locale formatting) are not part of this model.
