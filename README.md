# Pomodoro timer: a verified model of its session state machine

The program is a one-window Tkinter Pomodoro timer. Its logic is a small state
machine held in two module globals. `reps` counts the sessions started. `timer`
holds the handle of the pending `window.after` callback.

- `start_timer` advances `reps` by one and picks the session from the new value.
  A multiple of 8 gives a long break of 20 minutes. Any other even value gives a
  short break of 5 minutes. An odd value gives a work session of 25 minutes.
- `count_down` shows the remaining seconds as `M:SS`. While the count is
  positive it reschedules itself one second later with `count - 1`. At 0 it
  starts the next session and rewrites the tally: floor(reps/2) check marks.
- `reset_timer` cancels the pending callback. It shows `00:00` and the heading
  "Timer", empties the tally and sets `reps` back to 0.

The model has three modules:

- `Schedule` (schedule.dfy): session kinds, their durations, and what a run of
  starts selects. It proves the period-8 pattern and the count of work sessions.
- `Display` (display.dfy): the clock text and the tally text. The clock text
  has a parser, and the two are proved to round-trip.
- `Pomodoro` (timer.dfy): the class `PomodoroTimer`. Its fields stand for
  `reps`, the count on the clock, the pending callback, the `timer` handle and
  the three label texts. Its methods `Start`, `CountDown`, `Tick` and `Reset`
  change them as the program does. Each callback that `window.after` would run
  a second later is one call of `Tick`. `Start` and `CountDown` call each other
  as `start_timer` and `count_down` do. Ghost fields record the counts each
  session has shown and the sessions started since the last reset.

## Model

| member | source | states |
|---|---|---|
| Schedule.Classify | main.py:46-54 | the session is a long break exactly when reps is a multiple of 8, a short break exactly when reps is even but not a multiple of 8, and work exactly when reps is odd |
| Schedule.Duration | main.py:40-43 | every session length is a positive whole number of minutes |
| Schedule.DurationValues | main.py:11-13 | work lasts 1500 s, a short break 300 s, a long break 1200 s |
| Schedule.DurationInjective | main.py:41-43 | different session kinds have different lengths |
| Schedule.StartSequence | main.py:37-54 | n consecutive starts from counter r select, in order, the sessions for r+1, ..., r+n |
| Schedule.FirstCycle | main.py:46-54 | eight starts from 0 give Work, Short, Work, Short, Work, Short, Work, Long |
| Schedule.ClassifyPeriod | main.py:46-54 | adding any multiple of 8 to the counter selects the same session |
| Schedule.ClassifyCycle | main.py:46-54 | the i-th start from 0 selects entry i mod 8 of the first cycle |
| Schedule.CyclePattern | main.py:46-54 | any run of starts from 0 repeats the first cycle with period 8 |
| Schedule.WorkCountFromZero | main.py:49-54 | of the first n sessions from 0, exactly ceil(n/2) are work sessions |
| Schedule.CompletedWork | main.py:78 | once the counter reaches reps, the sessions before the current one hold floor(reps/2) work sessions |
| Display.DecimalString | main.py:61 | the minutes text is decimal digits without a leading zero and denotes the number |
| Display.PadSeconds | main.py:62-64 | the seconds text is always exactly two digits and denotes the seconds value |
| Display.Format | main.py:61-67 | the clock text has at least four characters with the colon third from the end, and is exactly four characters long when fewer than 10 minutes remain; FormatShape states its full shape |
| Display.FormatShape | main.py:61-67 | the clock text is digits for count div 60, a colon, then two digits for count mod 60; minutes are not padded |
| Display.FormatRoundTrip | main.py:61-67 | parsing the clock text gives back the count it was made from |
| Display.FormatInjective | main.py:61-67 | different counts show different clock texts |
| Display.FormatExamples | main.py:61-67 | 65 shows "1:05", 0 shows "0:00", 600 shows "10:00", 1500 shows "25:00" |
| Display.ResetTextIsNotFormatZero | main.py:26 | the reset text "00:00" differs from the countdown's "0:00", though both parse as zero |
| Display.Marks | main.py:77-80 | a tally of n is exactly n check marks |
| Display.TallyMarks | main.py:77-81 | the loop builds exactly floor(reps/2) check marks |
| Pomodoro.Descending | main.py:70-72 | a session of length d has shown d, d-1, ..., r: it starts at d, ends at r, and entry i is d - i |
| Pomodoro.DescendingStrictly | main.py:70-72 | the counts a session shows strictly decrease |
| Pomodoro.PomodoroTimer.constructor | main.py:14-15 | the window opens with reps 0, no timer handle, nothing pending, "00:00", "Timer" and an empty tally |
| Pomodoro.PomodoroTimer.Start | main.py:35-54 | reps goes up by exactly 1; the new session's full length is shown and its first tick is scheduled; the heading names the session; the tally is unchanged |
| Pomodoro.PomodoroTimer.CountDown | main.py:58-81 | a positive count is shown and count-1 is scheduled; at 0 the next session starts once and the tally becomes floor(reps/2) marks |
| Pomodoro.PomodoroTimer.Tick | main.py:70-81 | keeps the invariant; a tick above 1 shows exactly one less; the tick that shows 0 ends a session that showed d, ..., 0, starts the next session once, and leaves floor(reps/2) marks |
| Pomodoro.TallyCountsCompletedWork | main.py:75-81 | while a session runs, the tally has one mark per work session completed since start-up or the last reset |
| Pomodoro.PomodoroTimer.Reset | main.py:19-31 | cancels the pending tick; leaves reps 0, "00:00", heading "Timer" and an empty tally |
| Pomodoro.ResetThenStart | main.py:19-54 | after a reset the next start is a 1500 s work session showing "25:00" |
| Pomodoro.FirstStart | main.py:14-54 | the first start on a fresh window is a 1500 s work session showing "25:00" |

## Left out

- The window, labels, canvas, tomato image, colours, fonts, grid layout and
  `mainloop` (main.py:85-115) are not modelled. The labels are reduced to the
  text they hold. The heading is a `Heading` value carrying the session kind.
- Wall-clock time is not modelled. The 1000 ms delay of `window.after` becomes
  one `Tick` call, which runs the pending `count_down(count - 1)`. A `Tick` with
  nothing pending changes nothing.
- Pomodoro.PomodoroTimer.Start: requires that no tick is pending. Pressing Start
  while a countdown runs starts a second, independent callback chain and
  overwrites `timer`. The model covers a single active countdown.
- Pomodoro.PomodoroTimer.Reset: requires that `timer` already holds a handle.
  Before the first Start, `timer` is None, and what `after_cancel(None)` does is
  up to Tkinter, which is not part of this model.
- `math.floor(count / 60)` (main.py:61) and `math.floor(reps/2)` (main.py:78)
  divide in floating point. For the counts the program produces (at most 1500)
  and for every counter below 2^53 this equals integer division, which the
  model uses.
- The countdown pads only the seconds, so it shows `1:05` and `0:00`, while the
  reset shows `00:00`. The model keeps both texts as they are.
