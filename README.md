# Countdown view model, in Dafny

This project models the countdown engine of the compose-countdown Android
application: the view model `MyViewModel`. It keeps a six-cell entry buffer
read as HH MM SS, a run state (`Started`, `Stopped`, `Pause`, `Finished`),
the start time, total time and elapsed time of the current run, a periodic
timer, and the published hours, minutes, seconds and sweep angle.

Layout:

- `conversions.dfy`, module `Conversions`: `calcBuffer` (buffer to
  milliseconds) and `applyBuffer` (milliseconds to buffer) as functions, with
  the round-trip, range and "what the display reads back" lemmas.
- `engine.dfy`, module `Engine`: the view model's fields as a `Snapshot`
  value and one transition function per operation (`input`, `backspace`,
  `reset`, `toggle`, one timer tick) and per private helper other than the
  two conversions. This is the specification; every public operation keeps
  the invariant `Valid`.
- `view_model.dfy`, module `ViewModel`: class `MyViewModel` with the same
  fields, whose methods update them step by step in the Kotlin order and are
  proved to reach exactly the state the matching `Engine` function gives.
- `engine_properties.dfy`, module `EngineProperties`: properties over several
  operations (typing, a whole run, pause and resume, reset, leaked timers).

The clock is a parameter `now` of `Toggle` and `Tick`. The periodic timer is
abstracted as a count of live timers running the countdown body (`ticking`)
and a flag saying whether the timer held in `_timer` is one of them
(`currentLive`). `Tick(now)` is one firing of such a timer; when none is
live, nothing fires.

What the code does, as modelled (where the code differs from a plain
reading of how the timer ought to behave, the model follows the code):

- `stopTimer` never cancels the timer, and `generateTimer` replaces `_timer`
  without cancelling the one it held. So `reset`, `input` and `backspace`
  during a run leave the timer running, with different outcomes:
  - after `reset` the total is 0, so the next tick moves the state to
    `Finished` and cancels the timer held in `_timer` itself
    (`ResetDuringRunEndsFinished`); a run started after that tick has as many
    live timers as before (`RestartAfterResetAndTick`);
  - after `input` or `backspace` (which the disabled keypad does not offer
    during a run) the total is the edited buffer's duration, so while that
    has not run out the next tick rewrites the buffer with the time left and
    the state stays `Stopped` (`EditDuringRunKeepsCounting`);
  - only when reset, a digit and toggle all land before the old timer's next
    tick, which comes within its 10 ms period, are two countdown timers live
    at once (`RestartAfterResetLeaksTimer`).
- `startTimer` does not clear `_elapsedTime` and does not republish hours,
  minutes and seconds; the first tick does both. The timer fires at once and
  then every 10 ms, so only a pause landing before that first tick resumes
  with the previous run's elapsed time subtracted (`StaleElapsedOnQuickPause`).
- The seconds are rounded up while minutes and hours are truncated, so with
  between 59 and 60 seconds left the display shows 00:00:00, and a pause taken
  then cannot be resumed (`ZeroShownWithTimeLeft`, `PauseStuckOnZeroDisplay`).
  In general the display loses a minute whenever the rounding carries into the
  next minute (`DisplayedDuration`).
- `reset` computes the angle against the total in force before it: a second
  reset divides 0 by 0 and publishes NaN (`ResetTwice`).
- The buffer does not always hold digits: 99:99:99 starts as 100 h 40 min
  39 s, whose hours-tens cell is 10, and `backspace` shifts that cell to the
  right (`HundredHoursLeavesDigits`). The invariant kept is six non-negative
  cells; typing keypad digits into a digit buffer keeps it a digit buffer.
- `input` does not check its digit; the keypad only offers 0 to 9.
- Pausing cancels the timer and changes nothing else; resuming moves the
  start back by the elapsed time, so the run continues from the remaining
  time at the last tick (`PauseResumeKeepsRemaining`).

## Model

| member | source | states |
|---|---|---|
| `Conversions.Sum` | app/src/main/java/org/plavelo/countdown/ui/MyViewModel.kt:83 | the sum of non-negative cells is non-negative and is zero exactly when every cell is zero |
| `Conversions.CalcBuffer` | app/src/main/java/org/plavelo/countdown/ui/MyViewModel.kt:158-163 | the duration is a whole number of seconds; for non-negative cells it is non-negative and zero exactly when all cells are zero; for keypad digits it is at most 362 439 000 ms |
| `Conversions.ApplyBuffer` | app/src/main/java/org/plavelo/countdown/ui/MyViewModel.kt:151-156 | six non-negative cells, cells 1 to 5 always digits, all six digits below 100 hours; the pairs read back the truncated hours, truncated minutes mod 60 and rounded-up seconds mod 60 |
| `Conversions.SumNonZeroIffPositive` | app/src/main/java/org/plavelo/countdown/ui/MyViewModel.kt:83-93 | toggle's guard `sum != 0` holds exactly when the buffer's duration is positive |
| `Conversions.DisplayedDuration` | app/src/main/java/org/plavelo/countdown/ui/MyViewModel.kt:151-163 | reading back applyBuffer(t) gives t rounded up to a whole second, one minute less when the rounding carries into the next minute |
| `Conversions.CalcApplyRoundTrip` | app/src/main/java/org/plavelo/countdown/ui/MyViewModel.kt:151-163 | calcBuffer(applyBuffer(t)) == t for every whole number of seconds t |
| `Conversions.ApplyCalcRoundTrip` | app/src/main/java/org/plavelo/countdown/ui/MyViewModel.kt:151-163 | applyBuffer(calcBuffer(b)) == b for a digit buffer whose minutes and seconds are below 60 |
| `Conversions.ZeroShownWithTimeLeft` | app/src/main/java/org/plavelo/countdown/ui/MyViewModel.kt:152-155 | between 59 and 60 s left, applyBuffer gives the all-zero buffer |
| `Engine.Initial` | app/src/main/java/org/plavelo/countdown/ui/MyViewModel.kt:32-53 | the constructed state is valid, Stopped, with an all-zero buffer and display, start, total and elapsed time 0, angle 0, and no countdown timer live (`_timer` included) |
| `Engine.AngleOf` | app/src/main/java/org/plavelo/countdown/ui/MyViewModel.kt:171-173 | a number of degrees exactly when the total is non-zero, within 0..360 when 0 <= remaining <= total, NaN for 0/0 |
| `Engine.ApplyTime` | app/src/main/java/org/plavelo/countdown/ui/MyViewModel.kt:165-169 | hours, minutes, seconds become the buffer's pairs; nothing else changes |
| `Engine.ApplyAngle` | app/src/main/java/org/plavelo/countdown/ui/MyViewModel.kt:171-173 | the angle becomes remaining against the current total; nothing else changes |
| `Engine.StopTimer` | app/src/main/java/org/plavelo/countdown/ui/MyViewModel.kt:120-123 | Stopped with the total read from the buffer; every other field, timers included, unchanged |
| `Engine.StartTimer` | app/src/main/java/org/plavelo/countdown/ui/MyViewModel.kt:113-118 | Started at `now`, total read from the buffer, buffer normalised to applyBuffer(total), which reads back the same total; elapsed time, display, angle and timers unchanged |
| `Engine.RestartTimer` | app/src/main/java/org/plavelo/countdown/ui/MyViewModel.kt:108-111 | Started, with the start moved to `now` minus the elapsed time, so the time left at `now` is total minus elapsed; every other field unchanged |
| `Engine.GenerateTimer` | app/src/main/java/org/plavelo/countdown/ui/MyViewModel.kt:133-134 | one more live timer, now held in `_timer`; nothing else changes |
| `Engine.CancelTimer` | app/src/main/java/org/plavelo/countdown/ui/MyViewModel.kt:142 | the timer in `_timer` is no longer live, one fewer live timer if it was; nothing else changes |
| `Engine.PauseTimer` | app/src/main/java/org/plavelo/countdown/ui/MyViewModel.kt:125-127 | the state becomes Pause; nothing else changes |
| `Engine.FinishTimer` | app/src/main/java/org/plavelo/countdown/ui/MyViewModel.kt:129-131 | the state becomes Finished; nothing else changes |
| `Engine.Input` | app/src/main/java/org/plavelo/countdown/ui/MyViewModel.kt:55-60 | buffer shifted left with the digit appended, digits stay digits, display shows the pairs, Stopped with total from the buffer, timers untouched, invariant kept |
| `Engine.Backspace` | app/src/main/java/org/plavelo/countdown/ui/MyViewModel.kt:62-67 | buffer shifted right behind a 0, an all-zero buffer unchanged, digits stay digits, display shows the pairs, Stopped with total from the buffer, timers untouched |
| `Engine.Reset` | app/src/main/java/org/plavelo/countdown/ui/MyViewModel.kt:69-74 | all-zero buffer and display, Stopped, total 0, angle 0 or NaN when the old total was 0, timers untouched |
| `Engine.Toggle` | app/src/main/java/org/plavelo/countdown/ui/MyViewModel.kt:76-98 | Started to Pause with the timer cancelled; Stopped or Pause with nothing entered unchanged; Stopped to a run over the whole entered duration; Pause to a run continuing from the elapsed time; Finished to Stopped with the total read from the buffer; in each branch the display, angle and untouched time fields are stated unchanged; invariant kept |
| `Engine.Tick` | app/src/main/java/org/plavelo/countdown/ui/MyViewModel.kt:134-148 | nothing without a live timer; otherwise elapsed = now - start; with time left the buffer and display show it and the angle follows; else Finished, all zero, timer cancelled |
| `ViewModel.MyViewModel.constructor` | app/src/main/java/org/plavelo/countdown/ui/MyViewModel.kt:32-53 | the fields equal `Engine.Initial` |
| `ViewModel.MyViewModel.Input` | app/src/main/java/org/plavelo/countdown/ui/MyViewModel.kt:55-60 | the new fields are `Engine.Input` of the old ones |
| `ViewModel.MyViewModel.Backspace` | app/src/main/java/org/plavelo/countdown/ui/MyViewModel.kt:62-67 | the new fields are `Engine.Backspace` of the old ones |
| `ViewModel.MyViewModel.Reset` | app/src/main/java/org/plavelo/countdown/ui/MyViewModel.kt:69-74 | the new fields are `Engine.Reset` of the old ones |
| `ViewModel.MyViewModel.Toggle` | app/src/main/java/org/plavelo/countdown/ui/MyViewModel.kt:76-98 | the new fields are `Engine.Toggle` of the old ones at `now` |
| `ViewModel.MyViewModel.Tick` | app/src/main/java/org/plavelo/countdown/ui/MyViewModel.kt:133-148 | the new fields are `Engine.Tick` of the old ones at `now` |
| `ViewModel.MyViewModel.IsKeypadEnabled` | app/src/main/java/org/plavelo/countdown/ui/MyViewModel.kt:100-102 | true exactly when not Started; when false a countdown timer is live |
| `ViewModel.MyViewModel.IsStarted` | app/src/main/java/org/plavelo/countdown/ui/MyViewModel.kt:104-106 | the negation of IsKeypadEnabled; when true the total is positive and the timer in `_timer` is live |
| `ViewModel.MyViewModel.RestartTimer` | app/src/main/java/org/plavelo/countdown/ui/MyViewModel.kt:108-111 | the new fields are `Engine.RestartTimer` of the old ones |
| `ViewModel.MyViewModel.StartTimer` | app/src/main/java/org/plavelo/countdown/ui/MyViewModel.kt:113-118 | the new fields are `Engine.StartTimer` of the old ones |
| `ViewModel.MyViewModel.StopTimer` | app/src/main/java/org/plavelo/countdown/ui/MyViewModel.kt:120-123 | the new fields are `Engine.StopTimer` of the old ones |
| `ViewModel.MyViewModel.PauseTimer` | app/src/main/java/org/plavelo/countdown/ui/MyViewModel.kt:125-127 | the new fields are `Engine.PauseTimer` of the old ones |
| `ViewModel.MyViewModel.FinishTimer` | app/src/main/java/org/plavelo/countdown/ui/MyViewModel.kt:129-131 | the new fields are `Engine.FinishTimer` of the old ones |
| `ViewModel.MyViewModel.GenerateTimer` | app/src/main/java/org/plavelo/countdown/ui/MyViewModel.kt:133-134 | the new fields are `Engine.GenerateTimer` of the old ones |
| `ViewModel.MyViewModel.CancelTimer` | app/src/main/java/org/plavelo/countdown/ui/MyViewModel.kt:80 | the new fields are `Engine.CancelTimer` of the old ones |
| `ViewModel.MyViewModel.ApplyBufferFrom` | app/src/main/java/org/plavelo/countdown/ui/MyViewModel.kt:151-156 | only the buffer changes, to `ApplyBuffer` of the time given |
| `ViewModel.MyViewModel.ApplyTime` | app/src/main/java/org/plavelo/countdown/ui/MyViewModel.kt:165-169 | the new fields are `Engine.ApplyTime` of the old ones |
| `ViewModel.MyViewModel.ApplyAngle` | app/src/main/java/org/plavelo/countdown/ui/MyViewModel.kt:171-173 | the new fields are `Engine.ApplyAngle` of the old ones |
| `EngineProperties.TypingKeepsLastSix` | app/src/main/java/org/plavelo/countdown/ui/MyViewModel.kt:55-60 | after typing digits the buffer is the last six of the old buffer followed by the digits, and the state is Stopped |
| `EngineProperties.TypingSixDigits` | app/src/main/java/org/plavelo/countdown/ui/MyViewModel.kt:55-60 | six typed digits become the buffer exactly, with the total read from them |
| `EngineProperties.TypingTotal` | app/src/main/java/org/plavelo/countdown/ui/MyViewModel.kt:120-123 | after typing at least one digit, from any state, the total is the buffer's duration |
| `EngineProperties.FullCycle` | app/src/main/java/org/plavelo/countdown/ui/MyViewModel.kt:76-98 | toggle from Stopped starts a run over the entered duration; ticks before its end show the time left with an angle in (0, 360]; the tick at or after its end finishes with all zeros and angle 0 |
| `EngineProperties.FiveSecondRun` | app/src/main/java/org/plavelo/countdown/ui/MyViewModel.kt:55-148 | typing 000005, toggling and ticking 5000 ms later finishes the run |
| `EngineProperties.PauseResumeKeepsRemaining` | app/src/main/java/org/plavelo/countdown/ui/MyViewModel.kt:108-111 | after pause and resume the time left is the remaining time at the last tick less the time since resuming; the run finishes exactly when that reaches 0 |
| `EngineProperties.PauseStuckOnZeroDisplay` | app/src/main/java/org/plavelo/countdown/ui/MyViewModel.kt:82-87 | a tick with 59 to 60 s left shows 00:00:00 while Started, and after pausing then toggle changes nothing |
| `EngineProperties.StaleElapsedOnQuickPause` | app/src/main/java/org/plavelo/countdown/ui/MyViewModel.kt:108-118 | start, pause and resume with no tick in between leaves the entered total less the previous run's elapsed time |
| `EngineProperties.ResetTwice` | app/src/main/java/org/plavelo/countdown/ui/MyViewModel.kt:69-74 | reset is idempotent except for the angle, which the second reset makes NaN |
| `EngineProperties.ResetDuringRunEndsFinished` | app/src/main/java/org/plavelo/countdown/ui/MyViewModel.kt:120-123 | reset during a run keeps the timer live; its next tick moves the state to Finished and cancels the timer held in `_timer` |
| `EngineProperties.RestartAfterResetAndTick` | app/src/main/java/org/plavelo/countdown/ui/MyViewModel.kt:134-146 | reset during a run, a tick, a digit and toggle start a run with as many live timers as the interrupted one |
| `EngineProperties.EditDuringRunKeepsCounting` | app/src/main/java/org/plavelo/countdown/ui/MyViewModel.kt:55-67 | input or backspace during a run leaves the timer live; while the edited duration has not run out the next tick rewrites the buffer with the time left and the state stays Stopped |
| `EngineProperties.RestartAfterResetLeaksTimer` | app/src/main/java/org/plavelo/countdown/ui/MyViewModel.kt:133-134 | reset, a digit and toggle during a run with no tick in between leave two countdown timers live |
| `EngineProperties.HundredHoursLeavesDigits` | app/src/main/java/org/plavelo/countdown/ui/MyViewModel.kt:151-156 | starting 99:99:99 writes a hours-tens cell of 10, and backspace moves it into the hours-ones cell |
| `EngineProperties.AngleMonotone` | app/src/main/java/org/plavelo/countdown/ui/MyViewModel.kt:171-173 | less time remaining never gives a larger angle for the same positive total |
| `EngineProperties.AngleNonIncreasing` | app/src/main/java/org/plavelo/countdown/ui/MyViewModel.kt:134-148 | two successive ticks give angles in degrees, the later one no larger |

## Left out

- The Compose user interface (layout, animation, drawing, theming) in
  `MyApp.kt`, `Indicator.kt`, `Keypad.kt`, `Cat.kt`, `Control.kt`,
  `Display.kt` and `theme/Color.kt`; it only reads the published values and
  forwards taps.
- `ViewModel.MyViewModel.Input`: requires a digit 0 to 9, while the Kotlin
  `input` accepts any `Int`; the keypad (`Keypad.kt:57-83`) only ever passes
  0 to 9.
- `Engine.Input`: the same requirement of a digit 0 to 9.
- `Float` precision: the seconds use exact integer ceiling division, where
  `ceil(remainingTime.toFloat() / 1000)` is exact only below about 2^24 ms;
  the angle is an exact `real` quotient, with `NaN` and positive infinity
  standing for the Float results of dividing by a zero total.
- `LiveData.postValue` is asynchronous; the model assigns every published
  value at once, and `toggle` reads the state just assigned.
- Threads: the timer runs on a background thread; a tick is modelled as one
  atomic step between user operations, so races are not captured. Which of
  several live timers fires does not matter, since they all run the same body.
- `System.currentTimeMillis()` becomes the `now` parameter; the clock is not
  assumed monotonic.
- `Long` and `Int` widths: all values stay far below their limits and are
  modelled as unbounded integers; `toInt` truncation is not modelled.
- `Conversions.ApplyBuffer`: takes a non-negative time, which every call site
  passes, so Kotlin's truncating division of negative values is not modelled.
- The first `_timer`, created with an empty body, is not counted among the
  live countdown timers, since its ticks change nothing.
