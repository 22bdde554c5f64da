/** The countdown view model as a value: one snapshot of its fields, and one
    transition function per operation. These functions are the specification
    the MyViewModel class is proved against. */
module Engine {
  import opened Conversions

  datatype RunState = Started | Stopped | Pause | Finished

  /** The Float published as the sweep angle, 360 * remaining / total: a
      number of degrees, or what Float division gives when total is 0. */
  datatype Sweep = Degrees(deg: real) | NaN | PositiveInfinity

  /** The view model's fields. The timer handle is abstracted as the number
      of live timers running the countdown body (`ticking`) and whether the
      one held in `_timer` is among them (`currentLive`). */
  datatype Snapshot = Snapshot(
    buffer: seq<int>,
    hours: int,
    minutes: int,
    seconds: int,
    angle: Sweep,
    state: RunState,
    startTime: int,
    totalTime: int,
    elapsedTime: int,
    ticking: nat,
    currentLive: bool)

  /** The invariant every operation keeps. */
  predicate Valid(e: Snapshot) {
    && WellShaped(e.buffer)
    && e.totalTime >= 0
    && (e.state == Started || e.state == Pause ==> e.totalTime > 0)
    && (e.state == Started ==> e.currentLive)
    && (e.currentLive ==> e.ticking >= 1)
  }

  /** True when the displayed hours, minutes and seconds are the buffer's pairs. */
  predicate Shows(e: Snapshot, b: seq<int>)
    requires |b| == 6
  {
    e.hours == Pair(b, 0) && e.minutes == Pair(b, 2) && e.seconds == Pair(b, 4)
  }

  /** Time left at clock reading `now`, as the tick computes it. */
  function Remaining(e: Snapshot, now: int): int {
    e.totalTime - (now - e.startTime)
  }

  /** The state right after construction. The first `_timer` runs an empty
      body, so it is not counted among the ticking timers. */
  function Initial(): (e: Snapshot)
    ensures Valid(e) && e.state == Stopped && e.ticking == 0
    ensures e.buffer == Zeros() && Shows(e, e.buffer) && e.angle == Degrees(0.0)
    ensures e.startTime == 0 && e.totalTime == 0 && e.elapsedTime == 0 && !e.currentLive
  {
    Snapshot(Zeros(), 0, 0, 0, Degrees(0.0), Stopped, 0, 0, 0, 0, false)
  }

  /** applyAngle's quotient 360 * remaining / total. */
  function AngleOf(remaining: nat, total: int): (a: Sweep)
    ensures a.Degrees? <==> total != 0
    ensures 0 < total && remaining <= total ==> a.Degrees? && 0.0 <= a.deg <= 360.0
    ensures total == 0 ==> (a == NaN <==> remaining == 0)
  {
    if total != 0 then Degrees(360.0 * remaining as real / total as real)
    else if remaining == 0 then NaN
    else PositiveInfinity
  }

  // ---- private helpers of the view model ----

  /** applyTime: publish the buffer's pairs. */
  function ApplyTime(e: Snapshot): (r: Snapshot)
    requires |e.buffer| == 6
    ensures Shows(r, e.buffer)
    ensures r.(hours := e.hours, minutes := e.minutes, seconds := e.seconds) == e
  {
    e.(hours := Pair(e.buffer, 0), minutes := Pair(e.buffer, 2), seconds := Pair(e.buffer, 4))
  }

  function ApplyAngle(e: Snapshot, remaining: nat): (r: Snapshot)
    ensures r.angle == AngleOf(remaining, e.totalTime) && r.(angle := e.angle) == e
  {
    e.(angle := AngleOf(remaining, e.totalTime))
  }

  /** stopTimer: recompute the total from the buffer and go to Stopped. It
      does not cancel the timer. */
  function StopTimer(e: Snapshot): (r: Snapshot)
    requires |e.buffer| == 6
    ensures r.state == Stopped && r.totalTime == CalcBuffer(e.buffer)
    ensures r.(totalTime := e.totalTime, state := e.state) == e
  {
    e.(totalTime := CalcBuffer(e.buffer), state := Stopped)
  }

  /** startTimer: snapshot the total, note the start and normalise the buffer. */
  function StartTimer(e: Snapshot, now: int): (r: Snapshot)
    requires WellShaped(e.buffer)
    ensures r.state == Started && r.startTime == now
    ensures r.totalTime == CalcBuffer(e.buffer) && r.buffer == ApplyBuffer(r.totalTime)
    ensures CalcBuffer(r.buffer) == r.totalTime
    ensures r.(state := e.state, startTime := e.startTime, totalTime := e.totalTime, buffer := e.buffer) == e
  {
    var total := CalcBuffer(e.buffer);
    CalcApplyRoundTrip(total);
    e.(state := Started, startTime := now, totalTime := total, buffer := ApplyBuffer(total))
  }

  /** restartTimer: move the start back by the time already elapsed. */
  function RestartTimer(e: Snapshot, now: int): (r: Snapshot)
    ensures r.state == Started
    ensures Remaining(r, now) == e.totalTime - e.elapsedTime
    ensures r.startTime == now - e.elapsedTime && r.(state := e.state, startTime := e.startTime) == e
  {
    e.(state := Started, startTime := now - e.elapsedTime)
  }

  /** generateTimer: a new live timer is stored in `_timer`; the one it
      replaces is not cancelled. */
  function GenerateTimer(e: Snapshot): (r: Snapshot)
    ensures r.currentLive && r.ticking == e.ticking + 1
    ensures r.(ticking := e.ticking, currentLive := e.currentLive) == e
  {
    e.(ticking := e.ticking + 1, currentLive := true)
  }

  /** pauseTimer: only the state changes. */
  function PauseTimer(e: Snapshot): (r: Snapshot)
    ensures r.state == Pause && r.(state := e.state) == e
  {
    e.(state := Pause)
  }

  /** finishTimer: only the state changes. */
  function FinishTimer(e: Snapshot): (r: Snapshot)
    ensures r.state == Finished && r.(state := e.state) == e
  {
    e.(state := Finished)
  }

  /** `_timer.cancel()`: stops the timer held in `_timer`, if it still runs. */
  function CancelTimer(e: Snapshot): (r: Snapshot)
    requires e.currentLive ==> e.ticking >= 1
    ensures !r.currentLive
    ensures r.ticking == if e.currentLive then e.ticking - 1 else e.ticking
    ensures r.(ticking := e.ticking, currentLive := e.currentLive) == e
  {
    if e.currentLive then e.(ticking := e.ticking - 1, currentLive := false) else e
  }

  // ---- public operations ----

  /** input: shift the buffer left, append the digit, publish, stop. */
  function Input(e: Snapshot, number: int): (r: Snapshot)
    requires Valid(e) && IsDigit(number)
    ensures Valid(r)
    ensures r.buffer == e.buffer[1..] + [number]
    ensures IsDigits(e.buffer) ==> IsDigits(r.buffer)
    ensures Shows(r, r.buffer)
    ensures r.state == Stopped && r.totalTime == CalcBuffer(r.buffer)
    ensures r.ticking == e.ticking && r.currentLive == e.currentLive
    ensures r.angle == e.angle && r.startTime == e.startTime && r.elapsedTime == e.elapsedTime
  {
    var shifted := e.(buffer := e.buffer[1..] + [number]);
    assert forall i :: 0 <= i < 5 ==> shifted.buffer[i] == e.buffer[i + 1];
    StopTimer(ApplyTime(shifted))
  }

  /** backspace: shift the buffer right with a leading 0, publish, stop. */
  function Backspace(e: Snapshot): (r: Snapshot)
    requires Valid(e)
    ensures Valid(r)
    ensures r.buffer == [0] + e.buffer[..5]
    ensures IsDigits(e.buffer) ==> IsDigits(r.buffer)
    ensures AllZero(e.buffer) ==> r.buffer == e.buffer
    ensures Shows(r, r.buffer)
    ensures r.state == Stopped && r.totalTime == CalcBuffer(r.buffer)
    ensures r.ticking == e.ticking && r.currentLive == e.currentLive
    ensures r.angle == e.angle && r.startTime == e.startTime && r.elapsedTime == e.elapsedTime
  {
    var shifted := e.(buffer := [0] + e.buffer[..5]);
    assert forall i :: 1 <= i < 6 ==> shifted.buffer[i] == e.buffer[i - 1];
    StopTimer(ApplyTime(shifted))
  }

  /** reset: zero the buffer, set the angle for 0 left against the total
      in force before the reset, publish, stop. The timer is not cancelled. */
  function Reset(e: Snapshot): (r: Snapshot)
    requires Valid(e)
    ensures Valid(r)
    ensures r.buffer == Zeros() && Shows(r, r.buffer)
    ensures r.state == Stopped && r.totalTime == 0
    ensures r.angle == (if e.totalTime == 0 then NaN else Degrees(0.0))
    ensures r.ticking == e.ticking && r.currentLive == e.currentLive
    ensures r.startTime == e.startTime && r.elapsedTime == e.elapsedTime
  {
    var cleared := e.(buffer := ApplyBuffer(0));
    StopTimer(ApplyTime(ApplyAngle(cleared, 0)))
  }

  /** toggle: the run-state machine. */
  function Toggle(e: Snapshot, now: int): (r: Snapshot)
    requires Valid(e)
    ensures Valid(r)
    // Started: pause and cancel; totals and the buffer are kept.
    ensures e.state == Started ==>
      && r.state == Pause && !r.currentLive && r.ticking == e.ticking - 1
      && r.buffer == e.buffer && r.totalTime == e.totalTime
      && r.startTime == e.startTime && r.elapsedTime == e.elapsedTime
      && r.hours == e.hours && r.minutes == e.minutes && r.seconds == e.seconds
      && r.angle == e.angle
    // Stopped or Pause with nothing entered: nothing happens.
    ensures (e.state == Stopped || e.state == Pause) && CalcBuffer(e.buffer) == 0 ==> r == e
    // Stopped with a duration: start a new run over the whole duration.
    ensures e.state == Stopped && CalcBuffer(e.buffer) > 0 ==>
      && r.state == Started && r.startTime == now
      && r.totalTime == CalcBuffer(e.buffer) && r.buffer == ApplyBuffer(r.totalTime)
      && CalcBuffer(r.buffer) == r.totalTime
      && r.currentLive && r.ticking == e.ticking + 1
      && r.elapsedTime == e.elapsedTime
      && r.hours == e.hours && r.minutes == e.minutes && r.seconds == e.seconds
      && r.angle == e.angle
    // Pause with something shown: resume where the last tick left off.
    ensures e.state == Pause && CalcBuffer(e.buffer) > 0 ==>
      && r.state == Started && Remaining(r, now) == e.totalTime - e.elapsedTime
      && r.startTime == now - e.elapsedTime && r.elapsedTime == e.elapsedTime
      && r.totalTime == e.totalTime && r.buffer == e.buffer
      && r.currentLive && r.ticking == e.ticking + 1
      && r.hours == e.hours && r.minutes == e.minutes && r.seconds == e.seconds
      && r.angle == e.angle
    // Finished: back to Stopped with the total read from the buffer.
    ensures e.state == Finished ==>
      && r.state == Stopped && r.totalTime == CalcBuffer(e.buffer) && r.buffer == e.buffer
      && r.ticking == e.ticking && r.currentLive == e.currentLive
      && r.startTime == e.startTime && r.elapsedTime == e.elapsedTime
      && r.hours == e.hours && r.minutes == e.minutes && r.seconds == e.seconds
      && r.angle == e.angle
  {
    SumNonZeroIffPositive(e.buffer);
    match e.state
    case Started => CancelTimer(PauseTimer(e))
    case Pause => if Sum(e.buffer) != 0 then GenerateTimer(RestartTimer(e, now)) else e
    case Stopped => if Sum(e.buffer) != 0 then GenerateTimer(StartTimer(e, now)) else e
    case Finished => StopTimer(e)
  }

  /** One firing of a live countdown timer at clock reading `now`. When no
      such timer is live nothing fires. */
  function Tick(e: Snapshot, now: int): (r: Snapshot)
    requires Valid(e)
    ensures Valid(r)
    ensures e.ticking == 0 ==> r == e
    ensures e.ticking > 0 ==>
      && r.elapsedTime == now - e.startTime
      && r.totalTime == e.totalTime && r.startTime == e.startTime
    ensures e.ticking > 0 && Remaining(e, now) > 0 ==>
      && r.buffer == ApplyBuffer(Remaining(e, now)) && Shows(r, r.buffer)
      && r.angle == AngleOf(Remaining(e, now), e.totalTime)
      && r.state == e.state && r.ticking == e.ticking && r.currentLive == e.currentLive
    ensures e.ticking > 0 && Remaining(e, now) <= 0 ==>
      && r.state == Finished && r.buffer == Zeros() && Shows(r, r.buffer)
      && r.angle == AngleOf(0, e.totalTime)
      && !r.currentLive && r.ticking == (if e.currentLive then e.ticking - 1 else e.ticking)
  {
    if e.ticking == 0 then e
    else
      var elapsed := now - e.startTime;
      var remaining := e.totalTime - elapsed;
      var e1 := e.(elapsedTime := elapsed);
      if remaining > 0 then
        ApplyAngle(ApplyTime(e1.(buffer := ApplyBuffer(remaining))), remaining)
      else
        FinishTimer(ApplyAngle(ApplyTime(CancelTimer(e1).(buffer := ApplyBuffer(0))), 0))
  }
}
