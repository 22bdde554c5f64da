/** Properties of the countdown view model that span several operations:
    typing, a whole run, pause and resume, and what reset and the timers do. */
module EngineProperties {
  import opened Conversions
  import opened Engine

  /** The keypad delivering the digits ds, one input call each. */
  function TypeDigits(e: Snapshot, ds: seq<int>): (r: Snapshot)
    requires Valid(e) && AllDigits(ds)
    ensures Valid(r)
    decreases |ds|
  {
    if ds == [] then e else TypeDigits(Input(e, ds[0]), ds[1..])
  }

  /** Typing keeps the last six digits of what was there followed by what was typed. */
  lemma {:induction false} TypingKeepsLastSix(e: Snapshot, ds: seq<int>)
    requires Valid(e) && AllDigits(ds)
    ensures TypeDigits(e, ds).buffer == (e.buffer + ds)[|ds|..]
    ensures ds != [] ==> TypeDigits(e, ds).state == Stopped
    decreases |ds|
  {
    if ds != [] {
      var e1 := Input(e, ds[0]);
      TypingKeepsLastSix(e1, ds[1..]);
      assert e1.buffer + ds[1..] == (e.buffer + ds)[1..];
      if ds[1..] == [] {
        assert TypeDigits(e, ds) == e1;
      }
    }
  }

  /** Six digits typed fill the buffer exactly, whatever it held before. */
  lemma TypingSixDigits(e: Snapshot, ds: seq<int>)
    requires Valid(e) && AllDigits(ds) && |ds| == 6
    ensures TypeDigits(e, ds).buffer == ds
    ensures TypeDigits(e, ds).totalTime == CalcBuffer(ds)
  {
    TypingKeepsLastSix(e, ds);
    assert (e.buffer + ds)[6..] == ds;
    TypingTotal(e, ds);
  }

  /** After typing at least one digit the total is read from the buffer, as
      stopTimer does, whatever the total was before (after a finished run it
      is kept while the buffer is zeroed). */
  lemma {:induction false} TypingTotal(e: Snapshot, ds: seq<int>)
    requires Valid(e) && AllDigits(ds)
    requires ds != [] || e.totalTime == CalcBuffer(e.buffer)
    ensures TypeDigits(e, ds).totalTime == CalcBuffer(TypeDigits(e, ds).buffer)
    decreases |ds|
  {
    if ds != [] {
      TypingTotal(Input(e, ds[0]), ds[1..]);
    }
  }

  /** A run from Stopped: toggle starts it over the whole entered duration,
      every tick before the end shows the time left, and the tick at the end
      finishes with an all-zero display and a zero angle. */
  lemma FullCycle(e: Snapshot, start: int, now: int)
    requires Valid(e) && e.state == Stopped && CalcBuffer(e.buffer) > 0
    ensures var total := CalcBuffer(e.buffer);
      var s := Toggle(e, start);
      && s.state == Started && s.totalTime == total && s.ticking >= 1
      && (start <= now < start + total ==>
            var m := Tick(s, now);
            && m.state == Started && m.buffer == ApplyBuffer(start + total - now)
            && Shows(m, m.buffer) && m.angle.Degrees? && 0.0 < m.angle.deg <= 360.0)
      && (now >= start + total ==>
            var f := Tick(s, now);
            && f.state == Finished && f.buffer == Zeros()
            && f.hours == 0 && f.minutes == 0 && f.seconds == 0
            && f.angle == Degrees(0.0))
  {
    var total := CalcBuffer(e.buffer);
    var s := Toggle(e, start);
    assert Remaining(s, now) == start + total - now;
    if start <= now < start + total {
      var r: nat := start + total - now;
      assert 0.0 < 360.0 * r as real / total as real;
    }
  }

  /** The five-second example: type 0 0 0 0 0 5, press start, and the tick
      five seconds later finishes the run. */
  lemma FiveSecondRun(start: int)
    ensures var typed := TypeDigits(Initial(), [0, 0, 0, 0, 0, 5]);
      var s := Toggle(typed, start);
      var f := Tick(s, start + 5000);
      && typed.buffer == [0, 0, 0, 0, 0, 5]
      && s.state == Started && s.totalTime == 5000
      && f.state == Finished && f.buffer == Zeros() && f.angle == Degrees(0.0)
  {
  }

  /** Pause then resume: the time spent paused does not count, the run goes
      on from what was left at the last tick, and it finishes exactly when
      that much more time has passed. */
  lemma PauseResumeKeepsRemaining(e: Snapshot, atPause: int, atResume: int, now: int)
    requires Valid(e) && e.state == Started && CalcBuffer(e.buffer) > 0
    ensures var p := Toggle(e, atPause);
      var q := Toggle(p, atResume);
      && p.state == Pause && q.state == Started
      && Remaining(q, now) == (e.totalTime - e.elapsedTime) - (now - atResume)
      && (now >= atResume + (e.totalTime - e.elapsedTime) ==> Tick(q, now).state == Finished)
      && (now < atResume + (e.totalTime - e.elapsedTime) ==> Tick(q, now).state == Started)
  {
  }

  /** Between 59 and 60 seconds before the end a tick shows 00:00:00 while
      the run goes on; a pause taken then cannot be resumed, because toggle
      reads the all-zero buffer as "nothing entered". */
  lemma PauseStuckOnZeroDisplay(e: Snapshot, now: int, atPause: int, atResume: int)
    requires Valid(e) && e.state == Started
    requires 59_000 < Remaining(e, now) < 60_000
    ensures var a := Tick(e, now);
      var p := Toggle(a, atPause);
      && a.state == Started && a.buffer == Zeros()
      && a.hours == 0 && a.minutes == 0 && a.seconds == 0
      && p.state == Pause && Toggle(p, atResume) == p
  {
  }

  /** Start does not clear elapsedTime: pausing before the first tick and
      resuming subtracts the previous run's elapsed time from the new total.
      The timer fires at once and then every 10 ms, so this needs the pause
      to land before that first tick. */
  lemma StaleElapsedOnQuickPause(e: Snapshot, start: int, atPause: int, atResume: int)
    requires Valid(e) && e.state == Stopped && CalcBuffer(e.buffer) > 0
    ensures var s := Toggle(e, start);
      var p := Toggle(s, atPause);
      var q := Toggle(p, atResume);
      && q.state == Started
      && Remaining(q, atResume) == CalcBuffer(e.buffer) - e.elapsedTime
  {
  }

  /** Reset twice: everything but the angle is as after one reset; the
      angle becomes NaN, since the second reset divides 0 by a total of 0. */
  lemma ResetTwice(e: Snapshot)
    requires Valid(e)
    ensures Reset(Reset(e)) == Reset(e).(angle := NaN)
    ensures e.totalTime > 0 ==> Reset(e).angle == Degrees(0.0)
  {
  }

  /** Reset during a run does not cancel the timer: the next tick with the
      clock not behind the start finds a total of 0, moves the state from
      Stopped to Finished and cancels the timer held in `_timer` itself. */
  lemma ResetDuringRunEndsFinished(e: Snapshot, now: int)
    requires Valid(e) && e.state == Started && now >= e.startTime
    ensures var r := Reset(e);
      var f := Tick(r, now);
      && r.state == Stopped && r.ticking == e.ticking && r.ticking >= 1
      && f.state == Finished && !f.currentLive && f.ticking == e.ticking - 1
  {
  }

  /** When that tick lands between reset and a new start, the new run has as
      many live timers as the interrupted one had. */
  lemma RestartAfterResetAndTick(e: Snapshot, now: int, d: int, later: int)
    requires Valid(e) && e.state == Started && now >= e.startTime && 1 <= d <= 9
    ensures var s := Toggle(Input(Tick(Reset(e), now), d), later);
      s.state == Started && s.ticking == e.ticking
  {
    var i := Input(Tick(Reset(e), now), d);
    assert i.buffer == [0, 0, 0, 0, 0, d];
  }

  /** Input or backspace during a run (not offered by the keypad, which is
      disabled while Started) does not cancel the timer either, but the total
      becomes the edited buffer's duration: while that has not run out, the
      next tick rewrites the buffer with the time left and the state stays
      Stopped. */
  lemma EditDuringRunKeepsCounting(e: Snapshot, d: int, now: int)
    requires Valid(e) && e.state == Started && IsDigit(d)
    ensures var i := Input(e, d);
      var t := Tick(i, now);
      Remaining(i, now) > 0 ==>
        && i.state == Stopped && t.state == Stopped && t.ticking == e.ticking
        && t.buffer == ApplyBuffer(Remaining(i, now)) && Shows(t, t.buffer)
    ensures var b := Backspace(e);
      var t := Tick(b, now);
      Remaining(b, now) > 0 ==>
        && b.state == Stopped && t.state == Stopped && t.ticking == e.ticking
        && t.buffer == ApplyBuffer(Remaining(b, now)) && Shows(t, t.buffer)
  {
  }

  /** Reset during a run, type a digit, start again, all before the old
      timer's next tick (it fires every 10 ms): that timer was never
      cancelled, so two countdown timers are live at once. */
  lemma RestartAfterResetLeaksTimer(e: Snapshot, d: int, now: int)
    requires Valid(e) && e.state == Started && 1 <= d <= 9
    ensures var s := Toggle(Input(Reset(e), d), now);
      s.state == Started && s.ticking == e.ticking + 1 && s.ticking >= 2
  {
  }

  /** 99:99:99 starts as 100 hours 40 minutes 39 seconds, whose hours-tens
      cell is 10; backspace after pausing moves that 10 into the hours-ones
      cell. The buffer then holds a cell that is not a digit. */
  lemma HundredHoursLeavesDigits(e: Snapshot, start: int, atPause: int)
    requires Valid(e) && e.state == Stopped && e.buffer == [9, 9, 9, 9, 9, 9]
    ensures var s := Toggle(e, start);
      var b := Backspace(Toggle(s, atPause));
      && s.buffer == [10, 0, 4, 0, 3, 9] && !IsDigits(s.buffer)
      && b.buffer == [0, 10, 0, 4, 0, 3] && !IsDigits(b.buffer)
  {
    assert CalcBuffer(e.buffer) == MaxEntry;
    assert ApplyBuffer(MaxEntry) == [10, 0, 4, 0, 3, 9];
  }

  /** 360 * r / total does not grow when r does not. */
  lemma AngleMonotone(r1: nat, r2: nat, total: int)
    requires total > 0 && r2 <= r1
    ensures AngleOf(r2, total).deg <= AngleOf(r1, total).deg
  {
    var t := total as real;
    assert 360.0 * r2 as real <= 360.0 * r1 as real;
    assert 360.0 * r2 as real / t <= 360.0 * r1 as real / t;
  }

  /** Successive ticks of a run never increase the sweep angle. */
  lemma AngleNonIncreasing(e: Snapshot, n1: int, n2: int)
    requires Valid(e) && e.ticking >= 1 && e.totalTime > 0 && n1 <= n2
    ensures var a := Tick(e, n1);
      var b := Tick(a, n2);
      a.angle.Degrees? && b.angle.Degrees? && b.angle.deg <= a.angle.deg
  {
    var a := Tick(e, n1);
    var r1 := Remaining(e, n1);
    var r2 := Remaining(a, n2);
    assert r2 <= r1;
    if a.ticking >= 1 {
      AngleMonotone(if r1 > 0 then r1 else 0, if r2 > 0 then r2 else 0, e.totalTime);
    }
  }
}
