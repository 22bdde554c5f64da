/** The countdown view model as the mutable object it is: each operation
    updates the fields step by step, in the order the Kotlin class does, and
    is proved to produce the state its Engine transition function describes.
    The clock is passed in as `now`; the periodic timer calls Tick. */
module ViewModel {
  import opened Conversions
  import opened Engine

  class MyViewModel {
    var buffer: seq<int>
    var hours: int
    var minutes: int
    var seconds: int
    var angle: Sweep
    var state: RunState
    var startTime: int
    var totalTime: int
    var elapsedTime: int
    /** Live timers running the countdown body. */
    var ticking: nat
    /** Whether the timer held in `_timer` is one of them. */
    var currentLive: bool

    function Fields(): Snapshot
      reads this
    {
      Snapshot(buffer, hours, minutes, seconds, angle, state,
               startTime, totalTime, elapsedTime, ticking, currentLive)
    }

    predicate Valid()
      reads this
    {
      Engine.Valid(Fields())
    }

    constructor ()
      ensures Valid() && Fields() == Initial()
    {
      buffer := [0, 0, 0, 0, 0, 0];
      hours, minutes, seconds := 0, 0, 0;
      state := Stopped;
      angle := Degrees(0.0);
      ticking, currentLive := 0, false;
      startTime, totalTime, elapsedTime := 0, 0, 0;
    }

    method Input(number: int)
      requires Valid() && IsDigit(number)
      modifies this
      ensures Valid() && Fields() == Engine.Input(old(Fields()), number)
    {
      buffer := buffer[1..];
      buffer := buffer + [number];
      ApplyTime();
      StopTimer();
    }

    method Backspace()
      requires Valid()
      modifies this
      ensures Valid() && Fields() == Engine.Backspace(old(Fields()))
    {
      buffer := buffer[..5];
      buffer := [0] + buffer;
      ApplyTime();
      StopTimer();
    }

    method Reset()
      requires Valid()
      modifies this
      ensures Valid() && Fields() == Engine.Reset(old(Fields()))
    {
      ApplyBufferFrom(0);
      ApplyAngle(0);
      ApplyTime();
      StopTimer();
    }

    method Toggle(now: int)
      requires Valid()
      modifies this
      ensures Valid() && Fields() == Engine.Toggle(old(Fields()), now)
    {
      match state
      case Started =>
        PauseTimer();
        CancelTimer();
      case Pause =>
        if Sum(buffer) != 0 {
          RestartTimer(now);
          GenerateTimer();
        }
      case Stopped =>
        if Sum(buffer) != 0 {
          StartTimer(now);
          GenerateTimer();
        }
      case Finished =>
        StopTimer();
    }

    /** One firing of a live countdown timer; nothing fires when none is live. */
    method Tick(now: int)
      requires Valid()
      modifies this
      ensures Valid() && Fields() == Engine.Tick(old(Fields()), now)
    {
      if ticking == 0 {
        return;
      }
      ghost var e := Fields();
      elapsedTime := now - startTime;
      ghost var e1 := Fields();
      assert e1 == e.(elapsedTime := now - e.startTime);
      var remainingTime := totalTime - elapsedTime;
      if remainingTime > 0 {
        ApplyBufferFrom(remainingTime);
        ApplyTime();
        ApplyAngle(remainingTime);
        assert Fields() == Engine.ApplyAngle(Engine.ApplyTime(e1.(buffer := ApplyBuffer(remainingTime))), remainingTime);
      } else {
        CancelTimer();
        ApplyBufferFrom(0);
        ApplyTime();
        ApplyAngle(0);
        FinishTimer();
        assert Fields() == Engine.FinishTimer(Engine.ApplyAngle(Engine.ApplyTime(Engine.CancelTimer(e1).(buffer := ApplyBuffer(0))), 0));
      }
    }

    function IsKeypadEnabled(): (enabled: bool)
      requires Valid()
      reads this
      ensures enabled <==> state != Started
      ensures !enabled ==> currentLive && ticking >= 1
    {
      state != Started
    }

    function IsStarted(): (started: bool)
      requires Valid()
      reads this
      ensures started <==> !IsKeypadEnabled()
      ensures started ==> totalTime > 0 && currentLive
    {
      state == Started
    }

    // ---- private helpers ----

    method RestartTimer(now: int)
      modifies this
      ensures Fields() == Engine.RestartTimer(old(Fields()), now)
    {
      state := Started;
      startTime := now - elapsedTime;
    }

    method StartTimer(now: int)
      requires WellShaped(buffer)
      modifies this
      ensures Fields() == Engine.StartTimer(old(Fields()), now)
    {
      state := Started;
      startTime := now;
      totalTime := CalcBuffer(buffer);
      ApplyBufferFrom(totalTime);
    }

    method StopTimer()
      requires |buffer| == 6
      modifies this
      ensures Fields() == Engine.StopTimer(old(Fields()))
    {
      totalTime := CalcBuffer(buffer);
      state := Stopped;
    }

    method PauseTimer()
      modifies this
      ensures Fields() == Engine.PauseTimer(old(Fields()))
    {
      state := Pause;
    }

    method FinishTimer()
      modifies this
      ensures Fields() == Engine.FinishTimer(old(Fields()))
    {
      state := Finished;
    }

    method GenerateTimer()
      modifies this
      ensures Fields() == Engine.GenerateTimer(old(Fields()))
    {
      ticking := ticking + 1;
      currentLive := true;
    }

    method CancelTimer()
      requires currentLive ==> ticking >= 1
      modifies this
      ensures Fields() == Engine.CancelTimer(old(Fields()))
    {
      if currentLive {
        ticking := ticking - 1;
        currentLive := false;
      }
    }

    /** applyBuffer: a new buffer holding the digits of `remainingTime`. */
    method ApplyBufferFrom(remainingTime: nat)
      modifies this
      ensures Fields() == old(Fields()).(buffer := ApplyBuffer(remainingTime))
    {
      buffer := ApplyBuffer(remainingTime);
    }

    method ApplyTime()
      requires |buffer| == 6
      modifies this
      ensures Fields() == Engine.ApplyTime(old(Fields()))
    {
      hours := buffer[0] * 10 + buffer[1];
      minutes := buffer[2] * 10 + buffer[3];
      seconds := buffer[4] * 10 + buffer[5];
    }

    method ApplyAngle(remainingTime: nat)
      modifies this
      ensures Fields() == Engine.ApplyAngle(old(Fields()), remainingTime)
    {
      angle := AngleOf(remainingTime, totalTime);
    }
  }
}
