/** MatchTimer: a start/stop/reset countdown whose Tick coroutine emits one tick per
    frame and a single time-up when the remaining time runs out. The coroutine is modelled
    as one resumption per frame (Frame), with the frame's deltaTime as a parameter. */
module Timer {

  /** Everything observable about a timer: its fields and the notifications it has sent. */
  datatype TimerView = TimerView(
    duration: real,     // durationSeconds
    remaining: real,
    running: bool,
    ticks: seq<real>,   // every OnTick argument, oldest first
    timeUps: nat)       // how many times OnTimeUp has fired

  function Max0(x: real): real { if x < 0.0 then 0.0 else x }

  /** The coroutine's epilogue: remaining := 0, a final tick of 0, running := false, OnTimeUp. */
  function Expired(v: TimerView): TimerView
  {
    v.(remaining := 0.0, ticks := v.ticks + [0.0], running := false, timeUps := v.timeUps + 1)
  }

  /** The coroutine from its start up to its first yield (or its end if nothing remains). */
  function Launched(v: TimerView): TimerView
  {
    var r := Max0(v.remaining);
    if r > 0.0 then v.(running := true, remaining := r, ticks := v.ticks + [r])
    else Expired(v)
  }

  function AfterSetDuration(v: TimerView, seconds: int): TimerView
  {
    v.(duration := seconds as real, remaining := seconds as real)
  }

  function AfterStart(v: TimerView): TimerView
  {
    if v.running then v else Launched(v.(remaining := v.duration))
  }

  function AfterStop(v: TimerView): TimerView
  {
    if !v.running then v else v.(running := false)
  }

  function AfterReset(v: TimerView): TimerView
  {
    var s := AfterStop(v);
    s.(remaining := s.duration, ticks := s.ticks + [s.duration])
  }

  /** One frame: a running coroutine resumes, subtracts deltaTime and either ticks or expires. */
  function AfterFrame(v: TimerView, deltaTime: real): TimerView
  {
    if !v.running then v
    else
      var r := v.remaining - deltaTime;
      if r > 0.0 then v.(remaining := r, ticks := v.ticks + [r]) else Expired(v)
  }

  function AfterFrames(v: TimerView, deltas: seq<real>): TimerView
    decreases |deltas|
  {
    if deltas == [] then v else AfterFrames(AfterFrame(v, deltas[0]), deltas[1..])
  }

  function Sum(deltas: seq<real>): real
    decreases |deltas|
  {
    if deltas == [] then 0.0 else deltas[0] + Sum(deltas[1..])
  }

  ghost predicate NonNegative(deltas: seq<real>)
  {
    forall i :: 0 <= i < |deltas| ==> deltas[i] >= 0.0
  }

  ghost predicate AllPositive(s: seq<real>)
  {
    forall i :: 0 <= i < |s| ==> s[i] > 0.0
  }

  /** SetDuration sets both the duration and the remaining time and leaves running alone. */
  lemma SetDurationKeepsRunning(v: TimerView, seconds: int)
    ensures AfterSetDuration(v, seconds).running == v.running
    ensures AfterSetDuration(v, seconds).duration == AfterSetDuration(v, seconds).remaining == seconds as real
  {
  }

  /** Starting a stopped timer with a positive duration makes it run from the full duration,
      with one tick of that value and no time-up; starting a running one changes nothing. */
  lemma StartPositive(v: TimerView)
    ensures v.running ==> AfterStart(v) == v
    ensures !v.running && v.duration > 0.0 ==>
      AfterStart(v) == v.(running := true, remaining := v.duration, ticks := v.ticks + [v.duration])
  {
  }

  /** A duration of zero or less completes at once: no positive tick, remaining clamped to 0,
      a final tick of 0 and one time-up. */
  lemma StartNonPositiveCompletes(v: TimerView)
    requires !v.running && v.duration <= 0.0
    ensures AfterStart(v) == v.(remaining := 0.0, ticks := v.ticks + [0.0], running := false, timeUps := v.timeUps + 1)
  {
  }

  /** Stopping keeps the remaining time and the notifications; reset leaves the timer stopped
      at its full duration and reports that value in one tick. */
  lemma StopAndReset(v: TimerView)
    ensures !AfterStop(v).running && AfterStop(v).remaining == v.remaining
    ensures AfterStop(v).ticks == v.ticks && AfterStop(v).timeUps == v.timeUps
    ensures !AfterReset(v).running && AfterReset(v).remaining == v.duration
    ensures AfterReset(v).ticks == v.ticks + [v.duration] && AfterReset(v).timeUps == v.timeUps
  {
  }

  /** A stopped timer ignores any number of frames. */
  lemma {:induction false} IdleWhenStopped(v: TimerView, deltas: seq<real>)
    requires !v.running
    ensures AfterFrames(v, deltas) == v
    decreases |deltas|
  {
    if deltas != [] {
      IdleWhenStopped(v, deltas[1..]);
    }
  }

  lemma {:induction false} SumNonNegative(deltas: seq<real>)
    requires NonNegative(deltas)
    ensures Sum(deltas) >= 0.0
    decreases |deltas|
  {
    if deltas != [] {
      SumNonNegative(deltas[1..]);
    }
  }

  /** Whatever the frame times, a run fires OnTimeUp at most once, and when it fires the
      timer is stopped at exactly 0 after a final tick of 0; every other tick it emitted
      carries a positive remaining time. */
  lemma {:induction false} AtMostOneTimeUp(v: TimerView, deltas: seq<real>)
    ensures var w := AfterFrames(v, deltas);
      && w.duration == v.duration
      && (w.timeUps == v.timeUps || w.timeUps == v.timeUps + 1)
      && (w.timeUps == v.timeUps + 1 ==> v.running && !w.running && w.remaining == 0.0)
      && |v.ticks| <= |w.ticks| && w.ticks[..|v.ticks|] == v.ticks
      && (w.timeUps == v.timeUps ==> AllPositive(w.ticks[|v.ticks|..]))
      && (w.timeUps == v.timeUps + 1 ==>
            |w.ticks| > |v.ticks| && w.ticks[|w.ticks| - 1] == 0.0 && AllPositive(w.ticks[|v.ticks|..|w.ticks| - 1]))
    decreases |deltas|
  {
    if deltas == [] {
      assert AfterFrames(v, deltas) == v;
    } else if !v.running {
      IdleWhenStopped(v, deltas);
    } else {
      var u := AfterFrame(v, deltas[0]);
      if u.running {
        AtMostOneTimeUp(u, deltas[1..]);
        var w := AfterFrames(u, deltas[1..]);
        assert u.ticks == v.ticks + [u.remaining];
        assert w.ticks[..|u.ticks|] == u.ticks;
        assert w.ticks[..|v.ticks|] == v.ticks by {
          assert w.ticks[..|v.ticks|] == w.ticks[..|u.ticks|][..|v.ticks|];
        }
        if w.timeUps == v.timeUps {
          forall i | |v.ticks| <= i < |w.ticks|
            ensures w.ticks[i] > 0.0
          {
            if i >= |u.ticks| {
              assert w.ticks[i] == w.ticks[|u.ticks|..][i - |u.ticks|];
            } else {
              assert w.ticks[i] == w.ticks[..|u.ticks|][i];
            }
          }
        } else {
          forall i | |v.ticks| <= i < |w.ticks| - 1
            ensures w.ticks[i] > 0.0
          {
            if i >= |u.ticks| {
              assert w.ticks[i] == w.ticks[|u.ticks|..|w.ticks| - 1][i - |u.ticks|];
            } else {
              assert w.ticks[i] == w.ticks[..|u.ticks|][i];
            }
          }
        }
      } else {
        IdleWhenStopped(u, deltas[1..]);
        assert u == Expired(v);
      }
    }
  }

  /** A running timer with frame times that never go backwards fires exactly when the
      elapsed time reaches the remaining time; until then it is still running with the
      remaining time reduced by exactly the elapsed time. */
  lemma {:induction false} FiresWhenElapsed(v: TimerView, deltas: seq<real>)
    requires v.running && v.remaining > 0.0 && NonNegative(deltas)
    ensures var w := AfterFrames(v, deltas);
      && (w.timeUps == v.timeUps + 1 <==> Sum(deltas) >= v.remaining)
      && (Sum(deltas) < v.remaining ==> w.running && w.remaining == v.remaining - Sum(deltas))
    decreases |deltas|
  {
    AtMostOneTimeUp(v, deltas);
    if deltas != [] {
      var u := AfterFrame(v, deltas[0]);
      assert NonNegative(deltas[1..]);
      if u.running {
        FiresWhenElapsed(u, deltas[1..]);
      } else {
        IdleWhenStopped(u, deltas[1..]);
        SumNonNegative(deltas[1..]);
      }
    }
  }

  class MatchTimer {
    var durationSeconds: real
    var remaining: real
    var running: bool
    var ticks: seq<real>
    var timeUps: nat

    function View(): TimerView
      reads this
    {
      TimerView(durationSeconds, remaining, running, ticks, timeUps)
    }

    /** A timer component as added to an object: 180 seconds, nothing running, nothing sent. */
    constructor ()
      ensures View() == TimerView(180.0, 0.0, false, [], 0)
    {
      durationSeconds, remaining, running := 180.0, 0.0, false;
      ticks, timeUps := [], 0;
    }

    method SetDuration(seconds: int)
      modifies this
      ensures View() == AfterSetDuration(old(View()), seconds)
    {
      durationSeconds := seconds as real;
      remaining := durationSeconds;
    }

    method StartTimer() returns (timeUp: bool)
      modifies this
      ensures View() == AfterStart(old(View()))
      ensures timeUp <==> timeUps == old(timeUps) + 1
    {
      if running {
        return false;
      }
      remaining := durationSeconds;
      timeUp := BeginTick();
    }

    method StopTimer()
      modifies this
      ensures View() == AfterStop(old(View()))
    {
      if !running {
        return;
      }
      running := false;
    }

    method ResetTimer()
      modifies this
      ensures View() == AfterReset(old(View()))
    {
      StopTimer();
      remaining := durationSeconds;
      ticks := ticks + [remaining];
    }

    /** The Tick coroutine from StartCoroutine to its first yield. */
    method BeginTick() returns (timeUp: bool)
      modifies this
      ensures View() == Launched(old(View()))
      ensures timeUp <==> timeUps == old(timeUps) + 1
    {
      running := true;
      remaining := Max0(remaining);
      if remaining > 0.0 {
        ticks := ticks + [remaining];
        timeUp := false;
      } else {
        EndTick();
        timeUp := true;
      }
    }

    /** The lines after the Tick loop. */
    method EndTick()
      modifies this
      ensures View() == Expired(old(View()))
    {
      remaining := 0.0;
      ticks := ticks + [remaining];
      running := false;
      timeUps := timeUps + 1;
    }

    /** One frame: the suspended coroutine, if any, resumes after its yield. */
    method Frame(deltaTime: real) returns (timeUp: bool)
      modifies this
      ensures View() == AfterFrame(old(View()), deltaTime)
      ensures timeUp <==> timeUps == old(timeUps) + 1
    {
      if !running {
        return false;
      }
      remaining := remaining - deltaTime;
      if remaining > 0.0 {
        ticks := ticks + [remaining];
        timeUp := false;
      } else {
        EndTick();
        timeUp := true;
      }
    }

    function GetRemainingSeconds(): real
      reads this
    {
      remaining
    }

    function IsRunning(): bool
      reads this
    {
      running
    }
  }
}
