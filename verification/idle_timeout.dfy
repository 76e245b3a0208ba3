/**
 * The idle watchdog (`useIdleTimeout`): one timer of `timeoutMs` that every tracked window
 * event cancels and re-arms, and that calls `onTimeout` when it runs out. Time is an
 * explicit integer clock; the pending timer is `deadline`.
 */
module IdleTimeout {
  import opened Wrappers

  /** The five tracked window events. */
  datatype EventKind = MouseMove | KeyDown | TouchStart | Scroll | Click

  const Tracked: set<EventKind> := {MouseMove, KeyDown, TouchStart, Scroll, Click}

  /**
   * The Web IDL conversion to `long` that `setTimeout` applies to its delay: the integer
   * is taken modulo 2^32 and read as a signed 32-bit value.
   */
  function ToInt32(x: int): (r: int)
    ensures -0x8000_0000 <= r < 0x8000_0000
    ensures (r - x) % 0x1_0000_0000 == 0
  {
    var w := x % 0x1_0000_0000;
    if w >= 0x8000_0000 then w - 0x1_0000_0000 else w
  }

  /**
   * The delay `setTimeout(onTimeout, timeoutMs)` waits: the delay converted to a signed
   * 32-bit integer, and zero when that is negative. Up to 2^31 - 1 ms it is `timeoutMs`
   * itself; from 2^31 to 2^32 - 1 ms it wraps negative and the timer runs out at once.
   */
  function Delay(timeoutMs: int): (d: nat)
    ensures d < 0x8000_0000
    ensures 0 <= timeoutMs < 0x8000_0000 ==> d == timeoutMs
    ensures 0x8000_0000 <= timeoutMs < 0x1_0000_0000 ==> d == 0
    ensures -0x8000_0000 <= timeoutMs < 0 ==> d == 0
    ensures d == 0 || (d - timeoutMs) % 0x1_0000_0000 == 0
  {
    var t := ToInt32(timeoutMs);
    if t > 0 then t else 0
  }

  /** What happens to the hook: the effect set up or torn down, a tracked event, or the clock advancing. */
  datatype Input =
    | Setup(timeoutMs: int, at: int)
    | Teardown
    | Activity(kind: EventKind, at: int)
    | Clock(at: int)

  /**
   * The hook's state: the current effect's timeout, the attached listeners, the pending
   * timer, the time the timer was last (re)started and how many times `onTimeout` ran.
   */
  datatype Watch = Watch(timeoutMs: int, listeners: set<EventKind>, deadline: Option<int>, lastReset: int, fired: nat)

  /** A pending timer always runs out `Delay(timeoutMs)` after the last reset. */
  predicate Consistent(w: Watch) {
    (w.listeners == {} || w.listeners == Tracked) &&
    (w.deadline.Some? ==> w.deadline.value == w.lastReset + Delay(w.timeoutMs))
  }

  /** `resetTimer` at time `at`: clear the pending timer, start a new one. */
  function Reset(w: Watch, at: int): Watch {
    w.(deadline := Some(at + Delay(w.timeoutMs)), lastReset := at)
  }

  function Step(w: Watch, input: Input): Watch {
    match input
    case Setup(timeoutMs, at) => Reset(w.(timeoutMs := timeoutMs, listeners := Tracked), at)
    case Teardown => w.(deadline := None, listeners := {})
    case Activity(kind, at) => if kind in w.listeners then Reset(w, at) else w
    case Clock(at) =>
      if w.deadline.Some? && w.deadline.value <= at then w.(deadline := None, fired := w.fired + 1)
      else w
  }

  function Run(w: Watch, inputs: seq<Input>): Watch
    decreases |inputs|
  {
    if inputs == [] then w else Run(Step(w, inputs[0]), inputs[1..])
  }

  /**
   * Each step keeps the timer consistent, and `onTimeout` runs only on a clock step that
   * reaches `timeoutMs` after the last reset, after which nothing is pending.
   */
  lemma StepFiresOnlyAfterQuiet(w: Watch, input: Input)
    requires Consistent(w)
    ensures Consistent(Step(w, input))
    ensures Step(w, input).fired <= w.fired + 1
    ensures Step(w, input).fired == w.fired + 1 ==>
      input.Clock? && input.at >= w.lastReset + Delay(w.timeoutMs) && Step(w, input).deadline.None?
  {
  }

  /** A pending timer that has run its `Delay(timeoutMs)` fires on the next clock step and is cleared. */
  lemma DueTimerFires(w: Watch, at: int)
    requires Consistent(w) && w.deadline.Some?
    requires at >= w.lastReset + Delay(w.timeoutMs)
    ensures Step(w, Clock(at)).fired == w.fired + 1
    ensures Step(w, Clock(at)).deadline.None?
  {
  }

  /**
   * A five-minute watchdog mounted at time 0 with no activity: the clock at 299999 ms
   * leaves it quiet, and at 300000 ms `onTimeout` runs exactly once.
   */
  lemma FiveMinuteIdleFiresOnce(w: Watch)
    ensures Run(w, [Setup(300000, 0), Clock(299999)]).fired == w.fired
    ensures Run(w, [Setup(300000, 0), Clock(299999), Clock(300000)]).fired == w.fired + 1
  {
    assert Delay(300000) == 300000;
    var armed := Step(w, Setup(300000, 0));
    assert armed.deadline == Some(300000) && armed.fired == w.fired;
    assert Step(armed, Clock(299999)) == armed;
  }

  /** With nothing pending, the clock alone never fires the timer: it does not re-arm itself. */
  lemma {:induction false} NoRearmWithoutActivity(w: Watch, times: seq<int>)
    requires w.deadline.None?
    ensures Run(w, seq(|times|, k requires 0 <= k < |times| => Clock(times[k]))) == w
    decreases |times|
  {
    var inputs := seq(|times|, k requires 0 <= k < |times| => Clock(times[k]));
    if times != [] {
      assert inputs[1..] == seq(|times[1..]|, k requires 0 <= k < |times[1..]| => Clock(times[1..][k]));
      NoRearmWithoutActivity(w, times[1..]);
    }
  }

  /** Without tracked events, `onTimeout` runs at most once however far the clock advances. */
  lemma {:induction false} FiresAtMostOnceWhileIdle(w: Watch, times: seq<int>)
    ensures Run(w, seq(|times|, k requires 0 <= k < |times| => Clock(times[k]))).fired <= w.fired + 1
    decreases |times|
  {
    var inputs := seq(|times|, k requires 0 <= k < |times| => Clock(times[k]));
    if times != [] {
      var tail := seq(|times[1..]|, k requires 0 <= k < |times[1..]| => Clock(times[1..][k]));
      assert inputs[1..] == tail;
      var next := Step(w, Clock(times[0]));
      if next.deadline.None? {
        NoRearmWithoutActivity(next, times[1..]);
      } else {
        FiresAtMostOnceWhileIdle(next, times[1..]);
      }
    }
  }

  /** After cleanup, only a new mount can make the watchdog fire. */
  lemma {:induction false} QuietAfterCleanup(w: Watch, inputs: seq<Input>)
    requires w.listeners == {} && w.deadline.None?
    requires forall k :: 0 <= k < |inputs| ==> !inputs[k].Setup?
    ensures Run(w, inputs) == w
    decreases |inputs|
  {
    if inputs != [] {
      QuietAfterCleanup(Step(w, inputs[0]), inputs[1..]);
    }
  }

  /** The hook as mounted in the page: the listener set, the timer ref and the callback count. */
  class IdleWatchdog {
    var timeoutMs: int
    var listeners: set<EventKind>
    var deadline: Option<int>
    var lastReset: int
    var fired: nat

    function State(): Watch
      reads this
    {
      Watch(timeoutMs, listeners, deadline, lastReset, fired)
    }

    ghost predicate Valid()
      reads this
    {
      Consistent(State())
    }

    constructor ()
      ensures Valid() && listeners == {} && deadline.None? && fired == 0
    {
      timeoutMs := 0;
      listeners := {};
      deadline := None;
      lastReset := 0;
      fired := 0;
    }

    /** `resetTimer`: clear the pending timer, if any, and start one of `timeoutMs`. */
    method ResetTimer(now: int)
      requires listeners == Tracked
      modifies this
      ensures Valid() && State() == Reset(old(State()), now)
    {
      deadline := Some(now + Delay(timeoutMs));
      lastReset := now;
    }

    /** The effect: attach the five listeners, then start the first timer. */
    method Mount(ms: int, now: int)
      requires Valid()
      modifies this
      ensures Valid() && State() == Step(old(State()), Setup(ms, now))
    {
      timeoutMs := ms;
      listeners := Tracked;
      ResetTimer(now);
    }

    /** The effect's cleanup: cancel the pending timer and remove the five listeners. */
    method Cleanup()
      requires Valid()
      modifies this
      ensures Valid() && State() == Step(old(State()), Teardown)
    {
      deadline := None;
      listeners := {};
    }

    /** A tracked window event; it reaches `resetTimer` only while the listeners are attached. */
    method OnActivity(kind: EventKind, now: int)
      requires Valid()
      modifies this
      ensures Valid() && State() == Step(old(State()), Activity(kind, now))
    {
      if kind in listeners {
        ResetTimer(now);
      }
    }

    /** The clock reaches `now`; a timer due by then calls `onTimeout`. */
    method Tick(now: int)
      requires Valid()
      modifies this
      ensures Valid() && State() == Step(old(State()), Clock(now))
    {
      if deadline.Some? && deadline.value <= now {
        deadline := None;
        fired := fired + 1;
      }
    }

    /** A change of `timeoutMs` or `onTimeout`: the old effect is torn down and a fresh one set up. */
    method Restart(ms: int, now: int)
      requires Valid()
      modifies this
      ensures Valid() && State() == Step(Step(old(State()), Teardown), Setup(ms, now))
      ensures deadline == Some(now + Delay(ms)) && listeners == Tracked
    {
      Cleanup();
      Mount(ms, now);
    }
  }
}
