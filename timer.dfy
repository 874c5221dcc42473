// The one-shot Timer of kxg/tools.py, and its copy in modules/tools.py,
// which has the same fields and the same `update` but no `restart`.  A
// timer accumulates the time it is given, and the first time the total
// exceeds its duration it expires and calls each of its callbacks, in
// order.  The callbacks are opaque: the model reports which of them
// `update` calls, in order, instead of calling them.

module Timers {
  import opened Wrappers

  datatype TimerError =
    | NotRegistered  // list.remove on a callback that is not in the list: ValueError
    | NotCallable    // `pause()` after `unpause` replaced the method by False: TypeError

  /** The part of a timer that `update` reads and writes. */
  datatype Clock = Clock(duration: real, elapsed: real, expired: bool)

  /** A timer has expired exactly when its elapsed time exceeds its
    * duration.  A new or restarted timer is consistent unless its duration
    * is negative. */
  predicate Consistent(c: Clock) {
    c.expired <==> c.elapsed > c.duration
  }

  /** One `update(time)`: the clock afterwards, and whether this call
    * expired the timer, and so called the callbacks. */
  function Tick(c: Clock, time: real): (r: (Clock, bool))
    ensures r.0.duration == c.duration
    ensures c.expired || c.elapsed > c.duration ==> r == (c, false)
    ensures r.1 <==> !c.expired && c.elapsed <= c.duration && c.elapsed + time > c.duration
    ensures r.1 ==> r.0.expired
    ensures Consistent(c) ==> Consistent(r.0)
  {
    if c.expired then (c, false)
    else if c.elapsed > c.duration then (c, false)
    else
      var elapsed := c.elapsed + time;
      if elapsed > c.duration then (Clock(c.duration, elapsed, true), true)
      else (Clock(c.duration, elapsed, false), false)
  }

  /** A run of `update` calls: the clock at the end, and how many of the
    * calls fired the callbacks. */
  function Run(c: Clock, times: seq<real>): (Clock, nat)
    decreases |times|
  {
    if times == [] then (c, 0)
    else
      var t := Tick(c, times[0]);
      var rest := Run(t.0, times[1..]);
      (rest.0, rest.1 + if t.1 then 1 else 0)
  }

  function Sum(times: seq<real>): real
    decreases |times|
  {
    if times == [] then 0.0 else times[0] + Sum(times[1..])
  }

  /** One `update(time)` as evidently intended by `pause`: a paused timer
    * ignores the time given to it. */
  function PausableTick(c: Clock, paused: bool, time: real): (r: (Clock, bool))
    ensures paused ==> r == (c, false)
    ensures !paused ==> r == Tick(c, time)
  {
    if paused then (c, false) else Tick(c, time)
  }

  /** A run of intended updates with the pause flag fixed throughout. */
  function PausableRun(c: Clock, paused: bool, times: seq<real>): (Clock, nat)
    decreases |times|
  {
    if times == [] then (c, 0)
    else
      var t := PausableTick(c, paused, times[0]);
      var rest := PausableRun(t.0, paused, times[1..]);
      (rest.0, rest.1 + if t.1 then 1 else 0)
  }

  /** While paused, no run of updates advances the clock or fires the
    * callbacks; while running, updates behave as `update` does. */
  lemma {:induction false} PausableRunSpec(c: Clock, paused: bool, times: seq<real>)
    ensures paused ==> PausableRun(c, paused, times) == (c, 0)
    ensures !paused ==> PausableRun(c, paused, times) == Run(c, times)
    decreases |times|
  {
    if times != [] {
      PausableRunSpec(PausableTick(c, paused, times[0]).0, paused, times[1..]);
    }
  }

  /** Once expired, `update` changes nothing, however often it is called. */
  lemma {:induction false} ExpiredIsFinal(c: Clock, times: seq<real>)
    requires c.expired
    ensures Run(c, times) == (c, 0)
    decreases |times|
  {
    if times != [] {
      ExpiredIsFinal(c, times[1..]);
    }
  }

  /** The callbacks fire at most once over any run of updates, never for a
    * timer that has already expired, and a run that fires them leaves the
    * timer expired. */
  lemma {:induction false} FiresAtMostOnce(c: Clock, times: seq<real>)
    ensures Run(c, times).1 <= if c.expired then 0 else 1
    ensures Run(c, times).1 == 1 ==> Run(c, times).0.expired
    ensures c.expired ==> Run(c, times).0.expired
    decreases |times|
  {
    if times != [] {
      var t := Tick(c, times[0]);
      FiresAtMostOnce(t.0, times[1..]);
      if t.1 {
        ExpiredIsFinal(t.0, times[1..]);
      }
    }
  }

  /** For a timer that has not run out, and updates that never go back in
    * time, the callbacks fire exactly when the total time exceeds the
    * duration. */
  lemma {:induction false} FiresWhenTotalExceeds(c: Clock, times: seq<real>)
    requires !c.expired && c.elapsed <= c.duration
    requires forall i :: 0 <= i < |times| ==> times[i] >= 0.0
    ensures Run(c, times).1 == 1 <==> c.elapsed + Sum(times) > c.duration
    decreases |times|
  {
    if times != [] {
      var t := Tick(c, times[0]);
      SumNonNegative(times[1..]);
      if t.1 {
        ExpiredIsFinal(t.0, times[1..]);
      } else {
        FiresWhenTotalExceeds(t.0, times[1..]);
      }
    }
  }

  lemma {:induction false} SumNonNegative(times: seq<real>)
    requires forall i :: 0 <= i < |times| ==> times[i] >= 0.0
    ensures Sum(times) >= 0.0
    decreases |times|
  {
    if times != [] {
      SumNonNegative(times[1..]);
    }
  }

  /** The index `list.remove` deletes: the first occurrence. */
  function FirstIndex<C(==)>(s: seq<C>, x: C): (i: nat)
    requires x in s
    ensures i < |s| && s[i] == x
    ensures forall j :: 0 <= j < i ==> s[j] != x
  {
    if s[0] == x then 0 else 1 + FirstIndex(s[1..], x)
  }

  /** `list.remove`: drop the first occurrence, or fail when there is none. */
  function RemoveFirst<C(==)>(s: seq<C>, x: C): (r: Result<seq<C>, TimerError>)
    ensures r.Err? <==> x !in s
    ensures r.Err? ==> r.error == NotRegistered
    ensures r.Ok? ==> multiset(r.value) == multiset(s) - multiset{x}
  {
    if x !in s then Err(NotRegistered)
    else
      var i := FirstIndex(s, x);
      assert s == s[..i] + [x] + s[i + 1..];
      Ok(s[..i] + s[i + 1..])
  }

  /** `unregister` undoes `register` for a callback that was not yet
    * registered.  For one that was, it removes the earlier entry, so the
    * callback moves to the end of the list. */
  lemma RegisterThenUnregister<C>(s: seq<C>, x: C)
    ensures x !in s ==> RemoveFirst(s + [x], x) == Ok(s)
    ensures x in s ==> RemoveFirst(s + [x], x) == Ok(RemoveFirst(s, x).value + [x])
  {
    var i := FirstIndex(s + [x], x);
    if x !in s {
      assert i == |s|;
      assert (s + [x])[..i] == s && (s + [x])[i + 1..] == [];
      assert (s + [x])[..i] + (s + [x])[i + 1..] == s;
    } else {
      assert i == FirstIndex(s, x) by {
        var k := FirstIndex(s, x);
        assert (s + [x])[k] == x;
      }
      assert (s + [x])[..i] == s[..i];
      assert (s + [x])[i + 1..] == s[i + 1..] + [x];
      assert s[..i] + (s[i + 1..] + [x]) == (s[..i] + s[i + 1..]) + [x];
    }
  }

  class Timer<C(==)> {
    var duration: real
    var callbacks: seq<C>
    var elapsed: real
    var expired: bool
    var paused: bool
    /** Whether `unpause` has replaced the `pause` method by False. */
    var pauseReplaced: bool

    constructor(duration: real, callbacks: seq<C>)
      ensures State() == Clock(duration, 0.0, false) && this.callbacks == callbacks
      ensures !paused && !pauseReplaced
      ensures duration >= 0.0 ==> Consistent(State())
    {
      this.duration := duration;
      this.callbacks := callbacks;
      elapsed := 0.0;
      expired := false;
      paused := false;
      pauseReplaced := false;
    }

    function State(): Clock
      reads this
    {
      Clock(duration, elapsed, expired)
    }

    /** `update`: the clock advances as `Tick` says, and `fired` lists the
      * callbacks called, in order: all of them when this call expired the
      * timer, none otherwise.  `paused` plays no part. */
    method Update(time: real) returns (fired: seq<C>)
      modifies this
      ensures State() == Tick(old(State()), time).0
      ensures fired == if Tick(old(State()), time).1 then callbacks else []
      ensures callbacks == old(callbacks) && paused == old(paused) && pauseReplaced == old(pauseReplaced)
    {
      fired := [];
      if expired {
        return;
      }
      if elapsed > duration {
        return;
      }
      elapsed := elapsed + time;
      if elapsed > duration {
        expired := true;
        for i := 0 to |callbacks|
          invariant fired == callbacks[..i]
        {
          fired := fired + [callbacks[i]];
        }
        assert callbacks[..|callbacks|] == callbacks;
      }
    }

    /** `update` as evidently intended: a paused timer changes nothing and
      * calls no callback; otherwise it is `update`. */
    method UpdateUnlessPaused(time: real) returns (fired: seq<C>)
      modifies this
      ensures State() == PausableTick(old(State()), old(paused), time).0
      ensures fired == if PausableTick(old(State()), old(paused), time).1 then callbacks else []
      ensures callbacks == old(callbacks) && paused == old(paused) && pauseReplaced == old(pauseReplaced)
    {
      if paused {
        return [];
      }
      fired := Update(time);
    }

    /** `restart` (kxg/tools.py only). */
    method Restart()
      modifies this
      ensures State() == Clock(old(duration), 0.0, false)
      ensures callbacks == old(callbacks) && paused == old(paused) && pauseReplaced == old(pauseReplaced)
      ensures duration >= 0.0 ==> Consistent(State())
    {
      expired := false;
      elapsed := 0.0;
    }

    /** `pause`, which fails once `unpause` as written has replaced it. */
    method Pause() returns (r: Outcome<TimerError>)
      modifies this
      ensures r.Fail? <==> old(pauseReplaced)
      ensures r.Fail? ==> r.error == NotCallable
      ensures paused == (old(paused) || r.Pass?)
      ensures State() == old(State()) && callbacks == old(callbacks) && pauseReplaced == old(pauseReplaced)
    {
      if pauseReplaced {
        return Fail(NotCallable);
      }
      paused := true;
      r := Pass;
    }

    /** `unpause` as written: `self.pause = False` replaces the `pause`
      * method and leaves `paused` as it was. */
    method UnpauseAsWritten()
      modifies this
      ensures pauseReplaced && paused == old(paused)
      ensures State() == old(State()) && callbacks == old(callbacks)
    {
      pauseReplaced := true;
    }

    /** `unpause` as evidently intended: clear `paused`. */
    method Unpause()
      modifies this
      ensures !paused && pauseReplaced == old(pauseReplaced)
      ensures State() == old(State()) && callbacks == old(callbacks)
    {
      paused := false;
    }

    /** `register`: append. */
    method Register(callback: C)
      modifies this
      ensures callbacks == old(callbacks) + [callback]
      ensures State() == old(State()) && paused == old(paused) && pauseReplaced == old(pauseReplaced)
    {
      callbacks := callbacks + [callback];
    }

    /** `unregister`: remove the first occurrence, or fail with nothing
      * changed. */
    method Unregister(callback: C) returns (r: Outcome<TimerError>)
      modifies this
      ensures var removed := RemoveFirst(old(callbacks), callback);
              && (r.Pass? <==> removed.Ok?)
              && (r.Pass? ==> callbacks == removed.value)
              && (r.Fail? ==> callbacks == old(callbacks) && r.error == NotRegistered)
      ensures State() == old(State()) && paused == old(paused) && pauseReplaced == old(pauseReplaced)
    {
      var removed := RemoveFirst(callbacks, callback);
      if removed.Err? {
        return Fail(removed.error);
      }
      callbacks := removed.value;
      r := Pass;
    }

    /** `has_expired`: once it holds, `update` changes nothing and fires
      * nothing, whatever time it is given. */
    function HasExpired(): (r: bool)
      reads this
      ensures r ==> forall t :: Tick(State(), t) == (State(), false)
    {
      expired
    }
  }

  /** Pausing, unpausing with the code as written, and pausing again: the
    * timer is still paused after `unpause`, and the second `pause` fails. */
  method PauseUnpauseAsWritten() returns (pausedAfterUnpause: bool, second: Outcome<TimerError>)
    ensures pausedAfterUnpause
    ensures second == Fail(NotCallable)
  {
    var t := new Timer<int>(1.0, []);
    var first := t.Pause();
    t.UnpauseAsWritten();
    pausedAfterUnpause := t.paused;
    second := t.Pause();
  }

  /** A paused timer given more than its duration, with the code as
    * written: `update` never reads `paused`, so the callback fires. */
  method PauseThenUpdateAsWritten() returns (fired: seq<int>)
    ensures fired == [7]
  {
    var t := new Timer<int>(1.0, [7]);
    var p := t.Pause();
    fired := t.Update(2.0);
  }

  /** The same sequence with the pause respected: nothing fires. */
  method PauseThenUpdate() returns (fired: seq<int>, expired: bool)
    ensures fired == [] && !expired
  {
    var t := new Timer<int>(1.0, [7]);
    var p := t.Pause();
    fired := t.UpdateUnlessPaused(2.0);
    expired := t.HasExpired();
  }

  /** The same sequence with `unpause` corrected. */
  method PauseUnpause() returns (pausedAfterUnpause: bool, second: Outcome<TimerError>)
    ensures !pausedAfterUnpause
    ensures second == Pass
  {
    var t := new Timer<int>(1.0, []);
    var first := t.Pause();
    t.Unpause();
    pausedAfterUnpause := t.paused;
    second := t.Pause();
  }
}
