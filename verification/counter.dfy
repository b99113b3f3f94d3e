/** The counter state and the three input handlers that change it:
    the increment button, the decrement button and the accelerometer tap. */
module Counter {

  /** The text shown on the body layer.
      Blank: nothing written yet (before the window is loaded).
      Jacks(n): the "<n> Jacks" text written when the target is shown.
      Done(n): the "<n> DONE" text written after a tap. */
  datatype Display = Blank | Jacks(target: int) | Done(completed: int)

  /** The accelerometer axis a tap is reported on. */
  datatype Axis = X | Y | Z

  /** The goal, the repetitions completed in this run, and the body text. */
  datatype State = State(target: int, done: int, display: Display)

  /** The state after one event and whether the event fired a long vibration pulse. */
  datatype Outcome = Outcome(state: State, vibrate: bool)

  /** The goal has been reached or passed. */
  predicate Met(s: State) {
    s.done >= s.target
  }

  /** Increment press: one more repetition in the goal, and the goal is shown again,
      replacing any "DONE" text. */
  function Increment(s: State): (r: Outcome)
    ensures r.state.target == s.target + 1
    ensures r.state.done == s.done
    ensures r.state.display == Jacks(r.state.target)
    ensures !r.vibrate
  {
    var target := s.target + 1;
    Outcome(State(target, s.done, Jacks(target)), false)
  }

  /** Decrement press: at or below zero the press is ignored altogether (no redraw);
      otherwise one repetition less in the goal, and the goal is shown again. */
  function Decrement(s: State): (r: Outcome)
    ensures s.target <= 0 ==> r.state == s
    ensures s.target > 0 ==> r.state.target == s.target - 1 && r.state.display == Jacks(r.state.target)
    ensures r.state.done == s.done
    ensures r.state.target <= s.target
    ensures s.target >= 0 ==> r.state.target >= 0
    ensures !r.vibrate
  {
    if s.target <= 0 then
      Outcome(s, false)
    else
      var target := s.target - 1;
      Outcome(State(target, s.done, Jacks(target)), false)
  }

  /** Accelerometer tap on any axis in any direction: one more completed repetition,
      shown as "DONE" text, and a vibration whenever the goal is met afterwards. */
  function Tap(s: State, axis: Axis, direction: int): (r: Outcome)
    ensures r.state.done == s.done + 1
    ensures r.state.target == s.target
    ensures r.state.display == Done(r.state.done)
    ensures r.vibrate <==> Met(r.state)
  {
    var done := s.done + 1;
    Outcome(State(s.target, done, Done(done)), done >= s.target)
  }

  /** Where a tap came from plays no part in what it does. */
  lemma TapIgnoresAxisAndDirection(s: State, a: Axis, d: int, a': Axis, d': int)
    ensures Tap(s, a, d) == Tap(s, a', d')
  {
  }

  /** With a goal of zero the very first tap vibrates. */
  lemma ZeroTargetMetByFirstTap(s: State, axis: Axis, direction: int)
    requires s.target == 0 && s.done == 0
    ensures Tap(s, axis, direction).vibrate
  {
  }

  /** There is no "already vibrated" latch: once a tap has vibrated, a tap from any state
      with no larger goal and no fewer completions vibrates too. */
  lemma VibrationHasNoLatch(s: State, t: State, a: Axis, d: int, a': Axis, d': int)
    requires Tap(s, a, d).vibrate
    requires t.target <= s.target && t.done >= s.done
    ensures Tap(t, a', d').vibrate
  {
  }

  /** Increment undoes a decrement that was not at the floor; apart from the redraw
      the state is back where it started. */
  lemma IncrementUndoesDecrement(s: State)
    requires s.target > 0
    ensures Increment(Decrement(s).state).state == s.(display := Jacks(s.target))
  {
  }

  /** Decrement undoes an increment from a non-negative goal; apart from the redraw
      the state is back where it started. */
  lemma DecrementUndoesIncrement(s: State)
    requires s.target >= 0
    ensures Decrement(Increment(s).state).state == s.(display := Jacks(s.target))
  {
  }

  /** The floor guard is `<= 0`: a negative goal is kept as it is, not raised to zero. */
  lemma DecrementKeepsNegativeTarget(s: State)
    requires s.target < 0
    ensures Decrement(s).state.target == s.target
  {
  }
}
