/** The event loop's view of the counter: the three input events, their dispatch,
    and what a finite run of events does. A button held down is just the same press
    delivered again and again. */
module Events {
  import opened Counter

  datatype Event = IncrementPressed | DecrementPressed | Tapped(axis: Axis, direction: int)

  /** The final state of a run and, per event, whether it fired a vibration. */
  datatype Trace = Trace(final: State, vibrations: seq<bool>)

  /** Sends one event to its handler. */
  function Handle(s: State, e: Event): (r: Outcome)
    ensures r.vibrate ==> e.Tapped?
    ensures e.Tapped? ==> r.state.target == s.target && r.state.done == s.done + 1
    ensures !e.Tapped? ==> r.state.done == s.done
  {
    match e
    case IncrementPressed => Increment(s)
    case DecrementPressed => Decrement(s)
    case Tapped(axis, direction) => Tap(s, axis, direction)
  }

  /** Handles the events one after another, in delivery order. */
  function Run(s: State, events: seq<Event>): (r: Trace)
    ensures |r.vibrations| == |events|
    ensures forall i :: 0 <= i < |events| && r.vibrations[i] ==> events[i].Tapped?
    decreases |events|
  {
    if events == [] then
      Trace(s, [])
    else
      var o := Handle(s, events[0]);
      var rest := Run(o.state, events[1..]);
      Trace(rest.final, [o.vibrate] + rest.vibrations)
  }

  /** The same event delivered n times in a row, as a held button repeats it. */
  function Repeat(e: Event, n: nat): (es: seq<Event>)
    ensures |es| == n
    ensures forall i :: 0 <= i < n ==> es[i] == e
  {
    seq(n, _ => e)
  }

  /** Number of taps among the events. */
  function Taps(events: seq<Event>): nat
  {
    if events == [] then 0 else (if events[0].Tapped? then 1 else 0) + Taps(events[1..])
  }

  /** Number of increment presses among the events. */
  function Increments(events: seq<Event>): nat
  {
    if events == [] then 0 else (if events[0].IncrementPressed? then 1 else 0) + Increments(events[1..])
  }

  /** Number of decrement presses among the events. */
  function Decrements(events: seq<Event>): nat
  {
    if events == [] then 0 else (if events[0].DecrementPressed? then 1 else 0) + Decrements(events[1..])
  }

  /** The button presses among the events, taps removed, order kept. */
  function Buttons(events: seq<Event>): (bs: seq<Event>)
    ensures forall i :: 0 <= i < |bs| ==> !bs[i].Tapped?
  {
    if events == [] then []
    else if events[0].Tapped? then Buttons(events[1..])
    else [events[0]] + Buttons(events[1..])
  }

  /** Running a concatenation is running the first part, then the second from where it ended. */
  lemma {:induction false} RunAppend(s: State, a: seq<Event>, b: seq<Event>)
    ensures Run(s, a + b).final == Run(Run(s, a).final, b).final
    ensures Run(s, a + b).vibrations == Run(s, a).vibrations + Run(Run(s, a).final, b).vibrations
    decreases |a|
  {
    if a != [] {
      assert (a + b)[1..] == a[1..] + b;
      RunAppend(Handle(s, a[0]).state, a[1..], b);
    } else {
      assert a + b == b;
    }
  }

  /** The goal never goes negative if it does not start negative. */
  lemma {:induction false} TargetStaysNonNegative(s: State, events: seq<Event>)
    requires s.target >= 0
    ensures Run(s, events).final.target >= 0
    decreases |events|
  {
    if events != [] {
      TargetStaysNonNegative(Handle(s, events[0]).state, events[1..]);
    }
  }

  /** From any start goal, negative ones included, the goal moves by at most one per
      button press: up by exactly the increments, down by at most the decrements,
      and taps do not move it. */
  lemma {:induction false} TargetBounds(s: State, events: seq<Event>)
    ensures Run(s, events).final.target <= s.target + Increments(events)
    ensures Run(s, events).final.target >= s.target + Increments(events) - Decrements(events)
    decreases |events|
  {
    if events != [] {
      TargetBounds(Handle(s, events[0]).state, events[1..]);
    }
  }

  /** The completed count goes up by exactly the number of taps; nothing else changes it. */
  lemma {:induction false} DoneCountsTaps(s: State, events: seq<Event>)
    ensures Run(s, events).final.done == s.done + Taps(events)
    decreases |events|
  {
    if events != [] {
      DoneCountsTaps(Handle(s, events[0]).state, events[1..]);
    }
  }

  /** The completed count never decreases along a run. */
  lemma DoneNeverDecreases(s: State, events: seq<Event>, i: nat, j: nat)
    requires i <= j <= |events|
    ensures Run(s, events[..i]).final.done <= Run(s, events[..j]).final.done
  {
    var mid := Run(s, events[..i]).final;
    assert events[..j] == events[..i] + events[i..j];
    RunAppend(s, events[..i], events[i..j]);
    DoneCountsTaps(mid, events[i..j]);
  }

  /** Taps leave the goal alone: the goal after a run is the goal after its button presses only. */
  lemma {:induction false} TapsDoNotMoveTarget(s: State, events: seq<Event>)
    ensures Run(s, events).final.target == Run(s, Buttons(events)).final.target
    decreases |events|
  {
    if events != [] {
      var s' := Handle(s, events[0]).state;
      TapsDoNotMoveTarget(s', events[1..]);
      if events[0].Tapped? {
        TapsOnlyDoNotMoveTarget(s, s', Buttons(events[1..]));
      } else {
        assert Buttons(events)[1..] == Buttons(events[1..]);
      }
    }
  }

  /** Two states with the same goal reach the same goal under the same button presses. */
  lemma {:induction false} TapsOnlyDoNotMoveTarget(s: State, t: State, buttons: seq<Event>)
    requires s.target == t.target
    ensures Run(s, buttons).final.target == Run(t, buttons).final.target
    decreases |buttons|
  {
    if buttons != [] {
      TapsOnlyDoNotMoveTarget(Handle(s, buttons[0]).state, Handle(t, buttons[0]).state, buttons[1..]);
    }
  }

  /** Holding decrement at the floor is a no-op on every repeat, not just the first:
      goal, count and text all stay, and nothing vibrates. */
  lemma {:induction false} HeldDecrementAtFloor(s: State, n: nat)
    requires s.target <= 0
    ensures Run(s, Repeat(DecrementPressed, n)) == Trace(s, seq(n, _ => false))
    decreases n
  {
    if n > 0 {
      assert Repeat(DecrementPressed, n)[1..] == Repeat(DecrementPressed, n - 1);
      HeldDecrementAtFloor(s, n - 1);
      assert [false] + seq(n - 1, _ => false) == seq(n, _ => false);
    }
  }

  /** Holding increment for n repeats raises the goal by n and shows it. */
  lemma {:induction false} HeldIncrement(s: State, n: nat)
    requires n > 0
    ensures Run(s, Repeat(IncrementPressed, n)).final == State(s.target + n, s.done, Jacks(s.target + n))
    decreases n
  {
    assert Repeat(IncrementPressed, n)[1..] == Repeat(IncrementPressed, n - 1);
    if n > 1 {
      HeldIncrement(Increment(s).state, n - 1);
    }
  }

  /** A held increment button never vibrates, however many times it repeats. */
  lemma HeldIncrementNeverVibrates(s: State, n: nat)
    ensures Run(s, Repeat(IncrementPressed, n)).vibrations == seq(n, _ => false)
  {
    var r := Run(s, Repeat(IncrementPressed, n));
    assert forall i :: 0 <= i < n ==> !r.vibrations[i];
  }

  /** Once the goal is met it stays met until the next increment press, so every tap up to
      then vibrates again: there is no latch. */
  lemma {:induction false} MetStaysMetWithoutIncrements(s: State, events: seq<Event>)
    requires Met(s)
    requires forall i :: 0 <= i < |events| ==> !events[i].IncrementPressed?
    ensures Met(Run(s, events).final)
    ensures forall i :: 0 <= i < |events| && events[i].Tapped? ==> Run(s, events).vibrations[i]
    decreases |events|
  {
    if events != [] {
      var o := Handle(s, events[0]);
      MetStaysMetWithoutIncrements(o.state, events[1..]);
      var r := Run(s, events);
      forall i | 0 <= i < |events| && events[i].Tapped?
        ensures r.vibrations[i]
      {
        if i > 0 {
          assert events[1..][i - 1] == events[i];
        }
      }
    }
  }

  /** A run vibrates at an event exactly when that event is a tap and the goal is met
      right after it. */
  lemma {:induction false} VibratesIffTapMeetsTarget(s: State, events: seq<Event>, i: nat)
    requires i < |events|
    ensures Run(s, events).vibrations[i] <==> events[i].Tapped? && Met(Run(s, events[..i + 1]).final)
    decreases |events|
  {
    var o := Handle(s, events[0]);
    if i == 0 {
      assert events[..1] == [events[0]];
    } else {
      VibratesIffTapMeetsTarget(o.state, events[1..], i - 1);
      assert events[1..][..i] == events[..i + 1][1..];
    }
  }

  /** What a consistent state promises about its body text: it shows the current goal,
      or the current completed count after at least one tap. */
  predicate Consistent(s: State) {
    && s.target >= 0
    && s.done >= 0
    && (s.display == Jacks(s.target) || (s.display == Done(s.done) && s.done >= 1))
  }

  /** Every event keeps a consistent state consistent, the floor decrement included:
      a "DONE" text it leaves in place still shows the current count. */
  lemma HandleKeepsConsistent(s: State, e: Event)
    requires Consistent(s)
    ensures Consistent(Handle(s, e).state)
  {
  }

  /** Consistency holds after any run from a consistent state. */
  lemma {:induction false} RunKeepsConsistent(s: State, events: seq<Event>)
    requires Consistent(s)
    ensures Consistent(Run(s, events).final)
    decreases |events|
  {
    if events != [] {
      HandleKeepsConsistent(s, events[0]);
      RunKeepsConsistent(Handle(s, events[0]).state, events[1..]);
    }
  }
}
