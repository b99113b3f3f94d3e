/** Start-up and shut-down of the application as far as the counter is concerned:
    the goal read from the store at start-up, the initial body text drawn when the
    window loads, and the goal written back on exit. */
module Lifecycle {
  import opened Counter
  import opened Events
  import opened Persist

  /** Start-up: the goal comes from the store (or the default), the completed count
      starts at zero in every run, and the body text is not drawn yet. */
  function Init(store: Store): (s: State)
    ensures TargetJacksKey in store ==> s.target == store[TargetJacksKey]
    ensures TargetJacksKey !in store ==> s.target == TargetJacksDefault
    ensures s.done == 0
    ensures s.display == Blank
  {
    State(Load(store), 0, Blank)
  }

  /** Window load: the body text is first drawn showing the goal. */
  function WindowLoad(s: State): (r: State)
    ensures r.target == s.target && r.done == s.done
    ensures r.display == Jacks(r.target)
  {
    s.(display := Jacks(s.target))
  }

  /** Start-up followed by the window's first appearance. */
  function Launch(store: Store): (s: State)
    ensures s.done == 0
    ensures s.display == Jacks(s.target)
    ensures TargetJacksKey in store ==> s.target == store[TargetJacksKey]
    ensures TargetJacksKey !in store ==> s.target == TargetJacksDefault
  {
    WindowLoad(Init(store))
  }

  /** Exit: the goal is written under its key; the store is otherwise untouched,
      and the completed count is dropped. */
  function Deinit(s: State, store: Store): (r: Store)
    ensures TargetJacksKey in r && r[TargetJacksKey] == s.target
    ensures r.Keys == store.Keys + {TargetJacksKey}
    ensures forall k :: k in store && k != TargetJacksKey ==> r[k] == store[k]
  {
    Save(store, s.target)
  }

  /** One whole run of the application: launch, handle the events, exit.
      Returns the store as the exit leaves it. */
  function Session(store: Store, events: seq<Event>): (r: Store)
    ensures TargetJacksKey in r
    ensures forall k :: k in store && k != TargetJacksKey ==> k in r && r[k] == store[k]
  {
    Deinit(Run(Launch(store), events).final, store)
  }

  /** Exit then relaunch gives back the goal, a fresh count and the goal on screen. */
  lemma RelaunchRestoresTarget(s: State, store: Store)
    ensures Launch(Deinit(s, store)) == State(s.target, 0, Jacks(s.target))
  {
    LoadAfterSave(store, s.target);
  }

  /** The next run starts from the goal the previous run ended with. */
  lemma SessionCarriesTarget(store: Store, events: seq<Event>)
    ensures Launch(Session(store, events)).target == Run(Launch(store), events).final.target
    ensures Launch(Session(store, events)).done == 0
  {
    RelaunchRestoresTarget(Run(Launch(store), events).final, store);
  }

  /** Back-to-back runs of the application, each starting from the store the last one left. */
  function Sessions(store: Store, runs: seq<seq<Event>>): (r: Store)
    ensures runs != [] ==> TargetJacksKey in r
    decreases |runs|
  {
    if runs == [] then store else Sessions(Session(store, runs[0]), runs[1..])
  }

  /** A store that never held a negative goal never will, over any number of runs. */
  lemma {:induction false} StoredTargetStaysNonNegative(store: Store, runs: seq<seq<Event>>)
    requires Load(store) >= 0
    ensures Load(Sessions(store, runs)) >= 0
    decreases |runs|
  {
    if runs != [] {
      var s := Launch(store);
      TargetStaysNonNegative(s, runs[0]);
      LoadAfterSave(store, Run(s, runs[0]).final.target);
      StoredTargetStaysNonNegative(Session(store, runs[0]), runs[1..]);
    }
  }

  /** A launch from a store with a non-negative goal yields a consistent state, and so
      does every run after it. */
  lemma LaunchIsConsistent(store: Store, events: seq<Event>)
    requires Load(store) >= 0
    ensures Consistent(Launch(store))
    ensures Consistent(Run(Launch(store), events).final)
  {
    RunKeepsConsistent(Launch(store), events);
  }

  /** Fresh install, one jump: the zero goal is met at once. */
  lemma FirstJumpOnFreshInstall(axis: Axis, direction: int)
    ensures Run(Launch(map[]), [Tapped(axis, direction)])
         == Trace(State(0, 1, Done(1)), [true])
  {
  }

  /** Five increments from a fresh install show "5 Jacks"; of five taps after them the
      first four do not vibrate, and the fifth vibrates and shows "5 DONE". Stated as one
      run from launch, and the two halves of that run on their own. */
  lemma FiveJacksScenario(axis: Axis, direction: int)
    ensures Run(Launch(map[]), Repeat(IncrementPressed, 5)).final == State(5, 0, Jacks(5))
    ensures Run(State(5, 0, Jacks(5)), Repeat(Tapped(axis, direction), 5))
         == Trace(State(5, 5, Done(5)), [false, false, false, false, true])
    ensures Run(Launch(map[]), Repeat(IncrementPressed, 5) + Repeat(Tapped(axis, direction), 5))
         == Trace(State(5, 5, Done(5)),
                  [false, false, false, false, false, false, false, false, false, true])
  {
    var incs := Repeat(IncrementPressed, 5);
    HeldIncrement(Launch(map[]), 5);
    assert Run(Launch(map[]), incs).vibrations == [false, false, false, false, false] by {
      HeldIncrementNeverVibrates(Launch(map[]), 5);
    }
    var t := Tapped(axis, direction);
    assert Repeat(t, 5) == [t, t, t, t, t];
    assert [t, t, t, t, t][1..] == [t, t, t, t];
    assert [t, t, t, t][1..] == [t, t, t];
    assert [t, t, t][1..] == [t, t];
    assert [t, t][1..] == [t];
    assert Run(State(5, 4, Done(4)), [t]) == Trace(State(5, 5, Done(5)), [true]);
    assert Run(State(5, 3, Done(3)), [t, t]) == Trace(State(5, 5, Done(5)), [false, true]);
    assert Run(State(5, 2, Done(2)), [t, t, t]) == Trace(State(5, 5, Done(5)), [false, false, true]);
    assert Run(State(5, 1, Done(1)), [t, t, t, t])
        == Trace(State(5, 5, Done(5)), [false, false, false, true]);
    RunAppend(Launch(map[]), incs, Repeat(t, 5));
  }

  /** Three decrements at a zero goal leave it at zero each time. */
  lemma ThreeDecrementsAtZero(store: Store)
    requires Load(store) == 0
    ensures Run(Launch(store), Repeat(DecrementPressed, 3)).final == Launch(store)
  {
    HeldDecrementAtFloor(Launch(store), 3);
  }
}
