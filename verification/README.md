# Jumping jack counter: a verified model of its counter state machine

The application is a single-screen Pebble watch app. It counts jumping jacks. Two
buttons set a goal (`target_jacks`). Each accelerometer tap counts one completed
repetition (`doneJacks`). The watch vibrates once the completed count reaches the
goal. The goal is kept in the watch's persistent store across runs.

The model treats the app as a pure state machine. It covers:

- `Counter`: the state `State(target, done, display)`. `display` is the last text written
  to the body layer: `Blank`, `Jacks(n)` ("n Jacks") or `Done(n)` ("n DONE").
  The three handlers are functions `State -> Outcome(state, vibrate)`.
- `Events`: the events (`IncrementPressed`, `DecrementPressed`, `Tapped(axis, direction)`),
  their dispatch (`Handle`), and a finite run of events (`Run`). A button held down
  is the same press delivered repeatedly (`Repeat`).
- `Persist`: the store as a `map<int, int>`. The goal is kept under key 1 and
  defaults to 0.
- `Lifecycle`: start-up (`Init`), the window's first draw (`WindowLoad`), exit
  (`Deinit`), and whole runs of the app (`Session`, `Sessions`). Concrete scenarios are
  included as lemmas.

The decrement guard in the code is `target_jacks <= 0`. The model follows the code, not
an `== 0` reading of it. A negative goal can only come from the store, and a decrement
leaves such a goal as it is (`Counter.DecrementKeepsNegativeTarget`).

## Model

| member | source | states |
|---|---|---|
| Persist.Load | jumpingJackCounter/main.c:134-135 | the start-up read yields the stored value when key 1 exists, else the default 0; any stored integer is accepted |
| Persist.Save | jumpingJackCounter/main.c:143-144 | the exit write puts the goal under key 1, adds no other key and leaves every other key's value unchanged |
| Persist.LoadAfterSave | jumpingJackCounter/main.c:135-144 | saving `v` and then loading yields `v` |
| Persist.SaveOverwrites | jumpingJackCounter/main.c:144 | a second save fully replaces the first (the write is unconditional) |
| Persist.SaveLoadedIsIdentity | jumpingJackCounter/main.c:135-144 | when the key exists, saving the loaded value leaves the store exactly as it was |
| Persist.FreshStoreLoadsDefault | jumpingJackCounter/main.c:12-16 | an empty store yields a goal of 0 |
| Counter.Increment | jumpingJackCounter/main.c:53-56 | the goal goes up by one, the count is unchanged, the text becomes `Jacks(goal+1)` (replacing any DONE text), no vibration |
| Counter.Decrement | jumpingJackCounter/main.c:57-64 | at a goal <= 0 the whole state, text included, is unchanged (no redraw); above 0 the goal drops by one and `Jacks(goal-1)` is shown; the count is never touched; the goal never rises and never crosses below 0; no vibration |
| Counter.Tap | jumpingJackCounter/main.c:74-86 | the count goes up by one, the goal is unchanged, the text becomes `Done(count)`, and it vibrates iff the new count >= goal |
| Counter.TapIgnoresAxisAndDirection | jumpingJackCounter/main.c:74-78 | the axis and direction of a tap have no effect |
| Counter.ZeroTargetMetByFirstTap | jumpingJackCounter/main.c:83-85 | with a goal of 0 and no completions, the first tap vibrates |
| Counter.VibrationHasNoLatch | jumpingJackCounter/main.c:83-85 | once a tap vibrated, a tap from any state with no larger goal and no smaller count vibrates as well |
| Counter.IncrementUndoesDecrement | jumpingJackCounter/main.c:53-64 | above the floor, decrement then increment restores goal and count and shows the goal |
| Counter.DecrementUndoesIncrement | jumpingJackCounter/main.c:53-64 | from a non-negative goal, increment then decrement restores goal and count and shows the goal |
| Counter.DecrementKeepsNegativeTarget | jumpingJackCounter/main.c:58-61 | the guard is `<= 0`: a negative goal is left as it is, not clamped to 0 |
| Events.Handle | jumpingJackCounter/main.c:67-74 | only a tap can vibrate; a tap keeps the goal and adds one to the count; a button press leaves the count alone |
| Events.Run | jumpingJackCounter/main.c:152-156 | the event loop yields one vibration flag per event, and only taps can set it |
| Events.Repeat | jumpingJackCounter/main.c:66-70 | a held button is n copies of the same press, in a row |
| Events.RunAppend | jumpingJackCounter/main.c:152-156 | running two event sequences in turn equals running their concatenation |
| Events.TargetStaysNonNegative | jumpingJackCounter/main.c:53-64 | starting from a goal >= 0, the goal stays >= 0 after any sequence of increments, decrements and taps |
| Events.TargetBounds | jumpingJackCounter/main.c:53-64 | for any start goal, negative ones included, the final goal is at most the start plus the increments and at least the start plus increments minus decrements |
| Events.DoneCountsTaps | jumpingJackCounter/main.c:74-79 | the final count is the start count plus the number of taps: nothing else changes it |
| Events.DoneNeverDecreases | jumpingJackCounter/main.c:74-79 | along a run, the count after a longer prefix is never smaller |
| Events.TapsDoNotMoveTarget | jumpingJackCounter/main.c:74-86 | the goal after a run equals the goal after the same run with all taps removed |
| Events.HeldDecrementAtFloor | jumpingJackCounter/main.c:57-70 | holding decrement at a goal <= 0 leaves the state unchanged on every repeat and never vibrates |
| Events.HeldIncrement | jumpingJackCounter/main.c:53-70 | holding increment for n > 0 repeats raises the goal by n and shows it, with the count unchanged |
| Events.HeldIncrementNeverVibrates | jumpingJackCounter/main.c:53-70 | every repeat of a held increment button has its vibration flag false |
| Events.MetStaysMetWithoutIncrements | jumpingJackCounter/main.c:57-86 | once the goal is met, it stays met until an increment, and every tap before then vibrates again |
| Events.VibratesIffTapMeetsTarget | jumpingJackCounter/main.c:83-85 | a run vibrates at an event iff that event is a tap and the goal is met right after it |
| Events.HandleKeepsConsistent | jumpingJackCounter/main.c:38-86 | every event keeps the goal and count non-negative; the text shows either the current goal or (after a tap) the current count |
| Events.RunKeepsConsistent | jumpingJackCounter/main.c:38-86 | the same consistency holds after any run from a consistent state |
| Lifecycle.Init | jumpingJackCounter/main.c:122-138 | start-up takes the goal from the store or the default, starts the count at 0, and has drawn no text yet |
| Lifecycle.WindowLoad | jumpingJackCounter/main.c:106-111 | the first draw shows `Jacks(goal)` and changes neither counter |
| Lifecycle.Launch | jumpingJackCounter/main.c:122-138 | after start-up and window load the count is 0, the goal comes from the store or the default, and the goal is on screen |
| Lifecycle.Deinit | jumpingJackCounter/main.c:140-150 | exit writes the goal under key 1 and leaves the rest of the store as it was; the count is not saved |
| Lifecycle.Session | jumpingJackCounter/main.c:152-156 | a whole run of the app leaves key 1 present and every other key unchanged |
| Lifecycle.RelaunchRestoresTarget | jumpingJackCounter/main.c:122-150 | exit followed by relaunch gives back the goal, with a count of 0 and the goal on screen |
| Lifecycle.SessionCarriesTarget | jumpingJackCounter/main.c:152-156 | the next run starts with the goal the previous run ended with, and a count of 0 |
| Lifecycle.Sessions | jumpingJackCounter/main.c:152-156 | back-to-back runs of the app, each launched from the store the last one left; after at least one run key 1 is present |
| Lifecycle.StoredTargetStaysNonNegative | jumpingJackCounter/main.c:135-144 | a store whose goal is >= 0 keeps it >= 0 over any number of runs |
| Lifecycle.LaunchIsConsistent | jumpingJackCounter/main.c:106-111 | launching from a non-negative stored goal gives a consistent state, and every run keeps it consistent |
| Lifecycle.FirstJumpOnFreshInstall | jumpingJackCounter/main.c:74-86 | fresh install, one tap: count 1, "1 DONE" shown, vibration |
| Lifecycle.FiveJacksScenario | jumpingJackCounter/main.c:53-86 | in one run from a fresh install, five increments show "5 Jacks" and never vibrate; of the five taps after them the first four do not vibrate and the fifth vibrates and shows "5 DONE" |
| Lifecycle.ThreeDecrementsAtZero | jumpingJackCounter/main.c:57-61 | three decrements at a goal of 0 leave the launched state unchanged |

## Left out

- Window, action bar and text layer creation and destruction: fonts, geometry, the header label and icon bitmaps (main.c:89-110, 115-132, 146-149). These are SDK calls with no logic of their own.
- `snprintf` with `%u` into 50-byte buffers (main.c:38-49). The body text is the abstract `Jacks(n)` / `Done(n)`. The model does not include turning integers into strings, or `%u` printing a negative goal as a large unsigned number.
- The 50 ms repeat-on-hold interval and the click-config registration (main.c:67-71). A held button is modelled as the same press repeated.
- Tap detection and the subscribe/unsubscribe calls (main.c:123, 142). `vibes_long_pulse` is modelled as the returned `vibrate` flag.
- The unused `timer` global (main.c:32). The ordering of calls inside `init`, `deinit` and `app_event_loop` is also left out; `Session` runs them in sequence.
- Persist.Save: a failed host write (storage full, say) is not modelled. The source ignores the `status_t` that `persist_write_int` returns (main.c:144), so after such a failure the next start-up would read the old value or the default. `LoadAfterSave`, `RelaunchRestoresTarget`, `SessionCarriesTarget` and `StoredTargetStaysNonNegative` hold only for writes that succeed.
- C `int` overflow from unbounded increments or taps. Counters are mathematical integers.
- Taps that arrive before the window has loaded would write to a text layer that does not exist yet. The model just records the text (`Done(n)` replacing `Blank`).
