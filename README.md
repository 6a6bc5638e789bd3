# Focus Change Command — verified model of the focus-change decider

The Focus Change Command extension runs a configured command each time the
editor window gains or loses focus, or the active text editor changes. It has
a 100 ms debounce, a guard against firing while text is selected, and a toggle
command. This project models the extension's decision logic in Dafny:

- the three pieces of state (`isEnabled`, `lastFocusTime`, `lastEditor`),
- the `onFocusChange` handler, which both host listeners call,
- the toggle command handler and the single toggle run at activation.

The project also proves what these do, one event at a time and over whole
sequences of events.

Layout:

- `wrappers.dfy`: module `Wrappers`, which holds `Option`.
- `focus_change.dfy`: module `FocusChange`. It holds the events, settings and
  outcomes, and the pure specification `React` (one event) and `ToggleState`
  (the toggle). It also holds the class `Decider`. Its fields are the
  extension's state, and its methods `OnFocusChange`, `Toggle` and `Activate`
  change that state in place. Each method is proved equal to the
  specification.
- `focus_traces.dfy`: module `FocusTraces`. `Run` feeds a sequence of events
  through `React`, and the lemmas state debounce and same-editor properties
  over such runs.

Clock readings, settings and the selection test are parameters. Notifications and the dispatch of the command are `Outcome` values:

- `Date.now()` becomes the event's `now`.
- The two `config.get` reads become a `Settings` value.
- `hasSelection()` becomes the event's `selectionPresent`.
- The warning, the dispatch of the command, and the fact that nothing
  happened become an `Outcome`: `Debounced`, `Guarded`, `Warned`,
  `Fired(command)` or `Skipped`. The toggle reports whether the "now
  disabled" message is shown.

Each event produces exactly one `Outcome`. So an event never both fires the
command and shows the warning.

Behaviour of the source worth knowing:

- A disabled listener still fires when nothing is selected. The guard at
  src/extension.ts:42-45 drops an event only when a selection is present.
- A window-state event carries no editor. It compares "no editor" with the
  last editor, and when it fires it resets the last editor to none.
- An empty command id counts as unset, because the source tests it for
  truthiness (line 53).
- The stamp is set at line 49, before the command id is read at line 51. So
  an event that only shows the warning also restarts the 100 ms window.
- Only a processed event restarts the window. An event that is debounced or
  guarded leaves the stamp alone, so an event shortly after a guarded one can
  still fire.
- `lastEditor` is assigned at line 60, right after the dispatch is issued,
  whether or not the command later fails. When the command is not dispatched,
  `lastEditor` stays the same.

## Model

| member | source | states |
|---|---|---|
| FocusChange.React | src/extension.ts:27-68 | Handling an event never changes the enable flag and never moves the stamp backwards. Within 100 ms of the stamp the event is `Debounced` and the state stays the same. Past the window, a present selection drops it (`Guarded`) exactly when the listener is off or no editor came with the event. State is unchanged exactly when the event is dropped; otherwise the stamp becomes `now`. A missing or empty command id gives `Warned` and keeps the last editor. The command fires exactly when re-triggering is on or the editor differs from the last one; then the last editor becomes the event's editor, and otherwise it stays the same |
| FocusChange.ToggleState | src/extension.ts:83-91 | The flag becomes its negation and nothing else changes. The message is shown exactly when the listener is switched off |
| FocusChange.ToggleTwiceRestores | src/extension.ts:84-91 | Two toggles give back the original state, and exactly one of the two shows the message |
| FocusChange.StartupEnables | src/extension.ts:95 | From the load-time state, the startup toggle enables the listener and shows no message |
| FocusChange.DisabledStillFiresWithoutSelection | src/extension.ts:42-45 | A disabled listener still dispatches the command when nothing is selected and the editor changed |
| FocusChange.WindowStateEventClearsLastEditor | src/extension.ts:54-60 | Past the debounce window, a window-state event with no selection fires after an editor was seen, and it resets the last editor to none |
| FocusChange.DisabledGuardsSelection | src/extension.ts:42-45 | Switching off shows the message, and the next event, if it arrives with a selection, is dropped |
| FocusChange.Decider.constructor | src/extension.ts:3-9 | The state at load is disabled, stamped with the load time, and has no last editor |
| FocusChange.Decider.OnFocusChange | src/extension.ts:27-68 | The in-place handler produces exactly the outcome and new state that `React` gives for the old state |
| FocusChange.Decider.Toggle | src/extension.ts:83-91 | The in-place toggle produces exactly the state and message that `ToggleState` gives |
| FocusChange.Decider.Activate | src/extension.ts:81-95 | Activation leaves a fresh decider enabled, keeps the load-time stamp and no last editor, and shows no message |
| FocusTraces.Run | src/extension.ts:70-78 | Handling a sequence of events gives one outcome per event, never changes the flag, and never moves the stamp backwards |
| FocusTraces.BurstIsDebounced | src/extension.ts:31-33 | Events that all fall within 100 ms of the current stamp are all `Debounced` and leave the state unchanged |
| FocusTraces.OnlyFirstOfBurstEligible | src/extension.ts:31-49 | Once an event passes the debounce and the guard, every later event up to 100 ms after it is debounced |
| FocusTraces.BurstFiresAtMostOnce | src/extension.ts:31-49 | A run of events that all lie within 100 ms of each other fires the command at most once, whether or not its first event is processed |
| FocusTraces.NoFireFromRememberedEditor | src/extension.ts:54-60 | With re-triggering off, events from the editor already remembered never fire |
| FocusTraces.SameEditorFiresAtMostOnce | src/extension.ts:54-60 | With re-triggering off, a run of events that all carry the same editor (or all carry none) fires at most once |
| FocusTraces.ConsecutiveSameEditor | src/extension.ts:54-60 | With re-triggering off, two adjacent deliveries with the same editor do not both fire |
| FocusTraces.NoFireAfterDiscards | src/extension.ts:31-60 | With re-triggering off and the remembered editor `e`, an event from `e` does not fire, even after any number of discarded events that carry other editors |
| FocusTraces.ConsecutiveProcessedSameEditor | src/extension.ts:31-60 | With re-triggering off, if an event fires and the events after it are discarded up to the next one with the same editor, that next one does not fire |
| FocusTraces.DisabledRunDropsSelected | src/extension.ts:27-68 | While the listener is off, every event in a run that arrives with a selection is debounced or guarded |
| FocusTraces.DisabledAfterToggleDropsSelected | src/extension.ts:42-45 | Switching off shows the message, and every later event that arrives with a selection is dropped, until the next toggle |
| FocusTraces.EveryEditorChangeFires | src/extension.ts:53-61 | With a command id set and no selection, every event fires if it comes more than 100 ms after the previous one and with a different editor |
| FocusTraces.AlternatingEditorsFireThreeTimes | src/extension.ts:53-61 | Switching editors A, B, A with 200 ms gaps and command `foo.bar` dispatches `foo.bar` three times |

## Left out

- The body of `hasSelection` (src/extension.ts:13-24) is left out. It reads undocumented private fields of the host's selection object. The model takes its answer as the boolean `selectionPresent`. If those private fields are missing, `hasSelection` throws, and the handler stops before the stamp at line 49: no state changes and nothing is dispatched. That is the `Guarded` outcome with `selectionPresent` true.
- The asynchronous result of `executeCommand` is left out, and so is the error message it shows when the command fails (src/extension.ts:55-59). `Fired` means the dispatch was issued.
- React: assumes the dispatched command does not touch the decider's own state. If `commandId` names the extension's own `focus-change-command.toggle`, each fire also flips `isEnabled` once that command runs (src/extension.ts:55, 81-84). `React`, `Run` and the run lemmas do not model this, so their "never changes the enable flag" holds only for other commands.
- Notification texts and `console.log` output are left out. The model keeps only which notification is shown.
- Reading the configuration and the clock is left out. Their values arrive as parameters.
- Listener and command registration, disposables, `context.subscriptions` and `deactivate` are left out. They are lifecycle plumbing with no decisions in them.
- Timestamps are unbounded integers. JavaScript numbers are exact only up to 2^53 ms, which real clock values never reach.
- The model has no concurrency, because the host delivers events one at a time.
