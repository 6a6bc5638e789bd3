/**
 * The focus-change decider of the Focus Change Command extension
 * (src/extension.ts).
 *
 * The clock reading, the editor carried by the event, the selection test and
 * the two settings are parameters; the notifications and the dispatch of the
 * command are `Outcome` values.
 */
module FocusChange {
  import opened Wrappers

  /** Identity of a host text editor; the source compares editors with `!==`. */
  type EditorId = nat

  /** Events closer than this many milliseconds to the last stamped one are dropped. */
  const DEBOUNCE_MS: int := 100

  /** The two host events the extension listens to. */
  datatype Event =
    | WindowStateChanged(now: int, selectionPresent: bool)
    | ActiveEditorChanged(now: int, editor: Option<EditorId>, selectionPresent: bool)
  {
    /** The editor the handler sees: a window-state event carries none. */
    function Editor(): Option<EditorId> {
      match this
      case WindowStateChanged(_, _) => None
      case ActiveEditorChanged(_, e, _) => e
    }
  }

  /** The settings under the `focusChangeCommand` namespace; an unset boolean reads as false. */
  datatype Settings = Settings(commandId: Option<string>, triggerOnSameEditor: bool)

  /** What handling one event does towards the user and the host. */
  datatype Outcome =
    | Debounced          // too soon after the last stamped event
    | Guarded            // dropped because a selection is present
    | Warned             // "no command ID set" warning shown
    | Fired(command: string)  // the configured command was dispatched
    | Skipped            // same editor as last time, and re-triggering is off
  {
    predicate Discarded() { Debounced? || Guarded? }
  }

  /** The extension's mutable state: the enable flag, the debounce stamp, the last editor. */
  datatype State = State(isEnabled: bool, lastFocusTime: int, lastEditor: Option<EditorId>)

  datatype Reaction = Reaction(next: State, outcome: Outcome)

  datatype Toggled = Toggled(next: State, infoShown: bool)

  /** State when the module is loaded: disabled, stamped with the load time, no editor yet. */
  function Initial(loadTime: int): State {
    State(false, loadTime, None)
  }

  predicate WithinDebounce(s: State, now: int) {
    now - s.lastFocusTime <= DEBOUNCE_MS
  }

  /** The selection guard: it bites when the listener is off or no editor came with the event. */
  predicate SelectionBlocks(s: State, ev: Event) {
    (!s.isEnabled || ev.Editor().None?) && ev.selectionPresent
  }

  /** An event that passes both the debounce and the selection guard. */
  predicate Processed(s: State, ev: Event) {
    !WithinDebounce(s, ev.now) && !SelectionBlocks(s, ev)
  }

  /** A command id counts only when it is a non-empty string (a truthiness test in the source). */
  predicate Configured(commandId: Option<string>) {
    commandId.Some? && commandId.value != ""
  }

  /** The decision taken for one event, and the state it leaves behind. */
  function React(s: State, ev: Event, cfg: Settings): (r: Reaction)
    // handling an event never changes the enable flag, nor moves the stamp backwards
    ensures r.next.isEnabled == s.isEnabled
    ensures r.next.lastFocusTime >= s.lastFocusTime
    // debounce: within the window nothing happens at all
    ensures r.outcome == Debounced <==> WithinDebounce(s, ev.now)
    ensures WithinDebounce(s, ev.now) ==> r.next == s
    // guard: a selection drops the event only when disabled or editor-less
    ensures r.outcome == Guarded <==> !WithinDebounce(s, ev.now) && SelectionBlocks(s, ev)
    ensures s.isEnabled && ev.Editor().Some? ==> r.outcome != Guarded
    // the state is left alone exactly when the event is dropped
    ensures r.next == s <==> r.outcome.Discarded()
    ensures Processed(s, ev) ==> r.next.lastFocusTime == ev.now
    // missing command id: one warning, no dispatch, last editor kept
    ensures r.outcome == Warned <==> Processed(s, ev) && !Configured(cfg.commandId)
    // dispatch exactly when re-triggering is on or the editor changed
    ensures r.outcome.Fired? <==>
              Processed(s, ev) && Configured(cfg.commandId) &&
              (cfg.triggerOnSameEditor || ev.Editor() != s.lastEditor)
    ensures r.outcome.Fired? ==> cfg.commandId == Some(r.outcome.command) && r.next.lastEditor == ev.Editor()
    ensures !r.outcome.Fired? ==> r.next.lastEditor == s.lastEditor
  {
    if WithinDebounce(s, ev.now) then
      Reaction(s, Debounced)
    else if SelectionBlocks(s, ev) then
      Reaction(s, Guarded)
    else
      var stamped := s.(lastFocusTime := ev.now);
      if !Configured(cfg.commandId) then
        Reaction(stamped, Warned)
      else if cfg.triggerOnSameEditor || ev.Editor() != s.lastEditor then
        Reaction(stamped.(lastEditor := ev.Editor()), Fired(cfg.commandId.value))
      else
        Reaction(stamped, Skipped)
  }

  /** The toggle command: flip the flag, and announce it only when it switches off. */
  function ToggleState(s: State): (t: Toggled)
    ensures t.next.isEnabled == !s.isEnabled
    ensures t.infoShown <==> s.isEnabled
    ensures t.next.lastFocusTime == s.lastFocusTime && t.next.lastEditor == s.lastEditor
  {
    var next := s.(isEnabled := !s.isEnabled);
    Toggled(next, !next.isEnabled)
  }

  /** Toggling twice gives the state back, and exactly one of the two toggles shows the message. */
  lemma ToggleTwiceRestores(s: State)
    ensures ToggleState(ToggleState(s).next).next == s
    ensures ToggleState(s).infoShown != ToggleState(ToggleState(s).next).infoShown
  {
  }

  /** The toggle run once at activation turns the listener on without a message. */
  lemma StartupEnables(loadTime: int)
    ensures ToggleState(Initial(loadTime)) == Toggled(State(true, loadTime, None), false)
  {
  }

  /** A disabled listener still dispatches when nothing is selected. */
  lemma DisabledStillFiresWithoutSelection(s: State, ev: Event, cfg: Settings)
    requires !s.isEnabled && !ev.selectionPresent && !WithinDebounce(s, ev.now)
    requires Configured(cfg.commandId) && ev.Editor() != s.lastEditor
    ensures React(s, ev, cfg).outcome == Fired(cfg.commandId.value)
  {
  }

  /**
   * A window-state event compares "no editor" against the last editor, so after
   * an editor was seen it dispatches and forgets that editor.
   */
  lemma WindowStateEventClearsLastEditor(s: State, now: int, cfg: Settings)
    requires s.lastEditor.Some? && now - s.lastFocusTime > DEBOUNCE_MS
    requires Configured(cfg.commandId)
    ensures React(s, WindowStateChanged(now, false), cfg)
         == Reaction(State(s.isEnabled, now, None), Fired(cfg.commandId.value))
  {
  }

  /** After switching off, the next event is dropped if it arrives with a selection. */
  lemma DisabledGuardsSelection(s: State, ev: Event, cfg: Settings)
    requires s.isEnabled && ev.selectionPresent
    ensures ToggleState(s).infoShown
    ensures React(ToggleState(s).next, ev, cfg).outcome.Discarded()
  {
  }

  /** The extension's live state, updated in place by the two handlers. */
  class Decider {
    var isEnabled: bool
    var lastFocusTime: int
    var lastEditor: Option<EditorId>

    function Snapshot(): State
      reads this
    {
      State(isEnabled, lastFocusTime, lastEditor)
    }

    /** Module load: the flag starts false and the stamp is the load time. */
    constructor (loadTime: int)
      ensures Snapshot() == Initial(loadTime)
    {
      isEnabled := false;
      lastFocusTime := loadTime;
      lastEditor := None;
    }

    /** The handler both host listeners call. */
    method OnFocusChange(ev: Event, cfg: Settings) returns (outcome: Outcome)
      modifies this
      ensures Reaction(Snapshot(), outcome) == React(old(Snapshot()), ev, cfg)
    {
      var now := ev.now;
      if now - lastFocusTime <= DEBOUNCE_MS {
        return Debounced;
      }
      if (!isEnabled || ev.Editor().None?) && ev.selectionPresent {
        return Guarded;
      }
      lastFocusTime := now;
      if Configured(cfg.commandId) {
        if cfg.triggerOnSameEditor || ev.Editor() != lastEditor {
          outcome := Fired(cfg.commandId.value);
          lastEditor := ev.Editor();
        } else {
          outcome := Skipped;
        }
      } else {
        outcome := Warned;
      }
    }

    /** The toggle command handler; `infoShown` is the "now disabled" message. */
    method Toggle() returns (infoShown: bool)
      modifies this
      ensures Toggled(Snapshot(), infoShown) == ToggleState(old(Snapshot()))
    {
      isEnabled := !isEnabled;
      infoShown := !isEnabled;
    }

    /** Activation: the state as loaded, then the toggle command once. */
    static method Activate(loadTime: int) returns (d: Decider, infoShown: bool)
      ensures fresh(d)
      ensures d.Snapshot() == State(true, loadTime, None) && !infoShown
    {
      d := new Decider(loadTime);
      infoShown := d.Toggle();
      StartupEnables(loadTime);
    }
  }
}
