/**
 * Runs of the focus-change decider over a sequence of events, as the host
 * delivers them one after another on a single thread.
 */
module FocusTraces {
  import opened Wrappers
  import opened FocusChange

  /** One delivered event together with the settings read while handling it. */
  datatype Delivery = Delivery(ev: Event, cfg: Settings)

  datatype Trace = Trace(final: State, outcomes: seq<Outcome>)

  /** Handle the deliveries in order, collecting one outcome per event. */
  function Run(s: State, ds: seq<Delivery>): (r: Trace)
    ensures |r.outcomes| == |ds|
    ensures r.final.isEnabled == s.isEnabled
    ensures r.final.lastFocusTime >= s.lastFocusTime
    decreases |ds|
  {
    if ds == [] then
      Trace(s, [])
    else
      var first := React(s, ds[0].ev, ds[0].cfg);
      var rest := Run(first.next, ds[1..]);
      Trace(rest.final, [first.outcome] + rest.outcomes)
  }

  function FireCount(outs: seq<Outcome>): (n: nat)
    ensures n <= |outs|
    ensures n == 0 <==> forall i :: 0 <= i < |outs| ==> !outs[i].Fired?
  {
    if outs == [] then 0
    else (if outs[0].Fired? then 1 else 0) + FireCount(outs[1..])
  }

  /** Events that all fall within the debounce window of the current stamp change nothing. */
  lemma {:induction false} BurstIsDebounced(s: State, ds: seq<Delivery>)
    requires forall i :: 0 <= i < |ds| ==> WithinDebounce(s, ds[i].ev.now)
    ensures Run(s, ds).final == s
    ensures forall i :: 0 <= i < |ds| ==> Run(s, ds).outcomes[i] == Debounced
    decreases |ds|
  {
    if ds != [] {
      BurstIsDebounced(s, ds[1..]);
    }
  }

  /**
   * Once an event gets past the debounce and the guard, every event up to
   * 100 ms after it is debounced: only the first of such a burst can fire.
   */
  lemma OnlyFirstOfBurstEligible(s: State, ds: seq<Delivery>)
    requires |ds| > 0 && Processed(s, ds[0].ev)
    requires forall i :: 1 <= i < |ds| ==> ds[i].ev.now - ds[0].ev.now <= DEBOUNCE_MS
    ensures forall i :: 1 <= i < |ds| ==> Run(s, ds).outcomes[i] == Debounced
  {
    var next := React(s, ds[0].ev, ds[0].cfg).next;
    assert next.lastFocusTime == ds[0].ev.now;
    var tail := ds[1..];
    assert forall i :: 0 <= i < |tail| ==> tail[i] == ds[i + 1];
    BurstIsDebounced(next, tail);
  }

  /**
   * A run whose events all lie within 100 ms of each other fires at most once:
   * a discarded event leaves the stamp alone, and the first processed one
   * debounces the rest.
   */
  lemma {:induction false} BurstFiresAtMostOnce(s: State, ds: seq<Delivery>)
    requires forall i, j :: 0 <= i < |ds| && 0 <= j < |ds| ==> ds[j].ev.now - ds[i].ev.now <= DEBOUNCE_MS
    ensures FireCount(Run(s, ds).outcomes) <= 1
    decreases |ds|
  {
    if ds != [] {
      var first := React(s, ds[0].ev, ds[0].cfg);
      var rest := Run(first.next, ds[1..]);
      assert Run(s, ds).outcomes == [first.outcome] + rest.outcomes;
      assert (Run(s, ds).outcomes)[1..] == rest.outcomes;
      if Processed(s, ds[0].ev) {
        OnlyFirstOfBurstEligible(s, ds);
        assert forall i :: 0 <= i < |rest.outcomes| ==> rest.outcomes[i] == Run(s, ds).outcomes[i + 1];
        assert FireCount(rest.outcomes) == 0;
      } else {
        assert first.next == s && !first.outcome.Fired?;
        var tail := ds[1..];
        assert forall i :: 0 <= i < |tail| ==> tail[i] == ds[i + 1];
        BurstFiresAtMostOnce(s, tail);
      }
    }
  }

  /** With re-triggering off and the remembered editor already `e`, events from `e` never fire. */
  lemma {:induction false} NoFireFromRememberedEditor(s: State, ds: seq<Delivery>, e: Option<EditorId>)
    requires s.lastEditor == e
    requires forall i :: 0 <= i < |ds| ==> ds[i].ev.Editor() == e && !ds[i].cfg.triggerOnSameEditor
    ensures FireCount(Run(s, ds).outcomes) == 0
    decreases |ds|
  {
    if ds != [] {
      var first := React(s, ds[0].ev, ds[0].cfg);
      NoFireFromRememberedEditor(first.next, ds[1..], e);
      assert Run(s, ds).outcomes == [first.outcome] + Run(first.next, ds[1..]).outcomes;
      assert (Run(s, ds).outcomes)[1..] == Run(first.next, ds[1..]).outcomes;
    }
  }

  /**
   * With re-triggering off, a run of events that all carry the same editor
   * (window-state events included, all carrying none) fires at most once.
   */
  lemma {:induction false} SameEditorFiresAtMostOnce(s: State, ds: seq<Delivery>, e: Option<EditorId>)
    requires forall i :: 0 <= i < |ds| ==> ds[i].ev.Editor() == e && !ds[i].cfg.triggerOnSameEditor
    ensures FireCount(Run(s, ds).outcomes) <= 1
    decreases |ds|
  {
    if ds != [] {
      var first := React(s, ds[0].ev, ds[0].cfg);
      var rest := Run(first.next, ds[1..]);
      assert Run(s, ds).outcomes == [first.outcome] + rest.outcomes;
      assert (Run(s, ds).outcomes)[1..] == rest.outcomes;
      if first.outcome.Fired? {
        NoFireFromRememberedEditor(first.next, ds[1..], e);
      } else {
        SameEditorFiresAtMostOnce(first.next, ds[1..], e);
      }
    }
  }

  /** Two consecutive events carrying the same editor fire at most once without re-triggering. */
  lemma ConsecutiveSameEditor(s: State, d1: Delivery, d2: Delivery)
    requires d1.ev.Editor() == d2.ev.Editor()
    requires !d1.cfg.triggerOnSameEditor && !d2.cfg.triggerOnSameEditor
    ensures var r1 := React(s, d1.ev, d1.cfg);
            !(r1.outcome.Fired? && React(r1.next, d2.ev, d2.cfg).outcome.Fired?)
  {
  }

  /**
   * With the remembered editor already `e`, an event from `e` without
   * re-triggering does not fire, however many discarded events (carrying any
   * editor) come before it.
   */
  lemma {:induction false} NoFireAfterDiscards(s: State, ds: seq<Delivery>, k: nat, e: Option<EditorId>)
    requires k < |ds| && s.lastEditor == e
    requires forall j :: 0 <= j < k ==> Run(s, ds).outcomes[j].Discarded()
    requires ds[k].ev.Editor() == e && !ds[k].cfg.triggerOnSameEditor
    ensures !Run(s, ds).outcomes[k].Fired?
    decreases k
  {
    var first := React(s, ds[0].ev, ds[0].cfg);
    var rest := Run(first.next, ds[1..]);
    assert Run(s, ds).outcomes == [first.outcome] + rest.outcomes;
    if k > 0 {
      assert first.outcome == Run(s, ds).outcomes[0];
      assert first.next == s;
      forall j | 0 <= j < k - 1
        ensures rest.outcomes[j].Discarded()
      {
        assert rest.outcomes[j] == Run(s, ds).outcomes[j + 1];
      }
      assert ds[1..][k - 1] == ds[k];
      NoFireAfterDiscards(s, ds[1..], k - 1, e);
      assert Run(s, ds).outcomes[k] == rest.outcomes[k - 1];
    } else {
      assert Run(s, ds).outcomes[0] == first.outcome;
    }
  }

  /**
   * Two processed events in a row with the same editor and re-triggering off
   * fire at most once, whatever discarded events lie between them.
   */
  lemma ConsecutiveProcessedSameEditor(s: State, ds: seq<Delivery>, k: nat)
    requires 0 < k < |ds|
    requires Run(s, ds).outcomes[0].Fired?
    requires forall j :: 0 < j < k ==> Run(s, ds).outcomes[j].Discarded()
    requires ds[k].ev.Editor() == ds[0].ev.Editor() && !ds[k].cfg.triggerOnSameEditor
    ensures !Run(s, ds).outcomes[k].Fired?
  {
    var first := React(s, ds[0].ev, ds[0].cfg);
    var rest := Run(first.next, ds[1..]);
    assert Run(s, ds).outcomes == [first.outcome] + rest.outcomes;
    assert first.next.lastEditor == ds[0].ev.Editor();
    forall j | 0 <= j < k - 1
      ensures rest.outcomes[j].Discarded()
    {
      assert rest.outcomes[j] == Run(s, ds).outcomes[j + 1];
    }
    assert ds[1..][k - 1] == ds[k];
    NoFireAfterDiscards(first.next, ds[1..], k - 1, ds[0].ev.Editor());
    assert Run(s, ds).outcomes[k] == rest.outcomes[k - 1];
  }

  /** While the listener is off, every event that arrives with a selection is dropped. */
  lemma {:induction false} DisabledRunDropsSelected(s: State, ds: seq<Delivery>)
    requires !s.isEnabled
    ensures forall i :: 0 <= i < |ds| && ds[i].ev.selectionPresent ==> Run(s, ds).outcomes[i].Discarded()
    decreases |ds|
  {
    if ds != [] {
      var first := React(s, ds[0].ev, ds[0].cfg);
      var rest := Run(first.next, ds[1..]);
      assert Run(s, ds).outcomes == [first.outcome] + rest.outcomes;
      DisabledRunDropsSelected(first.next, ds[1..]);
      assert forall i :: 1 <= i < |ds| ==> ds[i] == ds[1..][i - 1];
    }
  }

  /**
   * Switching the listener off shows the message, and from then on, until the
   * next toggle, every event that arrives with a selection is dropped.
   */
  lemma DisabledAfterToggleDropsSelected(s: State, ds: seq<Delivery>)
    requires s.isEnabled
    ensures ToggleState(s).infoShown
    ensures forall i :: 0 <= i < |ds| && ds[i].ev.selectionPresent ==>
              Run(ToggleState(s).next, ds).outcomes[i].Discarded()
  {
    DisabledRunDropsSelected(ToggleState(s).next, ds);
  }

  /** The conditions under which every delivery of a run reaches the command. */
  predicate EveryStepChanges(s: State, ds: seq<Delivery>) {
    (|ds| > 0 ==>
       ds[0].ev.now - s.lastFocusTime > DEBOUNCE_MS && ds[0].ev.Editor() != s.lastEditor) &&
    (forall i :: 0 <= i < |ds| ==> Configured(ds[i].cfg.commandId) && !ds[i].ev.selectionPresent) &&
    (forall i :: 1 <= i < |ds| ==>
       ds[i].ev.now - ds[i - 1].ev.now > DEBOUNCE_MS && ds[i].ev.Editor() != ds[i - 1].ev.Editor())
  }

  /**
   * Without selections, with gaps longer than the debounce window and a new
   * editor each time, every event fires its command.
   */
  lemma {:induction false} EveryEditorChangeFires(s: State, ds: seq<Delivery>)
    requires EveryStepChanges(s, ds)
    ensures forall i :: 0 <= i < |ds| ==> Run(s, ds).outcomes[i] == Fired(ds[i].cfg.commandId.value)
    decreases |ds|
  {
    if ds != [] {
      assert Configured(ds[0].cfg.commandId) && !ds[0].ev.selectionPresent;
      var first := React(s, ds[0].ev, ds[0].cfg);
      assert first.outcome == Fired(ds[0].cfg.commandId.value);
      assert first.next.lastFocusTime == ds[0].ev.now && first.next.lastEditor == ds[0].ev.Editor();
      var tail := ds[1..];
      assert forall i :: 0 <= i < |tail| ==> tail[i] == ds[i + 1];
      assert EveryStepChanges(first.next, tail);
      EveryEditorChangeFires(first.next, tail);
    }
  }

  /** Editor A, then B, then A again, each more than 100 ms apart: three dispatches. */
  lemma AlternatingEditorsFireThreeTimes(start: int)
    ensures var cfg := Settings(Some("foo.bar"), false);
            var ds := [Delivery(ActiveEditorChanged(start + 200, Some(1), false), cfg),
                       Delivery(ActiveEditorChanged(start + 400, Some(2), false), cfg),
                       Delivery(ActiveEditorChanged(start + 600, Some(1), false), cfg)];
            Run(State(true, start, None), ds).outcomes == [Fired("foo.bar"), Fired("foo.bar"), Fired("foo.bar")]
  {
    var cfg := Settings(Some("foo.bar"), false);
    var ds := [Delivery(ActiveEditorChanged(start + 200, Some(1), false), cfg),
               Delivery(ActiveEditorChanged(start + 400, Some(2), false), cfg),
               Delivery(ActiveEditorChanged(start + 600, Some(1), false), cfg)];
    EveryEditorChangeFires(State(true, start, None), ds);
  }
}
