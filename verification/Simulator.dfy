/** Event replay of one agent turn on a shared event stream. */
module Simulator {
  import opened Common

  datatype EventKind = Output | Completed | Failed

  datatype Event = Event(sequence: int, runId: string, turnId: string, kind: EventKind, payload: string)
  {
    predicate Terminal() { kind != Output }

    predicate SameOutcome(e: Event) { kind == e.kind && payload == e.payload }
  }

  datatype ReducerMode = Naive | Scoped

  datatype RunState = RunState(
    activeRunId: string,
    activeTurnId: string,
    output: string,
    terminal: bool,
    failed: bool,
    acceptedEvents: seq<int>,
    ignoredEvents: seq<int>,
    terminalKind: Option<EventKind>,
    terminalPayload: string)

  datatype ReplayError = OrderInvalid | TerminalStateConflict

  predicate BelongsToActiveTurn(state: RunState, e: Event) {
    e.runId == state.activeRunId && e.turnId == state.activeTurnId
  }

  function HandleEventAfterTerminal(state: RunState, e: Event): Result<RunState, ReplayError> {
    if state.terminalKind == Some(e.kind) && e.payload == state.terminalPayload then
      Ok(state.(ignoredEvents := state.ignoredEvents + [e.sequence]))
    else Err(TerminalStateConflict)
  }

  function ApplyEvent(state: RunState, e: Event, mode: ReducerMode): Result<RunState, ReplayError> {
    if mode == Scoped && !BelongsToActiveTurn(state, e) then
      Ok(state.(ignoredEvents := state.ignoredEvents + [e.sequence]))
    else if mode == Scoped && state.terminal then
      HandleEventAfterTerminal(state, e)
    else
      var next := state.(acceptedEvents := state.acceptedEvents + [e.sequence]);
      match e.kind
      case Output => Ok(next.(output := e.payload))
      case Completed =>
        Ok(next.(terminal := true, terminalKind := Some(e.kind), terminalPayload := e.payload,
                 output := if e.payload != "" then e.payload else next.output))
      case Failed =>
        Ok(next.(terminal := true, failed := true, terminalKind := Some(e.kind), terminalPayload := e.payload,
                 output := e.payload))
  }

  function Replayed(events: seq<Event>, initial: RunState, mode: ReducerMode): Result<RunState, ReplayError> {
    if events == [] then Ok(initial)
    else match Replayed(events[..|events| - 1], initial, mode)
      case Err(e) => Err(e)
      case Ok(state) => ApplyEvent(state, events[|events| - 1], mode)
  }

  function SequencesOf(events: seq<Event>): seq<int> {
    seq(|events|, i requires 0 <= i < |events| => events[i].sequence)
  }

  lemma {:induction false} FailureIsFinal(events: seq<Event>, n: nat, initial: RunState, mode: ReducerMode)
    requires n <= |events| && Replayed(events[..n], initial, mode).Err?
    ensures Replayed(events, initial, mode) == Replayed(events[..n], initial, mode)
    decreases |events| - n
  {
    if n == |events| {
      assert events[..n] == events;
    } else {
      assert events[..n + 1][..n] == events[..n];
      FailureIsFinal(events, n + 1, initial, mode);
    }
  }

  method Replay(events: seq<Event>, initial: RunState, mode: ReducerMode) returns (r: Result<RunState, ReplayError>)
    ensures r == if InOrder(SequencesOf(events)) then Replayed(events, initial, mode) else Err(OrderInvalid)
  {
    if !InOrder(SequencesOf(events)) {
      return Err(OrderInvalid);
    }
    var state := initial;
    for i := 0 to |events|
      invariant Replayed(events[..i], initial, mode) == Ok(state)
    {
      assert events[..i + 1][..i] == events[..i];
      var next := ApplyEvent(state, events[i], mode);
      if next.Err? {
        FailureIsFinal(events, i + 1, initial, mode);
        return Err(next.error);
      }
      state := next.value;
    }
    assert events[..|events|] == events;
    r := Ok(state);
  }

  // ----- non-interference -----

  function Own(events: seq<Event>, initial: RunState): seq<Event> {
    if events == [] then []
    else Own(events[..|events| - 1], initial)
         + (if BelongsToActiveTurn(initial, events[|events| - 1]) then [events[|events| - 1]] else [])
  }

  function FirstTerminal(events: seq<Event>): Option<Event> {
    if events == [] then None
    else
      var before, last := FirstTerminal(events[..|events| - 1]), events[|events| - 1];
      if before.Some? then before else if last.Terminal() then Some(last) else None
  }

  /** The events up to and including the first terminal one. */
  function UpToTerminal(events: seq<Event>): seq<Event> {
    if events == [] then []
    else if FirstTerminal(events[..|events| - 1]).Some? then UpToTerminal(events[..|events| - 1])
    else events
  }

  /** Outputs, then possibly one terminal event and exact copies of it. */
  ghost predicate Orderly(own: seq<Event>) {
    forall i, j | 0 <= i < j < |own| && own[i].Terminal() :: own[j].SameOutcome(own[i])
  }

  ghost predicate FirstTerminalAt(own: seq<Event>, k: nat) {
    k < |own| && own[k].Terminal() && forall i | 0 <= i < k :: !own[i].Terminal()
  }

  /** `UpToTerminal` cuts right behind the first terminal event. */
  lemma {:induction false} CutAtFirstTerminal(own: seq<Event>) returns (k: nat)
    ensures FirstTerminal(own).None? ==> (forall i | 0 <= i < |own| :: !own[i].Terminal()) && UpToTerminal(own) == own
    ensures FirstTerminal(own).Some? ==>
              FirstTerminalAt(own, k) && own[k] == FirstTerminal(own).value && UpToTerminal(own) == own[..k + 1]
    decreases |own|
  {
    k := 0;
    if own != [] {
      var before := own[..|own| - 1];
      k := CutAtFirstTerminal(before);
      if FirstTerminal(before).None? {
        forall i | 0 <= i < |own| - 1 ensures !own[i].Terminal() { assert own[i] == before[i]; }
        k := |own| - 1;
      } else {
        assert own[..k + 1] == before[..k + 1];
      }
    }
  }

  lemma OrderlyLast(own: seq<Event>, e: Event)
    ensures Orderly(own + [e]) <==>
            Orderly(own) && (FirstTerminal(own).Some? ==> e.SameOutcome(FirstTerminal(own).value))
  {
    var k := CutAtFirstTerminal(own);
    var longer := own + [e];
    if Orderly(longer) {
      forall i, j | 0 <= i < j < |own| && own[i].Terminal() ensures own[j].SameOutcome(own[i]) {
        assert longer[j].SameOutcome(longer[i]);
      }
      assert FirstTerminal(own).Some? ==> longer[|own|].SameOutcome(longer[k]);
    }
    if Orderly(own) && (FirstTerminal(own).Some? ==> e.SameOutcome(own[k])) {
      forall i, j | 0 <= i < j < |longer| && longer[i].Terminal() ensures longer[j].SameOutcome(longer[i]) {
        assert longer[i] == own[i];
        if j < |own| {
          assert own[j].SameOutcome(own[i]);
        } else if i != k {
          assert own[i].SameOutcome(own[k]);
        }
      }
    }
  }

  /** What the replay of a stream has to do with the turn's own events on it. */
  ghost predicate Isolated(events: seq<Event>, initial: RunState) {
    var own := Own(events, initial);
    var scoped, naive := Replayed(events, initial, Scoped), Replayed(UpToTerminal(own), initial, Naive);
    && naive.Ok?
    && (scoped.Ok? <==> Orderly(own))
    && (scoped.Ok? ==>
          && scoped.value.(ignoredEvents := initial.ignoredEvents) == naive.value
          && (scoped.value.terminal <==> FirstTerminal(own).Some?)
          && (FirstTerminal(own).Some? ==>
                && scoped.value.terminalKind == Some(FirstTerminal(own).value.kind)
                && scoped.value.terminalPayload == FirstTerminal(own).value.payload))
  }

  /** Without the ignored events, scoped replay of the shared stream is naive replay of the turn's
      own events up to its first terminal event; and it fails exactly when those are not orderly.
      No event of another run or turn has any influence. */
  lemma {:induction false} ScopedIsNaiveOnOwnTurn(events: seq<Event>, initial: RunState)
    requires !initial.terminal
    ensures Isolated(events, initial)
    decreases |events|
  {
    if events != [] {
      hide Isolated;
      var init, e := events[..|events| - 1], events[|events| - 1];
      assert init + [e] == events;
      ScopedIsNaiveOnOwnTurn(init, initial);
      if BelongsToActiveTurn(initial, e) {
        OwnEventIsIsolated(init, e, initial);
      } else {
        ForeignEventIsIsolated(init, e, initial);
      }
    } else {
      assert Own(events, initial) == [];
    }
  }

  lemma OneMoreReplayed(init: seq<Event>, e: Event, initial: RunState, mode: ReducerMode)
    ensures var before := Replayed(init, initial, mode);
            Replayed(init + [e], initial, mode) == if before.Err? then before else ApplyEvent(before.value, e, mode)
  {
    hide ApplyEvent;
    assert (init + [e])[..|init|] == init;
  }

  lemma ForeignEventIsIsolated(init: seq<Event>, e: Event, initial: RunState)
    requires Isolated(init, initial) && !BelongsToActiveTurn(initial, e)
    ensures Isolated(init + [e], initial)
  {
    hide Orderly, UpToTerminal, FirstTerminal;
    assert (init + [e])[..|init|] == init;
    assert Own(init + [e], initial) == Own(init, initial);
    OneMoreReplayed(init, e, initial, Scoped);
    if Replayed(init, initial, Scoped).Ok? {
      ReplayKeepsIdentity(init, initial, Scoped);
    }
    hide Replayed;
  }

  lemma OwnEventIsIsolated(init: seq<Event>, e: Event, initial: RunState)
    requires Isolated(init, initial) && BelongsToActiveTurn(initial, e)
    ensures Isolated(init + [e], initial)
  {
    hide Isolated, ApplyEvent, Replayed;
    if Replayed(init, initial, Scoped).Ok? {
      ReplayKeepsIdentity(init, initial, Scoped);
    }
    if FirstTerminal(Own(init, initial)).None? {
      BeforeTerminal(init, e, initial);
    } else {
      AfterTerminal(init, e, initial);
    }
  }

  lemma OwnOneMore(init: seq<Event>, e: Event, initial: RunState)
    requires BelongsToActiveTurn(initial, e)
    ensures var own := Own(init, initial);
            && Own(init + [e], initial) == own + [e]
            && (FirstTerminal(own).None? ==>
                  UpToTerminal(own) == own && UpToTerminal(own + [e]) == own + [e]
                  && FirstTerminal(own + [e]) == if e.Terminal() then Some(e) else None)
            && (FirstTerminal(own).Some? ==>
                UpToTerminal(own + [e]) == UpToTerminal(own) && FirstTerminal(own + [e]) == FirstTerminal(own))
  {
    var own := Own(init, initial);
    assert (init + [e])[..|init|] == init && (own + [e])[..|own|] == own;
    var k := CutAtFirstTerminal(own);
  }

  lemma BeforeTerminal(init: seq<Event>, e: Event, initial: RunState)
    requires Isolated(init, initial) && BelongsToActiveTurn(initial, e) && FirstTerminal(Own(init, initial)).None?
    requires Replayed(init, initial, Scoped).Ok? ==> BelongsToActiveTurn(Replayed(init, initial, Scoped).value, e)
    ensures Isolated(init + [e], initial)
  {
    hide ApplyEvent, Replayed, Orderly, UpToTerminal, FirstTerminal, Own, BelongsToActiveTurn;
    var own := Own(init, initial);
    OwnOneMore(init, e, initial);
    OrderlyLast(own, e);
    OneMoreReplayed(init, e, initial, Scoped);
    OneMoreReplayed(own, e, initial, Naive);
    NaiveAcceptsAll(own + [e], initial);
    if Replayed(init, initial, Scoped).Ok? {
      StepsAgree(Replayed(init, initial, Scoped).value, Replayed(own, initial, Naive).value, initial.ignoredEvents, e);
    }
  }

  lemma AfterTerminal(init: seq<Event>, e: Event, initial: RunState)
    requires Isolated(init, initial) && BelongsToActiveTurn(initial, e) && FirstTerminal(Own(init, initial)).Some?
    requires Replayed(init, initial, Scoped).Ok? ==> BelongsToActiveTurn(Replayed(init, initial, Scoped).value, e)
    ensures Isolated(init + [e], initial)
  {
    hide ApplyEvent, Replayed, Orderly, UpToTerminal, FirstTerminal, Own, BelongsToActiveTurn;
    var own, scoped := Own(init, initial), Replayed(init, initial, Scoped);
    OwnOneMore(init, e, initial);
    OrderlyLast(own, e);
    OneMoreReplayed(init, e, initial, Scoped);
    if scoped.Ok? {
      if e.SameOutcome(FirstTerminal(own).value) {
        ReplayedOutcomeIsIgnored(scoped.value, initial.ignoredEvents, e);
      } else {
        OtherOutcomeConflicts(scoped.value, e);
      }
    }
  }

  lemma ReplayedOutcomeIsIgnored(state: RunState, ignored: seq<int>, e: Event)
    requires state.terminal && BelongsToActiveTurn(state, e)
    requires state.terminalKind == Some(e.kind) && state.terminalPayload == e.payload
    ensures var s := ApplyEvent(state, e, Scoped);
            && s.Ok? && s.value.(ignoredEvents := ignored) == state.(ignoredEvents := ignored)
            && s.value.terminal && s.value.terminalKind == state.terminalKind
                && s.value.terminalPayload == state.terminalPayload
  {
  }

  lemma OtherOutcomeConflicts(state: RunState, e: Event)
    requires state.terminal && BelongsToActiveTurn(state, e)
    requires !(state.terminalKind == Some(e.kind) && state.terminalPayload == e.payload)
    ensures ApplyEvent(state, e, Scoped) == Err(TerminalStateConflict)
  {
  }

  lemma StepsAgree(scoped: RunState, naive: RunState, ignored: seq<int>, e: Event)
    requires scoped.(ignoredEvents := ignored) == naive && !scoped.terminal && BelongsToActiveTurn(scoped, e)
    ensures var s, n := ApplyEvent(scoped, e, Scoped), ApplyEvent(naive, e, Naive);
            && s.Ok? && n.Ok? && s.value.(ignoredEvents := ignored) == n.value
            && (s.value.terminal <==> e.Terminal())
            && (e.Terminal() ==> s.value.terminalKind == Some(e.kind) && s.value.terminalPayload == e.payload)
  {
  }

  /** Naive replay accepts every event, in order. */
  lemma {:induction false} NaiveAcceptsAll(events: seq<Event>, initial: RunState)
    ensures Replayed(events, initial, Naive).Ok?
    ensures Replayed(events, initial, Naive).value.ignoredEvents == initial.ignoredEvents
    ensures Replayed(events, initial, Naive).value.acceptedEvents == initial.acceptedEvents + SequencesOf(events)
    decreases |events|
  {
    if events != [] {
      var init, last := events[..|events| - 1], events[|events| - 1];
      NaiveAcceptsAll(init, initial);
      assert SequencesOf(events) == SequencesOf(init) + [last.sequence];
    }
  }

  /** Scoped replay accepts exactly the turn's own events up to the first terminal one, in order. */
  lemma ScopedAcceptsOwnTurn(events: seq<Event>, initial: RunState)
    requires !initial.terminal && Replayed(events, initial, Scoped).Ok?
    ensures Replayed(events, initial, Scoped).value.acceptedEvents
            == initial.acceptedEvents + SequencesOf(UpToTerminal(Own(events, initial)))
  {
    ScopedIsNaiveOnOwnTurn(events, initial);
    NaiveAcceptsAll(UpToTerminal(Own(events, initial)), initial);
    var scoped := Replayed(events, initial, Scoped).value;
    assert scoped.acceptedEvents == scoped.(ignoredEvents := initial.ignoredEvents).acceptedEvents;
  }

  lemma {:induction false} ReplayKeepsIdentity(events: seq<Event>, initial: RunState, mode: ReducerMode)
    requires Replayed(events, initial, mode).Ok?
    ensures var s := Replayed(events, initial, mode).value;
            s.activeRunId == initial.activeRunId && s.activeTurnId == initial.activeTurnId
    decreases |events|
  {
    if events != [] {
      ReplayKeepsIdentity(events[..|events| - 1], initial, mode);
    }
  }

  /** Two streams with the same own events give the same turn state, whatever else is on them. */
  lemma ForeignEventsDoNotInterfere(a: seq<Event>, b: seq<Event>, initial: RunState)
    requires !initial.terminal && Own(a, initial) == Own(b, initial)
    ensures var x, y := Replayed(a, initial, Scoped), Replayed(b, initial, Scoped);
            && (x.Ok? <==> y.Ok?)
            && (x.Ok? ==> x.value.(ignoredEvents := []) == y.value.(ignoredEvents := []))
  {
    ScopedIsNaiveOnOwnTurn(a, initial);
    ScopedIsNaiveOnOwnTurn(b, initial);
    var x, y := Replayed(a, initial, Scoped), Replayed(b, initial, Scoped);
    if x.Ok? {
      assert x.value.(ignoredEvents := []) == x.value.(ignoredEvents := initial.ignoredEvents).(ignoredEvents := []);
      assert y.value.(ignoredEvents := []) == y.value.(ignoredEvents := initial.ignoredEvents).(ignoredEvents := []);
    }
  }

  // ----- what a replayed state says -----

  /** The event gives the turn its output: all but a completion without one of its own do. */
  predicate Speaks(e: Event) {
    e.kind != Completed || e.payload != ""
  }

  predicate LastSpeaking(events: seq<Event>, i: int) {
    0 <= i < |events| && Speaks(events[i]) && forall k | i < k < |events| :: !Speaks(events[k])
  }

  predicate LastTerminal(events: seq<Event>, i: int) {
    0 <= i < |events| && events[i].Terminal() && forall k | i < k < |events| :: !events[k].Terminal()
  }

  ghost predicate ReportsOutput(s: RunState, events: seq<Event>, initial: RunState) {
    && (forall i | LastSpeaking(events, i) :: s.output == events[i].payload)
    && ((forall e | e in events :: !Speaks(e)) ==> s.output == initial.output)
  }

  ghost predicate ReportsOutcome(s: RunState, events: seq<Event>, initial: RunState) {
    && (forall i | LastTerminal(events, i) ::
          s.terminalKind == Some(events[i].kind) && s.terminalPayload == events[i].payload)
    && ((forall e | e in events :: e.kind == Output) ==>
          s.terminalKind == initial.terminalKind && s.terminalPayload == initial.terminalPayload)
  }

  ghost predicate ReportsFlags(s: RunState, events: seq<Event>, initial: RunState) {
    && (s.failed <==> initial.failed || exists e :: e in events && e.kind == Failed)
    && (s.terminal <==> initial.terminal || exists e :: e in events && (e.kind == Completed || e.kind == Failed))
  }

  /** The state of the turn after accepting `events` one after the other. */
  ghost predicate Reports(s: RunState, events: seq<Event>, initial: RunState) {
    && s.activeRunId == initial.activeRunId && s.activeTurnId == initial.activeTurnId
    && ReportsOutput(s, events, initial) && ReportsOutcome(s, events, initial) && ReportsFlags(s, events, initial)
    && s.acceptedEvents == initial.acceptedEvents + SequencesOf(events)
  }

  lemma LastOneMore(init: seq<Event>, e: Event, i: int)
    ensures LastSpeaking(init + [e], i) <==> if Speaks(e) then i == |init| else LastSpeaking(init, i)
    ensures LastTerminal(init + [e], i) <==> if e.Terminal() then i == |init| else LastTerminal(init, i)
  {
    var events := init + [e];
    assert forall k | 0 <= k < |init| :: events[k] == init[k];
    assert events[|init|] == e;
  }

  lemma LastInRange(events: seq<Event>)
    ensures forall i | LastSpeaking(events, i) :: 0 <= i < |events|
    ensures forall i | LastTerminal(events, i) :: 0 <= i < |events|
  {
  }

  lemma OutputOneMore(s: RunState, init: seq<Event>, e: Event, initial: RunState)
    requires ReportsOutput(s, init, initial)
    ensures ReportsOutput(ApplyEvent(s, e, Naive).value, init + [e], initial)
  {
    hide LastSpeaking;
    var events := init + [e];
    LastInRange(events);
    LastInRange(init);
    forall i | LastSpeaking(events, i) ensures ApplyEvent(s, e, Naive).value.output == events[i].payload {
      LastOneMore(init, e, i);
    }
    if forall x | x in events :: !Speaks(x) {
      assert e in events && forall x | x in init :: x in events;
    }
  }

  lemma OutcomeOneMore(s: RunState, init: seq<Event>, e: Event, initial: RunState)
    requires ReportsOutcome(s, init, initial)
    ensures ReportsOutcome(ApplyEvent(s, e, Naive).value, init + [e], initial)
  {
    hide LastTerminal;
    var events, s' := init + [e], ApplyEvent(s, e, Naive).value;
    LastInRange(events);
    LastInRange(init);
    forall i | LastTerminal(events, i)
      ensures s'.terminalKind == Some(events[i].kind) && s'.terminalPayload == events[i].payload
    {
      LastOneMore(init, e, i);
    }
    if forall x | x in events :: x.kind == Output {
      assert e in events && forall x | x in init :: x in events;
    }
  }

  lemma FlagsOneMore(s: RunState, init: seq<Event>, e: Event, initial: RunState)
    requires ReportsFlags(s, init, initial)
    ensures ReportsFlags(ApplyEvent(s, e, Naive).value, init + [e], initial)
  {
    assert e in init + [e] && forall x :: x in init + [e] <==> x in init || x == e;
  }

  /** Naive replay: the last event with an output gives it, any failure fails the turn, the last end is kept. */
  lemma {:induction false} NaiveReports(events: seq<Event>, initial: RunState)
    ensures Replayed(events, initial, Naive).Ok?
    ensures Reports(Replayed(events, initial, Naive).value, events, initial)
    decreases |events|
  {
    NaiveAcceptsAll(events, initial);
    ReplayKeepsIdentity(events, initial, Naive);
    if events != [] {
      hide ReportsOutput, ReportsOutcome, ReportsFlags, ApplyEvent, Replayed;
      var init, e := events[..|events| - 1], events[|events| - 1];
      assert events == init + [e];
      NaiveReports(init, initial);
      OneMoreReplayed(init, e, initial, Naive);
      var s := Replayed(init, initial, Naive).value;
      OutputOneMore(s, init, e, initial);
      OutcomeOneMore(s, init, e, initial);
      FlagsOneMore(s, init, e, initial);
    }
  }

  /** Scoped replay: the same of the turn's own events up to its first terminal one. */
  lemma ScopedReports(events: seq<Event>, initial: RunState)
    requires !initial.terminal && Replayed(events, initial, Scoped).Ok?
    ensures Reports(Replayed(events, initial, Scoped).value, UpToTerminal(Own(events, initial)), initial)
  {
    hide Replayed, Own, UpToTerminal, ReportsOutput, ReportsOutcome, ReportsFlags, Orderly;
    var own := UpToTerminal(Own(events, initial));
    ScopedIsNaiveOnOwnTurn(events, initial);
    NaiveReports(own, initial);
    var scoped, naive := Replayed(events, initial, Scoped).value, Replayed(own, initial, Naive).value;
    assert scoped.(ignoredEvents := initial.ignoredEvents) == naive;
    IgnoredIsNotReported(scoped, initial.ignoredEvents, own, initial);
  }

  lemma IgnoredIsNotReported(s: RunState, ignored: seq<int>, events: seq<Event>, initial: RunState)
    ensures Reports(s.(ignoredEvents := ignored), events, initial) <==> Reports(s, events, initial)
  {
    hide LastSpeaking, LastTerminal;
  }

  /** The events that scoped replay does not take: foreign ones, and repetitions of the terminal one. */
  function Passed(events: seq<Event>, initial: RunState): seq<Event> {
    if events == [] then []
    else
      var init, e := events[..|events| - 1], events[|events| - 1];
      Passed(init, initial)
      + (if !BelongsToActiveTurn(initial, e) || FirstTerminal(Own(init, initial)).Some? then [e] else [])
  }

  lemma IgnoredOneMore(s: RunState, e: Event, ended: bool)
    requires s.terminal <==> ended
    requires ApplyEvent(s, e, Scoped).Ok?
    ensures ApplyEvent(s, e, Scoped).value.ignoredEvents
            == s.ignoredEvents + (if !BelongsToActiveTurn(s, e) || ended then [e.sequence] else [])
  {
  }

  lemma PassedOneMore(init: seq<Event>, e: Event, initial: RunState)
    ensures SequencesOf(Passed(init + [e], initial)) == SequencesOf(Passed(init, initial))
              + (if !BelongsToActiveTurn(initial, e) || FirstTerminal(Own(init, initial)).Some? then [e.sequence]
                  else [])
  {
    hide BelongsToActiveTurn, FirstTerminal, Own;
    assert (init + [e])[..|init|] == init;
    var passes := !BelongsToActiveTurn(initial, e) || FirstTerminal(Own(init, initial)).Some?;
    assert Passed(init + [e], initial) == Passed(init, initial) + (if passes then [e] else []);
  }

  lemma {:induction false} ScopedIgnores(events: seq<Event>, initial: RunState)
    requires !initial.terminal && Replayed(events, initial, Scoped).Ok?
    ensures Replayed(events, initial, Scoped).value.ignoredEvents
        == initial.ignoredEvents + SequencesOf(Passed(events, initial))
    decreases |events|
  {
    if events != [] {
      hide Replayed, ApplyEvent, Own, UpToTerminal, FirstTerminal, Orderly, Passed, SequencesOf;
      var init, e := events[..|events| - 1], events[|events| - 1];
      assert events == init + [e];
      OneMoreReplayed(init, e, initial, Scoped);
      ScopedIgnores(init, initial);
      ReplayKeepsIdentity(init, initial, Scoped);
      ScopedIsNaiveOnOwnTurn(init, initial);
      IgnoredOneMore(Replayed(init, initial, Scoped).value, e, FirstTerminal(Own(init, initial)).Some?);
      PassedOneMore(init, e, initial);
    }
  }

  /** Only an incompatible terminal outcome refuses a replay. */
  lemma {:induction false} OnlyConflictsRefuse(events: seq<Event>, initial: RunState, mode: ReducerMode)
    ensures Replayed(events, initial, mode).Err? ==> Replayed(events, initial, mode) == Err(TerminalStateConflict)
    decreases |events|
  {
    if events != [] {
      OnlyConflictsRefuse(events[..|events| - 1], initial, mode);
    }
  }

  lemma EventIsFiled(state: RunState, e: Event, mode: ReducerMode)
    requires ApplyEvent(state, e, mode).Ok?
    ensures var s := ApplyEvent(state, e, mode).value;
            multiset(s.acceptedEvents) + multiset(s.ignoredEvents)
            == multiset(state.acceptedEvents) + multiset(state.ignoredEvents) + multiset{e.sequence}
  {
  }

  /** Every event is accepted or ignored, once. */
  lemma {:induction false} EventsArePartitioned(events: seq<Event>, initial: RunState, mode: ReducerMode)
    requires Replayed(events, initial, mode).Ok?
    ensures var s := Replayed(events, initial, mode).value;
            multiset(s.acceptedEvents) + multiset(s.ignoredEvents)
            == multiset(initial.acceptedEvents) + multiset(initial.ignoredEvents) + multiset(SequencesOf(events))
    decreases |events|
  {
    if events != [] {
      hide ApplyEvent, Replayed;
      var init, last := events[..|events| - 1], events[|events| - 1];
      assert events == init + [last];
      OneMoreReplayed(init, last, initial, mode);
      EventsArePartitioned(init, initial, mode);
      EventIsFiled(Replayed(init, initial, mode).value, last, mode);
      assert SequencesOf(events) == SequencesOf(init) + [last.sequence];
    } else {
      assert SequencesOf(events) == [];
    }
  }
}
