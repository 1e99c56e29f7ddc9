/** Deterministic replay of an approval lifecycle with exact operation binding. */
module Approvals {
  import opened Common

  datatype ApprovalAction = Requested | Approved | Denied | Execute

  datatype ApprovalEvent = ApprovalEvent(
    sequence: int, action: ApprovalAction, operationId: string, tool: string, payload: string)
  {
    function Identity(): (string, string) { (tool, payload) }

    predicate Decides() { action == Approved || action == Denied }
  }

  datatype ApprovalReplayResult = ApprovalReplayResult(
    executed: seq<string>, approved: seq<string>, denied: seq<string>)

  /** The raises of one event. */
  datatype ApprovalError =
    | ConflictChangedAfterRequest
    | ConflictNoRequest
    | ConflictBinding
    | ConflictDecisionChanged
    | ApprovalRequired
    | ApprovalDenied

  datatype ReplayError = OrderInvalid | Refused(cause: ApprovalError)

  /** The dictionaries of the replay. `decided` lists the keys of `decisions` in insertion order,
      which is the order Python iterates them in. */
  datatype Ledger = Ledger(
    requests: map<string, (string, string)>,
    decisions: map<string, ApprovalAction>,
    decided: seq<string>,
    executed: seq<string>)

  const EMPTY := Ledger(map[], map[], [], [])

  function Handle(l: Ledger, e: ApprovalEvent): Result<Ledger, ApprovalError> {
    var id := e.operationId;
    if e.action == Requested then
      if id !in l.requests then Ok(l.(requests := l.requests[id := e.Identity()]))
      else if l.requests[id] != e.Identity() then Err(ConflictChangedAfterRequest)
      else Ok(l)
    else if id !in l.requests then Err(ConflictNoRequest)
    else if l.requests[id] != e.Identity() then Err(ConflictBinding)
    else if e.Decides() then
      if id in l.decisions && l.decisions[id] != e.action then Err(ConflictDecisionChanged)
      else Ok(l.(decisions := l.decisions[id := e.action],
                 decided := if id in l.decisions then l.decided else l.decided + [id]))
    else if id !in l.decisions then Err(ApprovalRequired)
    else if l.decisions[id] == Denied then Err(ApprovalDenied)
    else if id in l.executed then Ok(l)
    else Ok(l.(executed := l.executed + [id]))
  }

  function Replayed(events: seq<ApprovalEvent>): Result<Ledger, ApprovalError> {
    if events == [] then Ok(EMPTY)
    else match Replayed(events[..|events| - 1])
      case Err(e) => Err(e)
      case Ok(l) => Handle(l, events[|events| - 1])
  }

  function SequencesOf(events: seq<ApprovalEvent>): seq<int> {
    seq(|events|, i requires 0 <= i < |events| => events[i].sequence)
  }

  function DecidedAs(decided: seq<string>, decisions: map<string, ApprovalAction>,
      action: ApprovalAction): seq<string> {
    if decided == [] then []
    else
      var id := decided[|decided| - 1];
      DecidedAs(decided[..|decided| - 1], decisions, action)
      + (if id in decisions && decisions[id] == action then [id] else [])
  }

  function Projection(l: Ledger): ApprovalReplayResult {
    ApprovalReplayResult(l.executed, DecidedAs(l.decided, l.decisions, Approved),
        DecidedAs(l.decided, l.decisions, Denied))
  }

  /** The first failing event decides the error, so a prefix that fails makes the whole replay fail. */
  lemma {:induction false} FailureIsFinal(events: seq<ApprovalEvent>, n: nat)
    requires n <= |events| && Replayed(events[..n]).Err?
    ensures Replayed(events) == Replayed(events[..n])
    decreases |events| - n
  {
    if n == |events| {
      assert events[..n] == events;
    } else {
      assert events[..n + 1][..n] == events[..n];
      FailureIsFinal(events, n + 1);
    }
  }

  method CollectDecided(decided: seq<string>, decisions: map<string, ApprovalAction>, action: ApprovalAction)
    returns (ids: seq<string>)
    ensures ids == DecidedAs(decided, decisions, action)
  {
    ids := [];
    for i := 0 to |decided|
      invariant ids == DecidedAs(decided[..i], decisions, action)
    {
      assert decided[..i + 1][..i] == decided[..i];
      if decided[i] in decisions && decisions[decided[i]] == action {
        ids := ids + [decided[i]];
      }
    }
    assert decided[..|decided|] == decided;
  }

  method ReplayApproval(events: seq<ApprovalEvent>) returns (r: Result<ApprovalReplayResult, ReplayError>)
    ensures r == if !InOrder(SequencesOf(events)) then Err(OrderInvalid)
                 else if Replayed(events).Err? then Err(Refused(Replayed(events).error))
                 else Ok(Projection(Replayed(events).value))
  {
    if !InOrder(SequencesOf(events)) {
      return Err(OrderInvalid);
    }
    var requests: map<string, (string, string)> := map[];
    var decisions: map<string, ApprovalAction> := map[];
    var decided: seq<string> := [];
    var executed: seq<string> := [];
    for i := 0 to |events|
      invariant Replayed(events[..i]) == Ok(Ledger(requests, decisions, decided, executed))
    {
      var event := events[i];
      var id := event.operationId;
      assert events[..i + 1][..i] == events[..i];
      if Replayed(events[..i + 1]).Err? { FailureIsFinal(events, i + 1); }
      if event.action == Requested {
        if id !in requests {
          requests := requests[id := event.Identity()];
        } else if requests[id] != event.Identity() {
          return Err(Refused(ConflictChangedAfterRequest));
        }
        continue;
      }
      if id !in requests {
        return Err(Refused(ConflictNoRequest));
      }
      if requests[id] != event.Identity() {
        return Err(Refused(ConflictBinding));
      }
      if event.action == Approved || event.action == Denied {
        if id in decisions && decisions[id] != event.action {
          return Err(Refused(ConflictDecisionChanged));
        }
        if id !in decisions {
          decided := decided + [id];
        }
        decisions := decisions[id := event.action];
        continue;
      }
      if id !in decisions {
        return Err(Refused(ApprovalRequired));
      }
      if decisions[id] == Denied {
        return Err(Refused(ApprovalDenied));
      }
      if id !in executed {
        executed := executed + [id];
      }
    }
    assert events[..|events|] == events;
    var approved := CollectDecided(decided, decisions, Approved);
    var denied := CollectDecided(decided, decisions, Denied);
    r := Ok(ApprovalReplayResult(executed, approved, denied));
  }

  // ----- exactly which histories replay -----

  /** An approval or a denial, or an execution, of an operation follows its request; every event of
      an operation names the one requested effect; all its decisions agree; and each execution
      follows an approval. */
  ghost predicate Lawful(events: seq<ApprovalEvent>) {
    && (forall i, j | 0 <= i < j < |events| :: Compatible(events[i], events[j]))
    && (forall i | 0 <= i < |events| && events[i].action != Requested :: Preceded(events, i, Requested))
    && (forall i | 0 <= i < |events| && events[i].action == Execute :: Preceded(events, i, Approved))
  }

  /** Two events of one operation name one effect, and do not decide differently. */
  predicate Compatible(a: ApprovalEvent, b: ApprovalEvent) {
    a.operationId == b.operationId ==>
      a.Identity() == b.Identity() && (a.Decides() && b.Decides() ==> a.action == b.action)
  }

  ghost predicate Preceded(events: seq<ApprovalEvent>, i: nat, action: ApprovalAction)
    requires i < |events|
  {
    exists j :: 0 <= j < i && Is(events[j], events[i].operationId, action)
  }

  predicate Is(e: ApprovalEvent, id: string, action: ApprovalAction) {
    e.operationId == id && e.action == action
  }

  ghost predicate Occurs(events: seq<ApprovalEvent>, id: string, action: ApprovalAction) {
    exists j :: 0 <= j < |events| && Is(events[j], id, action)
  }

  /** What a ledger says is what happened. */
  ghost predicate Faithful(l: Ledger, events: seq<ApprovalEvent>) {
    FaithfulRequests(l, events) && FaithfulDecisions(l, events) && FaithfulExecutions(l, events)
  }

  ghost predicate FaithfulRequests(l: Ledger, events: seq<ApprovalEvent>) {
    && (forall id :: id in l.requests <==> Occurs(events, id, Requested))
    && (forall j | 0 <= j < |events| ::
          events[j].operationId in l.requests && l.requests[events[j].operationId] == events[j].Identity())
  }

  ghost predicate FaithfulDecisions(l: Ledger, events: seq<ApprovalEvent>) {
    && (forall id :: id in l.decisions <==> Occurs(events, id, Approved) || Occurs(events, id, Denied))
    && (forall id | id in l.decisions :: l.decisions[id] == Approved || l.decisions[id] == Denied)
    && (forall j | 0 <= j < |events| && events[j].Decides() ::
          events[j].operationId in l.decisions && l.decisions[events[j].operationId] == events[j].action)
    && Distinct(l.decided)
    && (forall id :: id in l.decided <==> id in l.decisions)
  }

  ghost predicate FaithfulExecutions(l: Ledger, events: seq<ApprovalEvent>) {
    && (forall id :: id in l.executed <==> Occurs(events, id, Execute))
    && (forall id | id in l.executed :: id in l.decisions && l.decisions[id] == Approved)
    && Distinct(l.executed)
  }

  lemma OccursInit(events: seq<ApprovalEvent>, id: string, action: ApprovalAction)
    requires events != []
    ensures Occurs(events, id, action) <==>
            Occurs(events[..|events| - 1], id, action) || Is(events[|events| - 1], id, action)
  {
    var init, n := events[..|events| - 1], |events| - 1;
    if Occurs(init, id, action) {
      var j :| 0 <= j < |init| && Is(init[j], id, action);
      assert Is(events[j], id, action);
    }
    if Occurs(events, id, action) {
      var j :| 0 <= j < |events| && Is(events[j], id, action);
      if j < n { assert Is(init[j], id, action); }
    }
  }

  lemma LawfulInit(events: seq<ApprovalEvent>)
    requires events != [] && Lawful(events)
    ensures Lawful(events[..|events| - 1])
  {
    var init := events[..|events| - 1];
    forall i, action | 0 <= i < |init| && Preceded(events, i, action) ensures Preceded(init, i, action) {
      var j :| 0 <= j < i && Is(events[j], events[i].operationId, action);
      assert Is(init[j], init[i].operationId, action);
    }
  }

  /** What lawfulness asks of one more event. */
  ghost predicate Fits(init: seq<ApprovalEvent>, e: ApprovalEvent) {
    && (forall j | 0 <= j < |init| :: Compatible(init[j], e))
    && (e.action != Requested ==> Occurs(init, e.operationId, Requested))
    && (e.action == Execute ==> Occurs(init, e.operationId, Approved))
  }

  lemma LawfulLast(events: seq<ApprovalEvent>)
    requires events != [] && Lawful(events)
    ensures Fits(events[..|events| - 1], events[|events| - 1])
  {
    var init, e, n := events[..|events| - 1], events[|events| - 1], |events| - 1;
    forall action | Preceded(events, n, action) ensures Occurs(init, e.operationId, action) {
      var j :| 0 <= j < n && Is(events[j], e.operationId, action);
      assert Is(init[j], e.operationId, action);
    }
    forall j | 0 <= j < |init| ensures init[j] == events[j] {}
    assert e.action != Requested ==> Preceded(events, n, Requested);
    assert e.action == Execute ==> Preceded(events, n, Approved);
  }

  lemma LawfulExtends(events: seq<ApprovalEvent>)
    requires events != [] && Lawful(events[..|events| - 1])
    requires Fits(events[..|events| - 1], events[|events| - 1])
    ensures Lawful(events)
  {
    hide Compatible;
    var e, init, n := events[|events| - 1], events[..|events| - 1], |events| - 1;
    forall i, action | 0 <= i < n && Preceded(init, i, action) ensures Preceded(events, i, action) {
      var j :| 0 <= j < i && Is(init[j], init[i].operationId, action);
      assert Is(events[j], events[i].operationId, action);
    }
    forall action | Occurs(init, e.operationId, action) ensures Preceded(events, n, action) {
      var j :| 0 <= j < n && Is(init[j], e.operationId, action);
      assert Is(events[j], events[n].operationId, action);
    }
    forall i, j | 0 <= i < j < |events| ensures Compatible(events[i], events[j]) {
      assert events[i] == init[i];
      if j < n { assert events[j] == init[j]; }
    }
  }

  /** A replay succeeds exactly on the lawful histories, and its ledger then says exactly which
      operations were requested, how each was decided, and which were executed. */
  lemma {:induction false} ReplayIffLawful(events: seq<ApprovalEvent>)
    ensures Replayed(events).Ok? <==> Lawful(events)
    ensures Replayed(events).Ok? ==> Faithful(Replayed(events).value, events)
    decreases |events|
  {
    if events != [] {
      var init := events[..|events| - 1];
      ReplayIffLawful(init);
      if Lawful(events) { LawfulInit(events); }
      if Replayed(init).Ok? {
        LastEvent(events, Replayed(init).value);
      }
    }
  }

  lemma LastEvent(events: seq<ApprovalEvent>, l: Ledger)
    requires events != []
    requires var init := events[..|events| - 1]; Lawful(init) && Faithful(l, init)
    ensures var r := Handle(l, events[|events| - 1]);
            (r.Ok? <==> Lawful(events)) && (r.Ok? ==> Faithful(r.value, events))
  {
    hide Lawful, Fits, Handle, Faithful;
    var init, e := events[..|events| - 1], events[|events| - 1];
    HandledIffFits(init, e, l);
    if Lawful(events) { LawfulLast(events); }
    if Fits(init, e) { LawfulExtends(events); }
    if Handle(l, e).Ok? {
      assert init + [e] == events;
      HandledIsFaithful(events, l);
    }
  }

  lemma HandledIffFits(init: seq<ApprovalEvent>, e: ApprovalEvent, l: Ledger)
    requires Faithful(l, init)
    ensures Handle(l, e).Ok? <==> Fits(init, e)
  {
    if Fits(init, e) {
      FittingIsHandled(init, e, l);
    }
    if Handle(l, e).Ok? && e.action == Execute {
      assert l.decisions[e.operationId] == Approved;
      assert !Occurs(init, e.operationId, Denied) by {
        forall j | 0 <= j < |init| && init[j].operationId == e.operationId ensures !Is(init[j], e.operationId, Denied) {
          assert init[j].Decides() ==> init[j].action == Approved;
        }
      }
    }
  }

  lemma FittingIsHandled(init: seq<ApprovalEvent>, e: ApprovalEvent, l: Ledger)
    requires Faithful(l, init) && Fits(init, e)
    ensures Handle(l, e).Ok?
  {
    var id := e.operationId;
    if id in l.requests {
      var j :| 0 <= j < |init| && Is(init[j], id, Requested);
      assert init[j].Identity() == e.Identity();
    }
    if e.Decides() && id in l.decisions {
      var j := if Occurs(init, id, Approved)
               then var j :| 0 <= j < |init| && Is(init[j], id, Approved); j
               else var j :| 0 <= j < |init| && Is(init[j], id, Denied); j;
      assert init[j].Decides();
    }
    if e.action == Execute {
      var j :| 0 <= j < |init| && Is(init[j], id, Approved);
      assert init[j].Decides();
    }
  }

  /** One more event occurred. */
  ghost predicate OneMore(events: seq<ApprovalEvent>, init: seq<ApprovalEvent>, e: ApprovalEvent) {
    && (forall j | 0 <= j < |events| :: events[j] == if j < |init| then init[j] else e)
    && (forall id, action :: Occurs(events, id, action) <==> Occurs(init, id, action) || Is(e, id, action))
  }

  lemma HandledIsFaithful(events: seq<ApprovalEvent>, l: Ledger)
    requires events != []
    requires Faithful(l, events[..|events| - 1])
    requires Handle(l, events[|events| - 1]).Ok?
    ensures Faithful(Handle(l, events[|events| - 1]).value, events)
  {
    hide Handle, FaithfulRequests, FaithfulDecisions, FaithfulExecutions;
    var init, e := events[..|events| - 1], events[|events| - 1];
    forall id, action ensures Occurs(events, id, action) <==> Occurs(init, id, action) || Is(e, id, action) {
      OccursInit(events, id, action);
    }
    RequestsStayFaithful(events, init, e, l);
    DecisionsStayFaithful(events, init, e, l);
    ExecutionsStayFaithful(events, init, e, l);
  }

  lemma RequestsStayFaithful(events: seq<ApprovalEvent>, init: seq<ApprovalEvent>, e: ApprovalEvent, l: Ledger)
    requires OneMore(events, init, e) && FaithfulRequests(l, init) && Handle(l, e).Ok?
    ensures FaithfulRequests(Handle(l, e).value, events)
  {
    hide Occurs;
  }

  lemma HandledDecision(e: ApprovalEvent, l: Ledger)
    requires Handle(l, e).Ok?
    ensures var l', id := Handle(l, e).value, e.operationId;
            if e.Decides() then
              && (id in l.decisions ==> l.decisions[id] == e.action)
              && l'.decisions == l.decisions[id := e.action]
              && l'.decided == if id in l.decisions then l.decided else l.decided + [id]
            else l'.decisions == l.decisions && l'.decided == l.decided
  {
  }

  lemma DecisionsStayFaithful(events: seq<ApprovalEvent>, init: seq<ApprovalEvent>, e: ApprovalEvent, l: Ledger)
    requires OneMore(events, init, e) && FaithfulDecisions(l, init) && Handle(l, e).Ok?
    ensures FaithfulDecisions(Handle(l, e).value, events)
  {
    hide Occurs, Handle;
    HandledDecision(e, l);
  }

  lemma ExecutionsStayFaithful(events: seq<ApprovalEvent>, init: seq<ApprovalEvent>, e: ApprovalEvent, l: Ledger)
    requires OneMore(events, init, e) && FaithfulExecutions(l, init) && FaithfulDecisions(l, init) && Handle(l, e).Ok?
    ensures FaithfulExecutions(Handle(l, e).value, events)
  {
    hide Occurs;
  }

  lemma {:induction false} DecidedAsMembers(decided: seq<string>, decisions: map<string, ApprovalAction>,
      action: ApprovalAction)
    requires Distinct(decided)
    ensures forall id ::
      id in DecidedAs(decided, decisions, action) <==> id in decided && id in decisions && decisions[id] == action
    ensures Distinct(DecidedAs(decided, decisions, action))
    decreases |decided|
  {
    if decided != [] {
      var init, last := decided[..|decided| - 1], decided[|decided| - 1];
      assert decided == init + [last];
      forall i, j | 0 <= i < j < |init| ensures init[i] != init[j] {
        assert decided[i] != decided[j];
      }
      forall x | x in init ensures x != last {
        var i :| 0 <= i < |init| && init[i] == x;
        assert decided[i] != decided[|init|];
      }
      DecidedAsMembers(init, decisions, action);
    }
  }

  /** The returned tuples list, each once, exactly the operations that were executed, approved and denied;
      what was executed was approved, and nothing was both approved and denied. */
  lemma ResultSaysWhatHappened(events: seq<ApprovalEvent>)
    requires Replayed(events).Ok?
    ensures var r := Projection(Replayed(events).value);
            && (forall id :: id in r.executed <==> Occurs(events, id, Execute))
            && (forall id :: id in r.approved <==> Occurs(events, id, Approved))
            && (forall id :: id in r.denied <==> Occurs(events, id, Denied))
            && Distinct(r.executed) && Distinct(r.approved) && Distinct(r.denied)
            && (forall id | id in r.executed :: id in r.approved)
            && (forall id | id in r.approved :: id !in r.denied)
  {
    ReplayIffLawful(events);
    var l := Replayed(events).value;
    DecidedAsMembers(l.decided, l.decisions, Approved);
    DecidedAsMembers(l.decided, l.decisions, Denied);
    hide Lawful, Replayed;
    forall id ensures Occurs(events, id, Approved) <==> id in l.decisions && l.decisions[id] == Approved {
      DecisionOccurred(events, l, id, Approved);
    }
    forall id ensures Occurs(events, id, Denied) <==> id in l.decisions && l.decisions[id] == Denied {
      DecisionOccurred(events, l, id, Denied);
    }
  }

  lemma DecisionOccurred(events: seq<ApprovalEvent>, l: Ledger, id: string, action: ApprovalAction)
    requires FaithfulDecisions(l, events) && (action == Approved || action == Denied)
    ensures Occurs(events, id, action) <==> id in l.decisions && l.decisions[id] == action
  {
    if Occurs(events, id, action) {
      var j :| 0 <= j < |events| && Is(events[j], id, action);
    } else if id in l.decisions && l.decisions[id] == action {
      var other := if action == Approved then Denied else Approved;
      assert Occurs(events, id, other);
      var j :| 0 <= j < |events| && Is(events[j], id, other);
      assert events[j].Decides();
    }
  }

  // ----- the order of the lists -----

  /** The operations with such an event, in the order of their first one. */
  ghost function FirstIds(events: seq<ApprovalEvent>, action: ApprovalAction): seq<string>
    decreases |events|
  {
    if events == [] then []
    else
      var init, e := events[..|events| - 1], events[|events| - 1];
      FirstIds(init, action) + (if e.action == action && !Occurs(init, e.operationId, action) then [e.operationId]
          else [])
  }

  lemma {:induction false} OtherDecisionsDoNotCount(decided: seq<string>, decisions: map<string, ApprovalAction>,
      id: string,
      action: ApprovalAction, wanted: ApprovalAction)
    requires id !in decided
    ensures DecidedAs(decided, decisions[id := action], wanted) == DecidedAs(decided, decisions, wanted)
    decreases |decided|
  {
    if decided != [] {
      var init, last := decided[..|decided| - 1], decided[|decided| - 1];
      assert last in decided && forall x | x in init :: x in decided;
      OtherDecisionsDoNotCount(init, decisions, id, action, wanted);
    }
  }

  lemma DecidedOneMore(l: Ledger, e: ApprovalEvent, wanted: ApprovalAction)
    requires Handle(l, e).Ok? && (forall id :: id in l.decided <==> id in l.decisions)
    requires wanted == Approved || wanted == Denied
    ensures var l' := Handle(l, e).value;
            DecidedAs(l'.decided, l'.decisions, wanted) == DecidedAs(l.decided, l.decisions, wanted)
              + (if e.action == wanted && e.operationId !in l.decisions then [e.operationId] else [])
  {
    hide Handle;
    HandledDecision(e, l);
    var l', id := Handle(l, e).value, e.operationId;
    if e.Decides() && id !in l.decisions {
      assert l'.decided[..|l'.decided| - 1] == l.decided;
      OtherDecisionsDoNotCount(l.decided, l.decisions, id, e.action, wanted);
    } else if e.Decides() {
      assert l'.decisions == l.decisions;
    }
  }

  lemma HandledExecution(l: Ledger, e: ApprovalEvent)
    requires Handle(l, e).Ok?
    ensures Handle(l, e).value.executed
            == l.executed + (if e.action == Execute && e.operationId !in l.executed then [e.operationId] else [])
  {
  }

  /** Each of the three returned tuples lists its operations in the order of their first execution or decision. */
  lemma {:induction false} ResultIsInOrder(events: seq<ApprovalEvent>)
    requires Replayed(events).Ok?
    ensures var r := Projection(Replayed(events).value);
            && r.executed == FirstIds(events, Execute)
            && r.approved == FirstIds(events, Approved)
            && r.denied == FirstIds(events, Denied)
    decreases |events|
  {
    if events != [] {
      var init, e := events[..|events| - 1], events[|events| - 1];
      ResultIsInOrder(init);
      ReplayIffLawful(init);
      var l := Replayed(init).value;
      hide Lawful, Handle, DecidedAs;
      HandledExecution(l, e);
      DecidedOneMore(l, e, Approved);
      DecidedOneMore(l, e, Denied);
      DecisionOccurred(init, l, e.operationId, Approved);
      DecisionOccurred(init, l, e.operationId, Denied);
      if e.Decides() && e.operationId in l.decisions {
        AgreesWithDecision(l, e);
      }
    }
  }

  lemma AgreesWithDecision(l: Ledger, e: ApprovalEvent)
    requires Handle(l, e).Ok? && e.Decides() && e.operationId in l.decisions
    ensures l.decisions[e.operationId] == e.action
  {
  }

  // ----- which refusal an event meets -----

  /** An earlier event of the operation names another effect. */
  ghost predicate NamesOther(init: seq<ApprovalEvent>, e: ApprovalEvent) {
    exists j :: 0 <= j < |init| && init[j].operationId == e.operationId && init[j].Identity() != e.Identity()
  }

  lemma RefusalsAreExact(init: seq<ApprovalEvent>, e: ApprovalEvent)
    requires Replayed(init).Ok?
    ensures var r, id := Replayed(init + [e]), e.operationId;
            var bound := Occurs(init, id, Requested) && !NamesOther(init, e);
            && (r == Err(ConflictChangedAfterRequest) <==> e.action == Requested && NamesOther(init, e))
            && (r == Err(ConflictNoRequest) <==> e.action != Requested && !Occurs(init, id, Requested))
            && (r == Err(ConflictBinding)
                <==> e.action != Requested && Occurs(init, id, Requested) && NamesOther(init, e))
            && (r == Err(ConflictDecisionChanged) <==>
                  && bound
                  && ((e.action == Approved && Occurs(init, id, Denied))
                      || (e.action == Denied && Occurs(init, id, Approved))))
            && (r == Err(ApprovalRequired) <==>
                  bound && e.action == Execute && !Occurs(init, id, Approved) && !Occurs(init, id, Denied))
            && (r == Err(ApprovalDenied) <==> bound && e.action == Execute && Occurs(init, id, Denied))
  {
    var l, id := Replayed(init).value, e.operationId;
    assert (init + [e])[..|init|] == init;
    assert Replayed(init + [e]) == Handle(l, e);
    ReplayIffLawful(init);
    RequestsTell(init, l, e);
    DecisionOccurred(init, l, id, Approved);
    DecisionOccurred(init, l, id, Denied);
    DecisionsAreTwo(init, l, id);
    HandleRefusals(l, e);
    hide Handle, Lawful, Replayed, Occurs, NamesOther, Faithful;
  }

  lemma HandleRefusals(l: Ledger, e: ApprovalEvent)
    requires e.operationId in l.decisions ==>
        l.decisions[e.operationId] == Approved || l.decisions[e.operationId] == Denied
    ensures var r, id := Handle(l, e), e.operationId;
            var other := id in l.requests && l.requests[id] != e.Identity();
            var bound := id in l.requests && !other;
            && (r == Err(ConflictChangedAfterRequest) <==> e.action == Requested && other)
            && (r == Err(ConflictNoRequest) <==> e.action != Requested && id !in l.requests)
            && (r == Err(ConflictBinding) <==> e.action != Requested && other)
            && (r == Err(ConflictDecisionChanged)
                <==> bound && e.Decides() && id in l.decisions && l.decisions[id] != e.action)
            && (r == Err(ApprovalRequired) <==> bound && e.action == Execute && id !in l.decisions)
            && (r == Err(ApprovalDenied)
                <==> bound && e.action == Execute && id in l.decisions && l.decisions[id] == Denied)
  {
  }

  lemma RequestsTell(init: seq<ApprovalEvent>, l: Ledger, e: ApprovalEvent)
    requires FaithfulRequests(l, init)
    ensures e.operationId in l.requests <==> Occurs(init, e.operationId, Requested)
    ensures NamesOther(init, e) <==> e.operationId in l.requests && l.requests[e.operationId] != e.Identity()
  {
    if e.operationId in l.requests {
      assert Occurs(init, e.operationId, Requested);
      var j :| 0 <= j < |init| && Is(init[j], e.operationId, Requested);
      assert l.requests[init[j].operationId] == init[j].Identity();
    }
  }

  lemma DecisionsAreTwo(init: seq<ApprovalEvent>, l: Ledger, id: string)
    requires FaithfulDecisions(l, init)
    ensures id in l.decisions ==> l.decisions[id] == Approved || l.decisions[id] == Denied
  {
    hide Occurs;
  }
}
