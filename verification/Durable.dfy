/** The transactional sandbox: approvals and one inert local effect, atomic across crashes. */
module Durable {
  import opened Common
  import Approvals

  datatype LocalOperation = LocalOperation(operationId: string, tool: string, payload: string)
  {
    /** What the constructor of a LocalOperation accepts. */
    predicate Supported() { !IsBlank(operationId) && tool == "record_note" }
  }

  datatype Verdict = Approve | Deny

  datatype Row = Row(tool: string, payload: string, decision: Option<Verdict>, completed: bool)

  datatype Tables = Tables(operations: map<string, Row>, notes: map<string, string>)

  const EMPTY := Tables(map[], map[])

  /** `IntegrityError` is what the database itself would raise for a repeated note or a note
      without its operation. */
  datatype SandboxError =
    | NotRequested
    | BoundToOtherEffect
    | DecisionReversed
    | NotDecided
    | WasDenied
    | IntegrityError

  /** Where the process running `execute` is killed, if it is. */
  datatype Stage = BeforeEffect | AfterEffect | BeforeCommit | AfterCommit

  datatype ExecuteOutcome = Returned(isNew: bool) | Raised(error: SandboxError) | Crashed

  function Existing(t: Tables, o: LocalOperation): Result<Row, SandboxError> {
    if o.operationId !in t.operations then Err(NotRequested)
    else
      var row := t.operations[o.operationId];
      if (row.tool, row.payload) != (o.tool, o.payload) then Err(BoundToOtherEffect) else Ok(row)
  }

  function RequestOutcome(t: Tables, o: LocalOperation): Result<Tables, SandboxError> {
    if o.operationId !in t.operations then
      Ok(t.(operations := t.operations[o.operationId := Row(o.tool, o.payload, None, false)]))
    else match Existing(t, o)
      case Err(e) => Err(e)
      case Ok(_) => Ok(t)
  }

  function DecideOutcome(t: Tables, o: LocalOperation, verdict: Verdict): Result<Tables, SandboxError> {
    match Existing(t, o)
    case Err(e) => Err(e)
    case Ok(row) =>
      if row.decision.Some? && row.decision.value != verdict then Err(DecisionReversed)
      else Ok(t.(operations := t.operations[o.operationId := row.(decision := Some(verdict))]))
  }

  /** What `execute` must do: a new effect and its completion appear together, and only if the
      process lived up to the commit; the caller learns of it only if it lived on. */
  function ExecuteSpec(t: Tables, o: LocalOperation, crash: Option<Stage>): (Tables, ExecuteOutcome) {
    match Existing(t, o)
    case Err(e) => (t, Raised(e))
    case Ok(row) =>
      if row.decision.None? then (t, Raised(NotDecided))
      else if row.decision.value == Deny then (t, Raised(WasDenied))
      else if row.completed then (t, Returned(false))
      else if crash == Some(BeforeEffect) then (t, Crashed)
      else if o.operationId in t.notes then (t, Raised(IntegrityError))
      else if crash == Some(AfterEffect) || crash == Some(BeforeCommit) then (t, Crashed)
      else
        (Tables(t.operations[o.operationId := row.(completed := true)], t.notes[o.operationId := o.payload]),
         if crash == Some(AfterCommit) then Crashed else Returned(true))
  }

  // ----- crash safety over every run -----

  datatype Call =
    | CallRequest(operation: LocalOperation)
    | CallDecide(operation: LocalOperation, verdict: Verdict)
    | CallExecute(operation: LocalOperation, crash: Option<Stage>)

  function Succeed(t: Tables, r: Result<Tables, SandboxError>): Tables {
    if r.Ok? then r.value else t
  }

  function After(t: Tables, call: Call): Tables {
    match call
    case CallRequest(o) => Succeed(t, RequestOutcome(t, o))
    case CallDecide(o, v) => Succeed(t, DecideOutcome(t, o, v))
    case CallExecute(o, crash) => ExecuteSpec(t, o, crash).0
  }

  function AfterAll(t: Tables, calls: seq<Call>): Tables
    decreases |calls|
  {
    if calls == [] then t else AfterAll(After(t, calls[0]), calls[1..])
  }

  predicate ReportsFresh(t: Tables, call: Call, id: string) {
    call.CallExecute? && call.operation.operationId == id
    && ExecuteSpec(t, call.operation, call.crash).1 == Returned(true)
  }

  /** How many `execute` calls of a run told their caller that the effect is new. */
  function FreshReports(t: Tables, calls: seq<Call>, id: string): nat
    decreases |calls|
  {
    if calls == [] then 0
    else (if ReportsFresh(t, calls[0], id) then 1 else 0) + FreshReports(After(t, calls[0]), calls[1..], id)
  }

  predicate Completed(t: Tables, id: string) {
    id in t.operations && t.operations[id].completed
  }

  /** A note exists exactly for the completed operations, with the bound payload, after an approval. */
  ghost predicate Consistent(t: Tables) {
    && t.notes.Keys <= t.operations.Keys
    && forall id | id in t.operations ::
         var row := t.operations[id];
         && (row.completed <==> id in t.notes)
         && (row.completed ==> t.notes[id] == row.payload && row.decision == Some(Approve))
  }

  ghost predicate Keeps(t: Tables, t': Tables) {
    && (forall id | id in t.operations ::
          && id in t'.operations
          && var row, row' := t.operations[id], t'.operations[id];
          && (row'.tool, row'.payload) == (row.tool, row.payload)
          && (row.decision.Some? ==> row'.decision == row.decision)
          && (row.completed ==> row'.completed))
    && (forall id | id in t.notes :: id in t'.notes && t'.notes[id] == t.notes[id])
  }

  lemma RequestIsConsistent(t: Tables, o: LocalOperation)
    requires Consistent(t)
    ensures Consistent(After(t, CallRequest(o))) && Keeps(t, After(t, CallRequest(o)))
  {
  }

  lemma DecideIsConsistent(t: Tables, o: LocalOperation, verdict: Verdict)
    requires Consistent(t)
    ensures Consistent(After(t, CallDecide(o, verdict))) && Keeps(t, After(t, CallDecide(o, verdict)))
  {
  }

  lemma ExecuteIsConsistent(t: Tables, o: LocalOperation, crash: Option<Stage>)
    requires Consistent(t)
    ensures var (t', out) := ExecuteSpec(t, o, crash);
            && Consistent(t') && Keeps(t, t')
            && out != Raised(IntegrityError)
            && (out == Returned(true) ==> !Completed(t, o.operationId) && Completed(t', o.operationId))
  {
  }

  lemma CallIsConsistent(t: Tables, call: Call)
    requires Consistent(t)
    ensures Consistent(After(t, call)) && Keeps(t, After(t, call))
    ensures call.CallExecute? ==> ExecuteSpec(t, call.operation, call.crash).1 != Raised(IntegrityError)
    ensures forall id :: ReportsFresh(t, call, id) ==> !Completed(t, id) && Completed(After(t, call), id)
  {
    hide Consistent, Keeps, ExecuteSpec, RequestOutcome, DecideOutcome, Completed;
    match call {
      case CallRequest(o) => RequestIsConsistent(t, o);
      case CallDecide(o, verdict) => DecideIsConsistent(t, o, verdict);
      case CallExecute(o, crash) => ExecuteIsConsistent(t, o, crash);
    }
  }

  /** With any interleaving of calls and any crashes: notes and completions agree, bindings,
      decisions and notes never change, the insert never meets its primary key, and at most one
      execution of an operation ever reports a new effect, none once it is completed. */
  lemma {:induction false} SandboxIsCrashSafe(t: Tables, calls: seq<Call>, id: string)
    requires Consistent(t)
    ensures var t' := AfterAll(t, calls);
            && Consistent(t') && Keeps(t, t')
            && FreshReports(t, calls, id) <= (if Completed(t', id) then 1 else 0)
            && (Completed(t, id) ==> FreshReports(t, calls, id) == 0)
    decreases |calls|
  {
    if calls != [] {
      var t1 := After(t, calls[0]);
      CallIsConsistent(t, calls[0]);
      hide Consistent;
      SandboxIsCrashSafe(t1, calls[1..], id);
      var t2 := AfterAll(t1, calls[1..]);
      assert Keeps(t1, t2);
      assert Completed(t, id) ==> Completed(t1, id);
      assert Completed(t1, id) ==> Completed(t2, id);
    }
  }

  lemma NoteInsertNeverFails(calls: seq<Call>, o: LocalOperation, crash: Option<Stage>)
    ensures ExecuteSpec(AfterAll(EMPTY, calls), o, crash).1 != Raised(IntegrityError)
  {
    SandboxIsCrashSafe(EMPTY, calls, o.operationId);
    CallIsConsistent(AfterAll(EMPTY, calls), CallExecute(o, crash));
  }

  /** After any history, an approved operation that is run once more without a crash is completed:
      recovery needs nothing but the retry. */
  lemma RetryCompletes(calls: seq<Call>, o: LocalOperation)
    requires var t := AfterAll(EMPTY, calls);
             Existing(t, o).Ok? && t.operations[o.operationId].decision == Some(Approve)
    ensures var t := AfterAll(EMPTY, calls);
            var (t', out) := ExecuteSpec(t, o, None);
            && out == Returned(!Completed(t, o.operationId))
            && Completed(t', o.operationId)
            && o.operationId in t'.notes && t'.notes[o.operationId] == o.payload
  {
    SandboxIsCrashSafe(EMPTY, calls, o.operationId);
  }

  // ----- what each call answers -----

  /** The operation was requested, with exactly this effect. */
  predicate IsBound(t: Tables, o: LocalOperation) {
    && o.operationId in t.operations
    && t.operations[o.operationId].tool == o.tool && t.operations[o.operationId].payload == o.payload
  }

  lemma RequestIsExact(t: Tables, o: LocalOperation)
    ensures var r, id := RequestOutcome(t, o), o.operationId;
            && (r.Ok? <==> id !in t.operations || IsBound(t, o))
            && (r.Ok? ==>
                  && r.value.notes == t.notes
                  && r.value.operations == if id in t.operations then t.operations
                                           else t.operations[id := Row(o.tool, o.payload, None, false)])
            && (r == Err(BoundToOtherEffect) <==> id in t.operations && !IsBound(t, o))
  {
  }

  lemma DecideIsExact(t: Tables, o: LocalOperation, verdict: Verdict)
    ensures var r, id := DecideOutcome(t, o, verdict), o.operationId;
            && (r.Ok? <==> IsBound(t, o) && t.operations[id].decision in {None, Some(verdict)})
            && (r.Ok? ==>
                  && r.value.notes == t.notes && r.value.operations.Keys == t.operations.Keys
                  && (forall k | k in t.operations && k != id :: r.value.operations[k] == t.operations[k])
                  && r.value.operations[id] == Row(o.tool, o.payload, Some(verdict), t.operations[id].completed))
            && (r == Err(NotRequested) <==> id !in t.operations)
            && (r == Err(BoundToOtherEffect) <==> id in t.operations && !IsBound(t, o))
            && (r == Err(DecisionReversed) <==>
                  IsBound(t, o) && t.operations[id].decision.Some? && t.operations[id].decision != Some(verdict))
  {
  }

  /** The operation may be executed and was not yet. */
  predicate IsDue(t: Tables, o: LocalOperation) {
    IsBound(t, o) && t.operations[o.operationId].decision == Some(Approve) && !t.operations[o.operationId].completed
  }

  /** The stages before the commit leave nothing behind. */
  predicate BeforeTheCommit(crash: Option<Stage>) {
    crash == Some(BeforeEffect) || crash == Some(AfterEffect) || crash == Some(BeforeCommit)
  }

  /** A due operation is noted and completed exactly if the process lives up to the commit; else nothing changes. */
  lemma ExecuteChanges(t: Tables, o: LocalOperation, crash: Option<Stage>)
    requires Consistent(t)
    ensures var t', id := ExecuteSpec(t, o, crash).0, o.operationId;
            if IsDue(t, o) && !BeforeTheCommit(crash) then
              && t'.notes == t.notes[id := o.payload]
              && t'.operations == t.operations[id := Row(o.tool, o.payload, Some(Approve), true)]
            else t' == t
  {
    if IsDue(t, o) {
      assert t.operations[o.operationId].(completed := true) == Row(o.tool, o.payload, Some(Approve), true);
    }
  }

  /** It is reported as new exactly if the process lives on, and every other answer has its one cause. */
  lemma ExecuteAnswers(t: Tables, o: LocalOperation, crash: Option<Stage>)
    requires Consistent(t)
    ensures var out, id := ExecuteSpec(t, o, crash).1, o.operationId;
            && (out == Crashed <==> IsDue(t, o) && crash.Some?)
            && (out == Returned(true) <==> IsDue(t, o) && crash.None?)
            && (out == Returned(false) <==>
                  IsBound(t, o) && t.operations[id].decision == Some(Approve) && t.operations[id].completed)
            && (out == Raised(NotRequested) <==> id !in t.operations)
            && (out == Raised(BoundToOtherEffect) <==> id in t.operations && !IsBound(t, o))
            && (out == Raised(NotDecided) <==> IsBound(t, o) && t.operations[id].decision == None)
            && (out == Raised(WasDenied) <==> IsBound(t, o) && t.operations[id].decision == Some(Deny))
  {
    if crash.Some? {
      assert crash.value == BeforeEffect || crash.value == AfterEffect || crash.value == BeforeCommit
             || crash.value == AfterCommit;
    }
  }

  /** What the primary key of the notes would refuse, in rows that no run reaches. */
  lemma NoteKeyIsExact(t: Tables, o: LocalOperation, crash: Option<Stage>)
    ensures ExecuteSpec(t, o, crash).1 == Raised(IntegrityError) <==>
      IsDue(t, o) && crash != Some(BeforeEffect) && o.operationId in t.notes
  {
  }

  // ----- the sandbox against the approval replay -----

  function OperationOf(e: Approvals.ApprovalEvent): LocalOperation {
    LocalOperation(e.operationId, e.tool, e.payload)
  }

  function Perform(t: Tables, e: Approvals.ApprovalEvent): Result<Tables, SandboxError> {
    match e.action
    case Requested => RequestOutcome(t, OperationOf(e))
    case Approved => DecideOutcome(t, OperationOf(e), Approve)
    case Denied => DecideOutcome(t, OperationOf(e), Deny)
    case Execute =>
      var (t', out) := ExecuteSpec(t, OperationOf(e), None);
      if out.Raised? then Err(out.error) else Ok(t')
  }

  /** The store after the events, one call an event; the first raise ends it. */
  function Performed(events: seq<Approvals.ApprovalEvent>): Result<Tables, SandboxError> {
    if events == [] then Ok(EMPTY)
    else match Performed(events[..|events| - 1])
      case Err(e) => Err(e)
      case Ok(t) => Perform(t, events[|events| - 1])
  }

  /** The raise of the sandbox where the replay raises. The classes differ: the sandbox answers an
      unrequested operation with ApprovalRequired and a changed one with IdempotencyConflict. */
  function Counterpart(e: Approvals.ApprovalError): SandboxError {
    match e
    case ConflictNoRequest => NotRequested
    case ConflictChangedAfterRequest => BoundToOtherEffect
    case ConflictBinding => BoundToOtherEffect
    case ConflictDecisionChanged => DecisionReversed
    case ApprovalRequired => NotDecided
    case ApprovalDenied => WasDenied
  }

  ghost predicate Simulates(t: Tables, l: Approvals.Ledger) {
    forall id :: SimulatesAt(t, l, id)
  }

  ghost predicate SimulatesAt(t: Tables, l: Approvals.Ledger, id: string) {
    && (id in t.operations <==> id in l.requests)
    && (id in l.decisions ==> id in l.requests && l.decisions[id] in {Approvals.Approved, Approvals.Denied})
    && (id in t.operations ==>
          var row := t.operations[id];
          && (row.tool, row.payload) == l.requests[id]
          && row.decision == (if id !in l.decisions then None
                              else if l.decisions[id] == Approvals.Denied then Some(Deny) else Some(Approve))
          && (row.completed <==> id in l.executed))
    && (id in t.notes <==> id in l.executed)
    && (id in l.executed ==> id in l.requests && t.notes[id] == l.requests[id].1)
  }

  lemma EventIsSimulated(t: Tables, l: Approvals.Ledger, e: Approvals.ApprovalEvent)
    requires Simulates(t, l)
    ensures var store, replay := Perform(t, e), Approvals.Handle(l, e);
            && (replay.Err? ==> store == Err(Counterpart(replay.error)))
            && (replay.Ok? ==> store.Ok? && Simulates(store.value, replay.value))
  {
    var store, replay := Perform(t, e), Approvals.Handle(l, e);
    assert SimulatesAt(t, l, e.operationId);
    OutcomesAgree(t, l, e);
    if replay.Ok? {
      forall id ensures SimulatesAt(store.value, replay.value, id) {
        assert SimulatesAt(t, l, id);
        if id != e.operationId {
          OthersAreUntouched(t, l, e, id);
        }
      }
    }
  }

  lemma OutcomesAgree(t: Tables, l: Approvals.Ledger, e: Approvals.ApprovalEvent)
    requires SimulatesAt(t, l, e.operationId)
    ensures var store, replay := Perform(t, e), Approvals.Handle(l, e);
            && (replay.Err? ==> store == Err(Counterpart(replay.error)))
            && (replay.Ok? ==> store.Ok? && SimulatesAt(store.value, replay.value, e.operationId))
  {
  }

  predicate SameRow(t: Tables, t': Tables, id: string) {
    && (id in t.operations <==> id in t'.operations)
    && (id in t.operations ==> t'.operations[id] == t.operations[id])
    && (id in t.notes <==> id in t'.notes)
    && (id in t.notes ==> t'.notes[id] == t.notes[id])
  }

  predicate SameEntries(l: Approvals.Ledger, l': Approvals.Ledger, id: string) {
    && (id in l.requests <==> id in l'.requests)
    && (id in l.requests ==> l'.requests[id] == l.requests[id])
    && (id in l.decisions <==> id in l'.decisions)
    && (id in l.decisions ==> l'.decisions[id] == l.decisions[id])
    && (id in l.executed <==> id in l'.executed)
  }

  lemma PerformElsewhere(t: Tables, e: Approvals.ApprovalEvent, id: string)
    requires id != e.operationId && Perform(t, e).Ok?
    ensures SameRow(t, Perform(t, e).value, id)
  {
  }

  lemma HandleElsewhere(l: Approvals.Ledger, e: Approvals.ApprovalEvent, id: string)
    requires id != e.operationId && Approvals.Handle(l, e).Ok?
    ensures SameEntries(l, Approvals.Handle(l, e).value, id)
  {
  }

  lemma OthersAreUntouched(t: Tables, l: Approvals.Ledger, e: Approvals.ApprovalEvent, id: string)
    requires id != e.operationId && SimulatesAt(t, l, id)
    requires Perform(t, e).Ok? && Approvals.Handle(l, e).Ok?
    ensures SimulatesAt(Perform(t, e).value, Approvals.Handle(l, e).value, id)
  {
    hide Perform, Approvals.Handle;
    PerformElsewhere(t, e, id);
    HandleElsewhere(l, e, id);
  }

  /** The incremental store and the batch replay fail on the same event, with matching errors, or
      both succeed; then the noted operations are the executed ones with the requested payloads,
      and the recorded decisions are the replayed ones. */
  lemma {:induction false} SandboxSimulatesReplay(events: seq<Approvals.ApprovalEvent>)
    ensures var store, replay := Performed(events), Approvals.Replayed(events);
            && (replay.Err? ==> store == Err(Counterpart(replay.error)))
            && (replay.Ok? ==> store.Ok? && Simulates(store.value, replay.value))
    decreases |events|
  {
    if events != [] {
      SandboxSimulatesReplay(events[..|events| - 1]);
      if Approvals.Replayed(events[..|events| - 1]).Ok? {
        EventIsSimulated(Performed(events[..|events| - 1]).value, Approvals.Replayed(events[..|events| - 1]).value,
                         events[|events| - 1]);
      }
    }
  }

  /** The store calls of a history succeed exactly when the history is lawful; then the noted operations are
      those that the replay returns as executed, and the decisions are those it returns as approved and denied. */
  lemma SandboxAcceptsLawfulHistories(events: seq<Approvals.ApprovalEvent>)
    ensures Performed(events).Ok? <==> Approvals.Lawful(events)
    ensures Performed(events).Ok? ==>
              && Approvals.Replayed(events).Ok?
              && var t, r := Performed(events).value, Approvals.Projection(Approvals.Replayed(events).value);
              && (forall id :: id in t.notes <==> id in r.executed)
              && (forall id :: DecidedTo(t, id, Approve) <==> id in r.approved)
              && (forall id :: DecidedTo(t, id, Deny) <==> id in r.denied)
  {
    SandboxSimulatesReplay(events);
    Approvals.ReplayIffLawful(events);
    if Performed(events).Ok? {
      var t, l := Performed(events).value, Approvals.Replayed(events).value;
      hide Approvals.Replayed, Approvals.Lawful, Performed;
      Approvals.DecidedAsMembers(l.decided, l.decisions, Approvals.Approved);
      Approvals.DecidedAsMembers(l.decided, l.decisions, Approvals.Denied);
      forall id
        ensures id in t.notes <==> id in l.executed
        ensures DecidedTo(t, id, Approve) <==> id in l.decisions && l.decisions[id] == Approvals.Approved
        ensures DecidedTo(t, id, Deny) <==> id in l.decisions && l.decisions[id] == Approvals.Denied
      {
        assert SimulatesAt(t, l, id);
      }
    }
  }

  predicate DecidedTo(t: Tables, id: string, verdict: Verdict) {
    id in t.operations && t.operations[id].decision == Some(verdict)
  }

  /** Persists exact approvals and a local effect; each method is one transaction. */
  class DurableSandbox {
    var operations: map<string, Row>
    var notes: map<string, string>

    function Rows(): Tables
      reads this
    {
      Tables(operations, notes)
    }

    ghost predicate Valid()
      reads this
    {
      Consistent(Rows())
    }

    constructor ()
      ensures Valid() && Rows() == EMPTY
    {
      operations, notes := map[], map[];
    }

    method Request(o: LocalOperation) returns (r: Result<(), SandboxError>)
      requires Valid() && o.Supported()
      modifies this`operations
      ensures Valid() && Keeps(old(Rows()), Rows())
      ensures var spec := RequestOutcome(old(Rows()), o);
              if spec.Ok? then r == Ok(()) && Rows() == spec.value
              else r == Err(spec.error) && Rows() == old(Rows())
    {
      CallIsConsistent(Rows(), CallRequest(o));
      var rollback := operations;
      if o.operationId !in operations {
        operations := operations[o.operationId := Row(o.tool, o.payload, None, false)];
      }
      var row := Existing(Rows(), o);
      if row.Err? {
        operations := rollback;
        return Err(row.error);
      }
      r := Ok(());
    }

    method Decide(o: LocalOperation, verdict: Verdict) returns (r: Result<(), SandboxError>)
      requires Valid() && o.Supported()
      modifies this`operations
      ensures Valid() && Keeps(old(Rows()), Rows())
      ensures var spec := DecideOutcome(old(Rows()), o, verdict);
              if spec.Ok? then r == Ok(()) && Rows() == spec.value
              else r == Err(spec.error) && Rows() == old(Rows())
    {
      CallIsConsistent(Rows(), CallDecide(o, verdict));
      var row := Existing(Rows(), o);
      if row.Err? {
        return Err(row.error);
      }
      if row.value.decision.Some? && row.value.decision.value != verdict {
        return Err(DecisionReversed);
      }
      operations := operations[o.operationId := row.value.(decision := Some(verdict))];
      r := Ok(());
    }

    /** Works on uncommitted rows; only the commit makes them the rows of the database. */
    method Execute(o: LocalOperation, crash: Option<Stage>) returns (out: ExecuteOutcome)
      requires Valid() && o.Supported()
      modifies this
      ensures Valid() && Keeps(old(Rows()), Rows())
      ensures (Rows(), out) == ExecuteSpec(old(Rows()), o, crash)
      ensures out != Raised(IntegrityError)
    {
      CallIsConsistent(Rows(), CallExecute(o, crash));
      var row := Existing(Rows(), o);
      if row.Err? {
        return Raised(row.error);
      }
      if row.value.decision.None? {
        return Raised(NotDecided);
      }
      if row.value.decision.value == Deny {
        return Raised(WasDenied);
      }
      if row.value.completed {
        return Returned(false);
      }
      var uncommittedOperations, uncommittedNotes := operations, notes;
      if crash == Some(BeforeEffect) {
        return Crashed;
      }
      uncommittedNotes := uncommittedNotes[o.operationId := o.payload];
      if crash == Some(AfterEffect) {
        return Crashed;
      }
      uncommittedOperations := uncommittedOperations[o.operationId := row.value.(completed := true)];
      if crash == Some(BeforeCommit) {
        return Crashed;
      }
      operations, notes := uncommittedOperations, uncommittedNotes;
      if crash == Some(AfterCommit) {
        return Crashed;
      }
      out := Returned(true);
    }

    /** Every note once, least id first. */
    method Notes() returns (rows: seq<(string, string)>)
      ensures Ascending(seq(|rows|, i requires 0 <= i < |rows| => rows[i].0))
      ensures forall n :: n in rows <==> n.0 in notes && notes[n.0] == n.1
    {
      rows := SortedRows(notes);
    }
  }

  method SortedRows(notes: map<string, string>) returns (rows: seq<(string, string)>)
    ensures Ascending(seq(|rows|, i requires 0 <= i < |rows| => rows[i].0))
    ensures forall n :: n in rows <==> n.0 in notes && notes[n.0] == n.1
  {
    rows := [];
    var pending := notes.Keys;
    while pending != {}
      invariant pending <= notes.Keys
      invariant forall i, j | 0 <= i < j < |rows| :: Precedes(rows[i].0, rows[j].0)
      invariant forall n, id | n in rows && id in pending :: Precedes(n.0, id)
      invariant forall n :: n in rows <==> n.0 in notes && n.0 !in pending && notes[n.0] == n.1
      decreases pending
    {
      ghost var least := LeastExists(pending);
      var id :| id in pending && IsLeast(id, pending);
      LeastPrecedes(id, pending);
      pending := pending - {id};
      rows := rows + [(id, notes[id])];
    }
  }
}
