/** Fail-closed reconciliation of a lost acknowledgement, and the versioned provider whose
    compare-and-apply write the retry authority is bound to. */
module Reconciliation {
  import opened Common

  datatype ReadbackState = Present | Absent | Ambiguous

  datatype ExternalOperation = ExternalOperation(
    provider: string, operationId: string, tool: string, payload: string)
  {
    function EffectSha256(): EffectHash { DigestOf(this) }

    function Key(): (string, string) { (provider, operationId) }

    predicate SameIdentity(other: ExternalOperation) { Key() == other.Key() }
  }

  type EffectHash = Sha256<ExternalOperation>

  datatype ProviderEvidence = ProviderEvidence(
    provider: string,
    operationId: string,
    readback: ReadbackState,
    observedTool: Option<string>,
    observedPayload: Option<string>,
    readbackRevision: Option<nat>,
    idempotencyKey: Option<string>,
    idempotencyEffect: Option<EffectHash>)

  datatype Action = AcceptRemoteCommit | RetryExactOperation

  datatype ReconciliationDecision = ReconciliationDecision(
    action: Action,
    shouldRetry: bool,
    reason: string,
    retryPreconditionRevision: Option<int>,
    retryEffect: Option<EffectHash>)

  datatype ProviderState = ProviderState(revision: nat, effects: seq<ExternalOperation>)

  /** The raises of the provider side, one constructor a branch; the class raised is in the name. */
  datatype ProviderError =
    | ConflictForeignEvidence
    | ConflictObservedEffect
    | ConflictAbsentWithEffect
    | ConflictDecisionEffect
    | ConflictContradictsAbsence
    | ConflictStoredEffect
    | RemoteStateAmbiguous
    | RetrySafetyNoIdempotency
    | RetrySafetyNoRevision
    | RetrySafetyNotAuthorized
    | RetrySafetyNoPrecondition
    | StaleProviderReadback

  const ACCEPT_REASON := "provider readback confirms the exact effect already committed"
  const RETRY_REASON := 
    "provider confirms absence and exact idempotency evidence permits a retry only "
    + "while the observed provider revision is still current"

  function AcceptDecision(): ReconciliationDecision {
    ReconciliationDecision(AcceptRemoteCommit, false, ACCEPT_REASON, None, None)
  }

  function RetryDecision(operation: ExternalOperation, revision: nat): ReconciliationDecision {
    ReconciliationDecision(RetryExactOperation, true, RETRY_REASON,
                           Some(revision), Some(operation.EffectSha256()))
  }

  function ReconcileLostAck(operation: ExternalOperation, evidence: ProviderEvidence)
    : (r: Result<ReconciliationDecision, ProviderError>)
  {
    if evidence.provider != operation.provider || evidence.operationId != operation.operationId then
      Err(ConflictForeignEvidence)
    else match evidence.readback
      case Ambiguous => Err(RemoteStateAmbiguous)
      case Present =>
        if (evidence.observedTool, evidence.observedPayload)
           != (Some(operation.tool), Some(operation.payload))
        then Err(ConflictObservedEffect)
        else Ok(AcceptDecision())
      case Absent =>
        if evidence.observedTool.Some? || evidence.observedPayload.Some? then
          Err(ConflictAbsentWithEffect)
        else if !(evidence.idempotencyKey == Some(operation.operationId)
                  && evidence.idempotencyEffect == Some(operation.EffectSha256())) then
          Err(RetrySafetyNoIdempotency)
        else if evidence.readbackRevision.None? then
          Err(RetrySafetyNoRevision)
        else
          Ok(RetryDecision(operation, evidence.readbackRevision.value))
  }

  function ApplyConditionalRetry(
    operation: ExternalOperation, decision: ReconciliationDecision, state: ProviderState)
    : (r: Result<ProviderState, ProviderError>)
  {
    if !decision.shouldRetry || decision.action != RetryExactOperation then
      Err(RetrySafetyNotAuthorized)
    else if decision.retryPreconditionRevision.None? then
      Err(RetrySafetyNoPrecondition)
    else if decision.retryEffect != Some(operation.EffectSha256()) then
      Err(ConflictDecisionEffect)
    else if state.revision != decision.retryPreconditionRevision.value then
      Err(StaleProviderReadback)
    else if exists existing | existing in state.effects :: existing.SameIdentity(operation) then
      Err(ConflictContradictsAbsence)
    else
      Ok(ProviderState(state.revision + 1, state.effects + [operation]))
  }

  /** The evidence is an exact PRESENT readback of the operation. */
  predicate ConfirmsCommit(operation: ExternalOperation, evidence: ProviderEvidence) {
    && evidence.readback == Present
    && (evidence.provider, evidence.operationId) == operation.Key()
    && evidence.observedTool == Some(operation.tool)
    && evidence.observedPayload == Some(operation.payload)
  }

  /** The evidence is an ABSENT readback at a revision, which observed nothing and carries the
      operation's own idempotency key and effect digest. */
  predicate PermitsRetry(operation: ExternalOperation, evidence: ProviderEvidence) {
    && evidence.readback == Absent
    && (evidence.provider, evidence.operationId) == operation.Key()
    && evidence.observedTool.None? && evidence.observedPayload.None?
    && evidence.idempotencyKey == Some(operation.operationId)
    && evidence.idempotencyEffect == Some(operation.EffectSha256())
    && evidence.readbackRevision.Some?
  }

  /** Retry authority comes from exactly the evidence that permits it and carries that evidence's
      revision and the operation's digest; acceptance comes from exactly the evidence that confirms
      it. No other evidence decides anything. */
  lemma DecisionsAreJustified(operation: ExternalOperation, evidence: ProviderEvidence)
    ensures var r := ReconcileLostAck(operation, evidence);
            && (r.Ok? <==> ConfirmsCommit(operation, evidence) || PermitsRetry(operation, evidence))
            && (ConfirmsCommit(operation, evidence) <==> r == Ok(AcceptDecision()))
            && (PermitsRetry(operation, evidence) <==> r.Ok? && r.value.shouldRetry)
            && (PermitsRetry(operation, evidence) ==>
                r == Ok(RetryDecision(operation, evidence.readbackRevision.value)))
  {
  }

  /** What the two decisions carry. */
  lemma DecisionsCarry(operation: ExternalOperation, revision: nat)
    ensures var d := AcceptDecision();
            && d.action == AcceptRemoteCommit && !d.shouldRetry && d.reason == ACCEPT_REASON
            && d.retryPreconditionRevision.None? && d.retryEffect.None?
    ensures var d := RetryDecision(operation, revision);
            && d.action == RetryExactOperation && d.shouldRetry && d.reason == RETRY_REASON
            && d.retryPreconditionRevision == Some(revision) && d.retryEffect == Some(DigestOf(operation))
  {
  }

  predicate IsAbout(evidence: ProviderEvidence, operation: ExternalOperation) {
    evidence.provider == operation.provider && evidence.operationId == operation.operationId
  }

  predicate ObservedNothing(evidence: ProviderEvidence) {
    evidence.observedTool.None? && evidence.observedPayload.None?
  }

  predicate CarriesIdempotency(evidence: ProviderEvidence, operation: ExternalOperation) {
    evidence.idempotencyKey == Some(operation.operationId) && evidence.idempotencyEffect == Some(DigestOf(operation))
  }

  /** Which refusal each other evidence meets. */
  lemma RefusalsAreExact(o: ExternalOperation, e: ProviderEvidence)
    ensures var r := ReconcileLostAck(o, e);
            && (r == Err(ConflictForeignEvidence) <==> !IsAbout(e, o))
            && (r == Err(RemoteStateAmbiguous) <==> IsAbout(e, o) && e.readback == Ambiguous)
            && (r == Err(ConflictObservedEffect) <==>
                  && IsAbout(e, o) && e.readback == Present
                  && !(e.observedTool == Some(o.tool) && e.observedPayload == Some(o.payload)))
            && (r == Err(ConflictAbsentWithEffect) <==> IsAbout(e, o) && e.readback == Absent && !ObservedNothing(e))
            && (r == Err(RetrySafetyNoIdempotency) <==>
                  IsAbout(e, o) && e.readback == Absent && ObservedNothing(e) && !CarriesIdempotency(e, o))
            && (r == Err(RetrySafetyNoRevision) <==>
                  && IsAbout(e, o) && e.readback == Absent && ObservedNothing(e) && CarriesIdempotency(e, o)
                  && e.readbackRevision.None?)
  {
  }

  predicate AuthorizesRetry(d: ReconciliationDecision) {
    d.shouldRetry && d.action == RetryExactOperation
  }

  /** The authority is for this effect at this revision. */
  predicate IsCurrentAuthority(d: ReconciliationDecision, o: ExternalOperation, revision: nat) {
    AuthorizesRetry(d) && d.retryPreconditionRevision == Some(revision) && d.retryEffect == Some(DigestOf(o))
  }

  predicate HoldsIdentity(effects: seq<ExternalOperation>, o: ExternalOperation) {
    exists e | e in effects :: e.provider == o.provider && e.operationId == o.operationId
  }

  /** A conditional retry commits exactly under current authority for a free identity; else it meets one refusal. */
  lemma ConditionalRetryIsExact(o: ExternalOperation, d: ReconciliationDecision, s: ProviderState)
    ensures var r := ApplyConditionalRetry(o, d, s);
            && (r.Ok? <==> IsCurrentAuthority(d, o, s.revision) && !HoldsIdentity(s.effects, o))
            && (r.Ok? ==> r.value.revision == s.revision + 1 && r.value.effects == s.effects + [o])
            && (r == Err(RetrySafetyNotAuthorized) <==> !AuthorizesRetry(d))
            && (r == Err(RetrySafetyNoPrecondition) <==> AuthorizesRetry(d) && d.retryPreconditionRevision.None?)
            && (r == Err(ConflictDecisionEffect) <==>
                  && AuthorizesRetry(d) && d.retryPreconditionRevision.Some?
                  && d.retryEffect != Some(DigestOf(o)))
            && (r == Err(StaleProviderReadback) <==>
                  && AuthorizesRetry(d) && d.retryPreconditionRevision.Some? && d.retryEffect == Some(DigestOf(o))
                  && d.retryPreconditionRevision.value != s.revision)
            && (r == Err(ConflictContradictsAbsence) <==>
                  IsCurrentAuthority(d, o, s.revision) && HoldsIdentity(s.effects, o))
  {
    assert HoldsIdentity(s.effects, o) <==> exists e | e in s.effects :: e.SameIdentity(o);
  }

  /** Evidence never authorizes two different effects: a digest has one preimage. */
  lemma EvidenceBindsOneEffect(a: ExternalOperation, b: ExternalOperation, evidence: ProviderEvidence)
    requires ReconcileLostAck(a, evidence).Ok? && ReconcileLostAck(b, evidence).Ok?
    ensures a == b
  {
    DecisionsAreJustified(a, evidence);
    DecisionsAreJustified(b, evidence);
  }

  // ----- the two provider tables -----

  datatype ProviderTables = ProviderTables(
    revisions: map<string, nat>,
    effects: map<(string, string), (string, string)>)

  const EMPTY_PROVIDER := ProviderTables(map[], map[])

  function RevisionOf(t: ProviderTables, provider: string): nat {
    if provider in t.revisions then t.revisions[provider] else 0
  }

  predicate Stores(t: ProviderTables, operation: ExternalOperation) {
    operation.Key() in t.effects && t.effects[operation.Key()] == (operation.tool, operation.payload)
  }

  /** A snapshot inserts the missing revision row of a provider it has not seen. */
  function Touched(t: ProviderTables, provider: string): ProviderTables {
    t.(revisions := t.revisions[provider := RevisionOf(t, provider)])
  }

  function PresentEvidence(operation: ExternalOperation, revision: nat): ProviderEvidence {
    ProviderEvidence(operation.provider, operation.operationId, Present,
                     Some(operation.tool), Some(operation.payload), Some(revision), None, None)
  }

  function AbsentEvidence(operation: ExternalOperation, revision: nat): ProviderEvidence {
    ProviderEvidence(operation.provider, operation.operationId, Absent, None, None, Some(revision),
                     Some(operation.operationId), Some(operation.EffectSha256()))
  }

  function ReadOutcome(t: ProviderTables, operation: ExternalOperation)
    : Result<ProviderEvidence, ProviderError>
  {
    var revision := RevisionOf(t, operation.provider);
    if operation.Key() !in t.effects then Ok(AbsentEvidence(operation, revision))
    else if !Stores(t, operation) then Err(ConflictStoredEffect)
    else Ok(PresentEvidence(operation, revision))
  }

  /** A reading says what the row of the key holds, at the provider's revision; absence carries the idempotency
      evidence of the exact operation. */
  lemma ReadingIsExact(t: ProviderTables, o: ExternalOperation)
    ensures var r, key := ReadOutcome(t, o), (o.provider, o.operationId);
            && (r == Err(ConflictStoredEffect) <==> key in t.effects && t.effects[key] != (o.tool, o.payload))
            && (r.Err? ==> r == Err(ConflictStoredEffect))
            && (r.Ok? ==>
                  && IsAbout(r.value, o)
                  && r.value.readbackRevision == Some(if o.provider in t.revisions then t.revisions[o.provider] else 0)
                  && (r.value.readback == Present <==> key in t.effects)
                  && (r.value.readback == Absent <==> key !in t.effects)
                  && (key in t.effects ==>
                        && r.value.observedTool == Some(o.tool) && r.value.observedPayload == Some(o.payload)
                        && r.value.idempotencyKey.None? && r.value.idempotencyEffect.None?)
                  && (key !in t.effects ==> ObservedNothing(r.value) && CarriesIdempotency(r.value, o)))
  {
  }

  function Inserted(t: ProviderTables, operation: ExternalOperation): ProviderTables {
    ProviderTables(
      t.revisions[operation.provider := RevisionOf(t, operation.provider) + 1],
      t.effects[operation.Key() := (operation.tool, operation.payload)])
  }

  /** The compare-and-apply write, decided by keyed lookups instead of a scan of the snapshot. */
  function ApplyOutcome(t: ProviderTables, operation: ExternalOperation, decision: ReconciliationDecision)
    : Result<ProviderTables, ProviderError>
  {
    if !decision.shouldRetry || decision.action != RetryExactOperation then
      Err(RetrySafetyNotAuthorized)
    else if decision.retryPreconditionRevision.None? then
      Err(RetrySafetyNoPrecondition)
    else if decision.retryEffect != Some(operation.EffectSha256()) then
      Err(ConflictDecisionEffect)
    else if RevisionOf(t, operation.provider) != decision.retryPreconditionRevision.value then
      Err(StaleProviderReadback)
    else if operation.Key() in t.effects then
      Err(ConflictContradictsAbsence)
    else
      Ok(Inserted(t, operation))
  }

  /** A snapshot adds at most the row of an unseen provider, at revision 0. */
  lemma TouchedIsExact(t: ProviderTables, provider: string)
    ensures var t' := Touched(t, provider);
            && t'.effects == t.effects
            && t'.revisions.Keys == t.revisions.Keys + {provider}
            && t'.revisions[provider] == (if provider in t.revisions then t.revisions[provider] else 0)
            && forall p | p in t.revisions :: t'.revisions[p] == t.revisions[p]
  {
  }

  /** A commit changes the row of its key and the revision of its provider, and nothing else. */
  lemma InsertedIsExact(t: ProviderTables, o: ExternalOperation)
    ensures var t', key := Inserted(t, o), (o.provider, o.operationId);
            && t'.effects.Keys == t.effects.Keys + {key} && t'.effects[key] == (o.tool, o.payload)
            && (forall k | k in t.effects && k != key :: t'.effects[k] == t.effects[k])
            && t'.revisions.Keys == t.revisions.Keys + {o.provider}
            && t'.revisions[o.provider] == (if o.provider in t.revisions then t.revisions[o.provider] else 0) + 1
            && forall p | p in t.revisions && p != o.provider :: t'.revisions[p] == t.revisions[p]
  {
  }

  // ----- snapshots -----

  /** The rows of one provider, each listed exactly once. */
  ghost predicate Lists(effects: seq<ExternalOperation>, t: ProviderTables, provider: string) {
    && Distinct(effects)
    && (forall e :: e in effects <==> e.provider == provider && Stores(t, e))
  }

  ghost predicate IsSnapshot(s: ProviderState, t: ProviderTables, provider: string) {
    s.revision == RevisionOf(t, provider) && Lists(s.effects, t, provider)
  }

  /** `ORDER BY operation_id`. */
  ghost predicate InIdOrder(effects: seq<ExternalOperation>) {
    forall i, j | 0 <= i < j < |effects| :: Precedes(effects[i].operationId, effects[j].operationId)
  }

  lemma InIdOrderIsDistinct(effects: seq<ExternalOperation>)
    requires InIdOrder(effects)
    ensures Distinct(effects)
  {
    forall i, j | 0 <= i < j < |effects| ensures effects[i] != effects[j] {
      assert Precedes(effects[i].operationId, effects[j].operationId);
      PrecedesIsTotal(effects[i].operationId, effects[j].operationId);
    }
  }

  /** Scanning a snapshot and looking the key up refuse for the same reason, or both commit;
      and the returned state is a snapshot of the tables after the commit. */
  lemma ScanRefinesLookup(
    t: ProviderTables, operation: ExternalOperation, decision: ReconciliationDecision, s: ProviderState)
    requires IsSnapshot(s, t, operation.provider)
    ensures var scan, lookup := ApplyConditionalRetry(operation, decision, s), ApplyOutcome(t, operation, decision);
            && (scan.Err? ==> lookup == Err(scan.error))
            && (scan.Ok? ==> lookup.Ok? && IsSnapshot(scan.value, lookup.value, operation.provider))
  {
    if operation.Key() in t.effects {
      var row := t.effects[operation.Key()];
      var existing := ExternalOperation(operation.provider, operation.operationId, row.0, row.1);
      assert Stores(t, existing) && existing in s.effects && existing.SameIdentity(operation);
    } else {
      assert forall e | e in s.effects :: !e.SameIdentity(operation);
      var t' := Inserted(t, operation);
      forall e
        ensures e in s.effects + [operation] <==> e.provider == operation.provider && Stores(t', e)
      {
        if e.Key() != operation.Key() {
          assert Stores(t', e) <==> Stores(t, e);
        }
      }
      assert operation !in s.effects;
    }
  }

  // ----- the commit log -----

  /** The operations each provider committed, oldest first. It is history only: no code reads it. */
  type CommitLog = map<string, seq<ExternalOperation>>

  ghost function LogOf(log: CommitLog, provider: string): seq<ExternalOperation> {
    if provider in log then log[provider] else []
  }

  ghost function Appended(log: CommitLog, operation: ExternalOperation): CommitLog {
    log[operation.provider := LogOf(log, operation.provider) + [operation]]
  }

  ghost predicate DistinctIdentities(ops: seq<ExternalOperation>) {
    forall i, j | 0 <= i < j < |ops| :: ops[i].operationId != ops[j].operationId
  }

  /** The revision counts the commits, no identity commits twice, and the rows are the log. */
  ghost predicate Logged(t: ProviderTables, log: CommitLog) {
    && (forall p :: RevisionOf(t, p) == |LogOf(log, p)|)
    && (forall p :: DistinctIdentities(LogOf(log, p)))
    && (forall p, o | o in LogOf(log, p) :: o.provider == p)
    && (forall o :: Stores(t, o) <==> o in LogOf(log, o.provider))
  }

  lemma TouchedKeepsLogged(t: ProviderTables, log: CommitLog, provider: string)
    requires Logged(t, log)
    ensures Logged(Touched(t, provider), log)
  {
    var t' := Touched(t, provider);
    assert forall p :: RevisionOf(t', p) == RevisionOf(t, p);
    assert forall o :: Stores(t', o) == Stores(t, o);
  }

  /** A row stands for its identity only: a key is free exactly when no logged operation has it. */
  lemma KeyTakenIffLogged(t: ProviderTables, log: CommitLog, operation: ExternalOperation)
    requires Logged(t, log)
    ensures operation.Key() in t.effects <==>
            exists o :: o in LogOf(log, operation.provider) && o.operationId == operation.operationId
  {
    if operation.Key() in t.effects {
      var row := t.effects[operation.Key()];
      var o := ExternalOperation(operation.provider, operation.operationId, row.0, row.1);
      assert Stores(t, o);
    }
    forall o | o in LogOf(log, operation.provider) && o.operationId == operation.operationId
      ensures operation.Key() in t.effects
    {
      assert o.provider == operation.provider && Stores(t, o);
      assert o.Key() == operation.Key();
    }
  }

  /** A reading that conflicts met a row of the identity, so the provider has its revision row already. */
  lemma ConflictTouchesNothing(t: ProviderTables, log: CommitLog, operation: ExternalOperation)
    requires Logged(t, log) && ReadOutcome(t, operation).Err?
    ensures operation.provider in t.revisions && Touched(t, operation.provider) == t
  {
    KeyTakenIffLogged(t, log, operation);
    assert RevisionOf(t, operation.provider) == |LogOf(log, operation.provider)|;
  }

  lemma CommitKeepsLogged(t: ProviderTables, log: CommitLog, operation: ExternalOperation,
      decision: ReconciliationDecision)
    requires Logged(t, log)
    requires ApplyOutcome(t, operation, decision).Ok?
    ensures Logged(Inserted(t, operation), Appended(log, operation))
  {
    LogsAfterInsert(t, log, operation);
    IdentitiesAfterInsert(t, log, operation);
    forall o ensures Stores(Inserted(t, operation), o) <==> o in LogOf(Appended(log, operation), o.provider) {
      StoredAfterInsert(t, log, operation, o);
    }
    hide Stores, DistinctIdentities, Inserted, Appended, RevisionOf, LogOf;
  }

  /** Only the log of the operation's provider grows, and the revision with it. */
  lemma LogsAfterInsert(t: ProviderTables, log: CommitLog, operation: ExternalOperation)
    requires Logged(t, log)
    ensures var t', log' := Inserted(t, operation), Appended(log, operation);
            forall p ::
              && LogOf(log', p) == LogOf(log, p) + (if p == operation.provider then [operation] else [])
              && RevisionOf(t', p) == |LogOf(log', p)|
              && forall o | o in LogOf(log', p) :: o.provider == p
  {
    hide Stores, DistinctIdentities;
    var t', log' := Inserted(t, operation), Appended(log, operation);
    forall p
      ensures LogOf(log', p) == LogOf(log, p) + (if p == operation.provider then [operation] else [])
      ensures RevisionOf(t', p) == |LogOf(log', p)|
    {
      assert RevisionOf(t, p) == |LogOf(log, p)|;
    }
  }

  lemma DistinctAppend(ops: seq<ExternalOperation>, operation: ExternalOperation)
    requires DistinctIdentities(ops) && forall o | o in ops :: o.operationId != operation.operationId
    ensures DistinctIdentities(ops + [operation])
  {
  }

  lemma IdentitiesAfterInsert(t: ProviderTables, log: CommitLog, operation: ExternalOperation)
    requires Logged(t, log) && operation.Key() !in t.effects
    ensures forall p :: DistinctIdentities(LogOf(Appended(log, operation), p))
  {
    hide DistinctIdentities;
    KeyTakenIffLogged(t, log, operation);
    DistinctAppend(LogOf(log, operation.provider), operation);
    forall p ensures DistinctIdentities(LogOf(Appended(log, operation), p)) {
      assert DistinctIdentities(LogOf(log, p));
    }
  }

  lemma StoredAfterInsert(t: ProviderTables, log: CommitLog, operation: ExternalOperation, o: ExternalOperation)
    requires Logged(t, log) && operation.Key() !in t.effects
    ensures Stores(Inserted(t, operation), o) <==> o in LogOf(Appended(log, operation), o.provider)
  {
    assert Stores(t, o) <==> o in LogOf(log, o.provider);
    if o.Key() == operation.Key() {
      assert !Stores(t, o);
    }
  }

  /** The rows of a provider, least id first. */
  method Listed(t: ProviderTables, provider: string) returns (rows: seq<ExternalOperation>)
    ensures Lists(rows, t, provider) && InIdOrder(rows)
  {
    rows := [];
    var pending := set k | k in t.effects && k.0 == provider :: k.1;
    while pending != {}
      invariant forall id | id in pending :: (provider, id) in t.effects
      invariant forall e :: e in rows <==> e.provider == provider && Stores(t, e) && e.operationId !in pending
      invariant forall e, id | e in rows && id in pending :: Precedes(e.operationId, id)
      invariant InIdOrder(rows)
      decreases pending
    {
      ghost var least := LeastExists(pending);
      var id :| id in pending && IsLeast(id, pending);
      var row := t.effects[(provider, id)];
      var e := ExternalOperation(provider, id, row.0, row.1);
      assert e.Key() == (provider, id);
      LeastPrecedes(id, pending);
      pending := pending - {id};
      assert forall later | later in pending :: Precedes(e.operationId, later);
      rows := rows + [e];
    }
    InIdOrderIsDistinct(rows);
  }

  /** SQLite-backed provider model; each method is one transaction. */
  class VersionedProviderStore {
    var revisions: map<string, nat>
    var effects: map<(string, string), (string, string)>
    ghost var log: CommitLog

    function Tables(): ProviderTables
      reads this
    {
      ProviderTables(revisions, effects)
    }

    ghost predicate Valid()
      reads this
    {
      Logged(Tables(), log)
    }

    constructor ()
      ensures Valid() && Tables() == EMPTY_PROVIDER && log == map[]
    {
      revisions, effects, log := map[], map[], map[];
    }

    method SnapshotInTransaction(provider: string) returns (s: ProviderState)
      modifies this`revisions
      ensures Tables() == Touched(old(Tables()), provider)
      ensures IsSnapshot(s, old(Tables()), provider) && InIdOrder(s.effects)
    {
      if provider !in revisions {
        revisions := revisions[provider := 0];
      }
      assert Tables() == Touched(old(Tables()), provider);
      var rows := Listed(Tables(), provider);
      s := ProviderState(revisions[provider], rows);
    }

    /** A provider name must hold more than whitespace; `None` is the ValueError. */
    method Snapshot(provider: string) returns (s: Option<ProviderState>)
      requires Valid()
      modifies this`revisions
      ensures Valid()
      ensures IsBlank(provider) ==> s.None? && Tables() == old(Tables())
      ensures !IsBlank(provider) ==>
                && s.Some? && IsSnapshot(s.value, Tables(), provider) && InIdOrder(s.value.effects)
                && Tables() == Touched(old(Tables()), provider)
    {
      if IsBlank(provider) {
        return None;
      }
      TouchedKeepsLogged(Tables(), log, provider);
      var state := SnapshotInTransaction(provider);
      s := Some(state);
    }

    /** The conflict is raised after the transaction closed; but it needs a row of the identity, and so a revision row
        too, and the transaction had none to insert. */
    method Read(operation: ExternalOperation) returns (r: Result<ProviderEvidence, ProviderError>)
      requires Valid()
      modifies this`revisions
      ensures Valid()
      ensures Tables() == Touched(old(Tables()), operation.provider)
      ensures r == ReadOutcome(old(Tables()), operation)
      ensures r.Err? ==> Tables() == old(Tables())
    {
      TouchedKeepsLogged(Tables(), log, operation.provider);
      if ReadOutcome(Tables(), operation).Err? {
        ConflictTouchesNothing(Tables(), log, operation);
      }
      var state := SnapshotInTransaction(operation.provider);
      if operation.Key() !in effects {
        return Ok(AbsentEvidence(operation, state.revision));
      }
      if effects[operation.Key()] != (operation.tool, operation.payload) {
        return Err(ConflictStoredEffect);
      }
      r := Ok(PresentEvidence(operation, state.revision));
    }

    /** A raise rolls the whole transaction back, the inserted revision row included. */
    method ConditionalApply(operation: ExternalOperation, decision: ReconciliationDecision)
      returns (r: Result<ProviderState, ProviderError>)
      requires Valid()
      modifies this
      ensures Valid()
      ensures r.Err? ==>
                && ApplyOutcome(old(Tables()), operation, decision) == Err(r.error)
                && Tables() == old(Tables()) && log == old(log)
      ensures r.Ok? ==>
                && ApplyOutcome(old(Tables()), operation, decision) == Ok(Tables())
                && log == Appended(old(log), operation)
                && IsSnapshot(r.value, Tables(), operation.provider)
                && exists before :: InIdOrder(before) && r.value.effects == before + [operation]
    {
      hide Logged, Lists;
      var rollback := revisions;
      var current := SnapshotInTransaction(operation.provider);
      ScanRefinesLookup(old(Tables()), operation, decision, current);
      r := ApplyConditionalRetry(operation, decision, current);
      if r.Err? {
        revisions := rollback;
        return;
      }
      assert InIdOrder(current.effects) && r.value.effects == current.effects + [operation];
      CommitKeepsLogged(old(Tables()), log, operation, decision);
      effects := effects[operation.Key() := (operation.tool, operation.payload)];
      revisions := revisions[operation.provider := r.value.revision];
      log := Appended(log, operation);
      assert Tables() == Inserted(old(Tables()), operation);
    }
  }
}
