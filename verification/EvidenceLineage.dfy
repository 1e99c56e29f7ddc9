/** The durable evidence store: one monotonic head and at most one terminal completion for
    every operation identity. Nothing here trusts the evidence it is given. */
module EvidenceLineage {
  import opened Common
  import opened Reconciliation

  datatype EvidenceRecord = EvidenceRecord(
    provider: string,
    operationId: string,
    evidenceId: string,
    revision: nat,
    effect: EffectHash,
    decision: ReconciliationDecision)

  datatype CompletionRecord = CompletionRecord(
    provider: string,
    operationId: string,
    effect: EffectHash,
    evidenceId: string,
    revision: nat)

  /** The raises of the store, one constructor a branch; `Refused` carries a raise of
      the reconciliation step itself. */
  datatype LineageError =
    | BlankEvidenceId
    | LineageNoRevision
    | Refused(cause: ProviderError)
    | LineageCompletedOtherEffect
    | SupersededByCompletion
    | LineageHeadOtherEffect
    | SupersededByNewerHead
    | LineageSameRevisionConflict
    | LineageNoEvidence
    | SupersededDecision
    | LineageNotPresentDecision

  type Key = (string, string)

  datatype EvidenceTables = EvidenceTables(
    heads: map<Key, EvidenceRecord>,
    completions: map<Key, CompletionRecord>)

  const EMPTY_EVIDENCE := EvidenceTables(map[], map[])

  function Candidate(operation: ExternalOperation, evidenceId: string, revision: nat,
                     decision: ReconciliationDecision): EvidenceRecord
  {
    EvidenceRecord(operation.provider, operation.operationId, evidenceId, revision,
                   operation.EffectSha256(), decision)
  }

  /** What `record` returns or raises; a returned record that is not the old head is the new head. */
  function RecordOutcome(t: EvidenceTables, operation: ExternalOperation, evidenceId: string,
                         evidence: ProviderEvidence): Result<EvidenceRecord, LineageError>
  {
    var key := operation.Key();
    if IsBlank(evidenceId) then Err(BlankEvidenceId)
    else if evidence.readbackRevision.None? then Err(LineageNoRevision)
    else match ReconcileLostAck(operation, evidence)
      case Err(e) => Err(Refused(e))
      case Ok(decision) =>
        var revision := evidence.readbackRevision.value;
        if key in t.completions && t.completions[key].effect != operation.EffectSha256() then
          Err(LineageCompletedOtherEffect)
        else if key in t.completions && decision.shouldRetry then
          Err(SupersededByCompletion)
        else if key in t.heads && t.heads[key].effect != operation.EffectSha256() then
          Err(LineageHeadOtherEffect)
        else if key in t.heads && revision < t.heads[key].revision then
          Err(SupersededByNewerHead)
        else if key in t.heads && revision == t.heads[key].revision then
          if decision == t.heads[key].decision then Ok(t.heads[key])
          else Err(LineageSameRevisionConflict)
        else
          Ok(Candidate(operation, evidenceId, revision, decision))
  }

  function Recorded(t: EvidenceTables, operation: ExternalOperation, evidenceId: string,
                    evidence: ProviderEvidence): EvidenceTables
  {
    var r := RecordOutcome(t, operation, evidenceId, evidence);
    if r.Ok? then t.(heads := t.heads[operation.Key() := r.value]) else t
  }

  function CurrentOutcome(t: EvidenceTables, operation: ExternalOperation): Result<EvidenceRecord, LineageError> {
    var key := operation.Key();
    if key !in t.heads then Err(LineageNoEvidence)
    else if t.heads[key].effect != operation.EffectSha256() then Err(LineageHeadOtherEffect)
    else Ok(t.heads[key])
  }

  function CompletionOutcome(t: EvidenceTables, operation: ExternalOperation)
    : Result<Option<CompletionRecord>, LineageError>
  {
    var key := operation.Key();
    if key !in t.completions then Ok(None)
    else if t.completions[key].effect != operation.EffectSha256() then Err(LineageCompletedOtherEffect)
    else Ok(Some(t.completions[key]))
  }

  function AssertCurrentOutcome(t: EvidenceTables, operation: ExternalOperation, evidenceId: string,
                                decision: ReconciliationDecision): Result<EvidenceRecord, LineageError>
  {
    var current := CurrentOutcome(t, operation);
    if current.Err? then current
    else if current.value.evidenceId != evidenceId || current.value.decision != decision then
      Err(SupersededDecision)
    else current
  }

  function MarkOutcome(t: EvidenceTables, operation: ExternalOperation, evidenceId: string,
                       decision: ReconciliationDecision): Result<CompletionRecord, LineageError>
  {
    var key := operation.Key();
    match AssertCurrentOutcome(t, operation, evidenceId, decision)
    case Err(e) => Err(e)
    case Ok(current) =>
      if decision.shouldRetry || decision.action != AcceptRemoteCommit then
        Err(LineageNotPresentDecision)
      else if key in t.completions then
        if t.completions[key].effect != operation.EffectSha256() then Err(LineageCompletedOtherEffect)
        else Ok(t.completions[key])
      else
        Ok(CompletionRecord(operation.provider, operation.operationId, operation.EffectSha256(),
                            evidenceId, current.revision))
  }

  function Marked(t: EvidenceTables, operation: ExternalOperation, evidenceId: string,
                  decision: ReconciliationDecision): EvidenceTables
  {
    var r := MarkOutcome(t, operation, evidenceId, decision);
    if r.Ok? then t.(completions := t.completions[operation.Key() := r.value]) else t
  }

  function ApplyRetryOutcome(t: EvidenceTables, operation: ExternalOperation, evidenceId: string,
                             decision: ReconciliationDecision, state: ProviderState)
    : Result<ProviderState, LineageError>
  {
    match AssertCurrentOutcome(t, operation, evidenceId, decision)
    case Err(e) => Err(e)
    case Ok(_) =>
      match ApplyConditionalRetry(operation, decision, state)
      case Err(e) => Err(Refused(e))
      case Ok(s) => Ok(s)
  }

  // ----- what each call answers -----

  /** The evidence decides something for the operation, at a revision and under an evidence id. */
  predicate Recordable(o: ExternalOperation, evidenceId: string, e: ProviderEvidence) {
    !IsBlank(evidenceId) && e.readbackRevision.Some? && (ConfirmsCommit(o, e) || PermitsRetry(o, e))
  }

  /** The identity was completed with another effect. */
  predicate CompletedOther(t: EvidenceTables, o: ExternalOperation) {
    o.Key() in t.completions && t.completions[o.Key()].effect != DigestOf(o)
  }

  predicate HeadOther(t: EvidenceTables, o: ExternalOperation) {
    o.Key() in t.heads && t.heads[o.Key()].effect != DigestOf(o)
  }

  predicate IsCompleted(t: EvidenceTables, o: ExternalOperation) {
    o.Key() in t.completions && t.completions[o.Key()].effect == DigestOf(o)
  }

  predicate HasHead(t: EvidenceTables, o: ExternalOperation) {
    o.Key() in t.heads && t.heads[o.Key()].effect == DigestOf(o)
  }

  /** The record made of this evidence: an acceptance or retry authority, under the id it was recorded with. */
  predicate IsRecordOf(h: EvidenceRecord, o: ExternalOperation, evidenceId: string, e: ProviderEvidence) {
    && h.provider == o.provider && h.operationId == o.operationId
    && h.evidenceId == evidenceId && Some(h.revision) == e.readbackRevision && h.effect == DigestOf(o)
    && Decides(h.decision, o, e)
  }

  predicate Decides(d: ReconciliationDecision, o: ExternalOperation, e: ProviderEvidence) {
    if ConfirmsCommit(o, e) then d == AcceptDecision()
    else e.readbackRevision.Some? && d == RetryDecision(o, e.readbackRevision.value)
  }

  /** When a call of `record` moves the head: there was none, or its revision was smaller. */
  predicate Moves(t: EvidenceTables, o: ExternalOperation, e: ProviderEvidence)
    requires e.readbackRevision.Some?
  {
    o.Key() in t.heads ==> t.heads[o.Key()].revision < e.readbackRevision.value
  }

  /** No completion and no head stands against the evidence. */
  predicate Admits(t: EvidenceTables, o: ExternalOperation, e: ProviderEvidence) {
    && !CompletedOther(t, o) && !HeadOther(t, o)
    && (IsCompleted(t, o) ==> ConfirmsCommit(o, e))
  }

  /** Evidence is recorded exactly if nothing stands against it and it is newer than the head, or repeats it. */
  lemma RecordIsExact(t: EvidenceTables, o: ExternalOperation, evidenceId: string, e: ProviderEvidence)
    ensures var r := RecordOutcome(t, o, evidenceId, e);
            && (r.Ok? <==>
                  && Recordable(o, evidenceId, e) && Admits(t, o, e)
                  && (Moves(t, o, e)
                      || (t.heads[o.Key()].revision == e.readbackRevision.value
                          && Decides(t.heads[o.Key()].decision, o, e))))
            && (r.Ok? ==>
                  if Moves(t, o, e) then IsRecordOf(r.value, o, evidenceId, e) else r.value == t.heads[o.Key()])
  {
    DecisionsAreJustified(o, e);
    hide ConfirmsCommit, PermitsRetry, ReconcileLostAck;
  }

  /** Which refusal each other call of `record` meets, the first that applies. */
  lemma RecordRefusals(t: EvidenceTables, o: ExternalOperation, evidenceId: string, e: ProviderEvidence)
    ensures var r, key := RecordOutcome(t, o, evidenceId, e), o.Key();
            && (r == Err(BlankEvidenceId) <==> IsBlank(evidenceId))
            && (r == Err(LineageNoRevision) <==> !IsBlank(evidenceId) && e.readbackRevision.None?)
            && (r.Err? && r.error.Refused? <==>
                  !IsBlank(evidenceId) && e.readbackRevision.Some? && !ConfirmsCommit(o, e) && !PermitsRetry(o, e))
            && (r.Err? && r.error.Refused? ==> ReconcileLostAck(o, e) == Err(r.error.cause))
            && (r == Err(LineageCompletedOtherEffect) <==> Recordable(o, evidenceId, e) && CompletedOther(t, o))
            && (r == Err(SupersededByCompletion) <==>
                  Recordable(o, evidenceId, e) && IsCompleted(t, o) && !ConfirmsCommit(o, e))
  {
    DecisionsAreJustified(o, e);
    hide ConfirmsCommit, PermitsRetry, ReconcileLostAck;
  }

  lemma RecordHeadRefusals(t: EvidenceTables, o: ExternalOperation, evidenceId: string, e: ProviderEvidence)
    ensures var r, key := RecordOutcome(t, o, evidenceId, e), o.Key();
            var open := Recordable(o, evidenceId, e) && !CompletedOther(t, o)
                && (IsCompleted(t, o) ==> ConfirmsCommit(o, e));
            && (r == Err(LineageHeadOtherEffect) <==> open && HeadOther(t, o))
            && (r == Err(SupersededByNewerHead) <==>
                  open && HasHead(t, o) && e.readbackRevision.value < t.heads[key].revision)
            && (r == Err(LineageSameRevisionConflict) <==>
                  && open && HasHead(t, o) && e.readbackRevision.value == t.heads[key].revision
                  && !Decides(t.heads[key].decision, o, e))
  {
    DecisionsAreJustified(o, e);
    hide ConfirmsCommit, PermitsRetry, ReconcileLostAck;
  }

  /** Evidence id and decision are current exactly when they are the head's own. */
  predicate IsCurrent(t: EvidenceTables, o: ExternalOperation, evidenceId: string, d: ReconciliationDecision) {
    HasHead(t, o) && t.heads[o.Key()].evidenceId == evidenceId && t.heads[o.Key()].decision == d
  }

  /** A recorded head is current authority under its own id and decision. */
  lemma RecordedIsCurrent(t: EvidenceTables, o: ExternalOperation, evidenceId: string, e: ProviderEvidence)
    ensures var r, t' := RecordOutcome(t, o, evidenceId, e), Recorded(t, o, evidenceId, e);
            && (r.Err? ==> t' == t)
            && (r.Ok? ==>
                  && t'.completions == t.completions && t'.heads == t.heads[o.Key() := r.value]
                  && AssertCurrentOutcome(t', o, r.value.evidenceId, r.value.decision) == Ok(r.value)
                  && (Moves(t, o, e) ==> r.value.evidenceId == evidenceId))
  {
    RecordIsExact(t, o, evidenceId, e);
    hide RecordOutcome;
  }

  lemma RecordedAnswer(t: EvidenceTables, o: ExternalOperation, evidenceId: string, e: ProviderEvidence)
    ensures var r, t' := RecordOutcome(t, o, evidenceId, e), Recorded(t, o, evidenceId, e);
            r.Ok? ==> e.readbackRevision.Some? && IsCurrent(t', o, r.value.evidenceId, r.value.decision)
  {
    RecordIsExact(t, o, evidenceId, e);
    hide ConfirmsCommit, PermitsRetry, RecordOutcome;
  }

  lemma CurrentIsExact(t: EvidenceTables, o: ExternalOperation, evidenceId: string, d: ReconciliationDecision)
    ensures var r := CurrentOutcome(t, o);
            && (r.Ok? <==> HasHead(t, o)) && (r.Ok? ==> r.value == t.heads[o.Key()])
            && (r == Err(LineageNoEvidence) <==> o.Key() !in t.heads)
            && (r == Err(LineageHeadOtherEffect) <==> HeadOther(t, o))
    ensures var r := CompletionOutcome(t, o);
            && (r.Ok? <==> !CompletedOther(t, o))
            && (r.Ok? ==> r.value == if IsCompleted(t, o) then Some(t.completions[o.Key()]) else None)
            && (r.Err? ==> r == Err(LineageCompletedOtherEffect))
    ensures var r := AssertCurrentOutcome(t, o, evidenceId, d);
            && (r.Ok? <==> IsCurrent(t, o, evidenceId, d)) && (r.Ok? ==> r.value == t.heads[o.Key()])
            && (r == Err(LineageNoEvidence) <==> o.Key() !in t.heads)
            && (r == Err(LineageHeadOtherEffect) <==> HeadOther(t, o))
            && (r == Err(SupersededDecision) <==> HasHead(t, o) && !IsCurrent(t, o, evidenceId, d))
  {
  }

  predicate Accepts(d: ReconciliationDecision) {
    !d.shouldRetry && d.action == AcceptRemoteCommit
  }

  /** An operation is completed exactly from its current acceptance, once; the completion bears the head's evidence. */
  lemma MarkIsExact(t: EvidenceTables, o: ExternalOperation, evidenceId: string, d: ReconciliationDecision)
    ensures var r, t' := MarkOutcome(t, o, evidenceId, d), Marked(t, o, evidenceId, d);
            && (r.Ok? <==> IsCurrent(t, o, evidenceId, d) && Accepts(d) && !CompletedOther(t, o))
            && (r.Ok? && IsCompleted(t, o) ==> r.value == t.completions[o.Key()] && t' == t)
            && (r.Ok? && !IsCompleted(t, o) ==>
                  && r.value.provider == o.provider && r.value.operationId == o.operationId
                  && r.value.effect == DigestOf(o) && r.value.evidenceId == evidenceId
                  && r.value.revision == t.heads[o.Key()].revision
                  && t'.heads == t.heads && t'.completions == t.completions[o.Key() := r.value])
            && (r.Err? ==> t' == t)
            && (r == Err(LineageNoEvidence) <==> o.Key() !in t.heads)
            && (r == Err(LineageHeadOtherEffect) <==> HeadOther(t, o))
            && (r == Err(SupersededDecision) <==> HasHead(t, o) && !IsCurrent(t, o, evidenceId, d))
            && (r == Err(LineageNotPresentDecision) <==> IsCurrent(t, o, evidenceId, d) && !Accepts(d))
            && (r == Err(LineageCompletedOtherEffect) <==>
                  IsCurrent(t, o, evidenceId, d) && Accepts(d) && CompletedOther(t, o))
  {
  }

  /** A retry goes through exactly when its authority is current in the store and at the provider, and the identity
      is free there; and then it commits the operation. */
  lemma ApplyRetryIsExact(t: EvidenceTables, o: ExternalOperation, evidenceId: string, d: ReconciliationDecision,
      s: ProviderState)
    ensures var r := ApplyRetryOutcome(t, o, evidenceId, d, s);
            && (r.Ok? <==>
                  IsCurrent(t, o, evidenceId, d) && IsCurrentAuthority(d, o, s.revision)
                      && !HoldsIdentity(s.effects, o))
            && (r.Ok? ==> r.value.revision == s.revision + 1 && r.value.effects == s.effects + [o])
            && (r == Err(LineageNoEvidence) <==> o.Key() !in t.heads)
            && (r == Err(LineageHeadOtherEffect) <==> HeadOther(t, o))
            && (r == Err(SupersededDecision) <==> HasHead(t, o) && !IsCurrent(t, o, evidenceId, d))
            && (r.Err? && r.error.Refused? <==> IsCurrent(t, o, evidenceId, d) && ApplyConditionalRetry(o, d, s).Err?)
            && (r.Err? && r.error.Refused? ==> ApplyConditionalRetry(o, d, s) == Err(r.error.cause))
  {
    hide ApplyConditionalRetry, HoldsIdentity;
    ConditionalRetryIsExact(o, d, s);
  }

  // ----- safety against any caller -----

  /** One call of a caller that may present any evidence, decision or evidence id. */
  datatype StoreCall =
    | CallRecord(operation: ExternalOperation, evidenceId: string, evidence: ProviderEvidence)
    | CallMark(operation: ExternalOperation, evidenceId: string, decision: ReconciliationDecision)

  function AfterCall(t: EvidenceTables, call: StoreCall): EvidenceTables {
    match call
    case CallRecord(operation, evidenceId, evidence) => Recorded(t, operation, evidenceId, evidence)
    case CallMark(operation, evidenceId, decision) => Marked(t, operation, evidenceId, decision)
  }

  function AfterCalls(t: EvidenceTables, calls: seq<StoreCall>): EvidenceTables
    decreases |calls|
  {
    if calls == [] then t else AfterCalls(AfterCall(t, calls[0]), calls[1..])
  }

  ghost predicate Coherent(t: EvidenceTables) {
    && (forall k | k in t.heads ::
          var h := t.heads[k];
          && (h.provider, h.operationId) == k
          && (h.decision.shouldRetry <==> h.decision.action == RetryExactOperation))
    && (forall k | k in t.completions ::
          && (t.completions[k].provider, t.completions[k].operationId) == k
          && k in t.heads
          && t.heads[k].effect == t.completions[k].effect
          && t.heads[k].decision.action == AcceptRemoteCommit
          && t.completions[k].revision <= t.heads[k].revision)
  }

  /** What the store may do to the history it already holds. */
  ghost predicate Extends(t: EvidenceTables, t': EvidenceTables) {
    && (forall k | k in t.heads ::
          && k in t'.heads
          && t'.heads[k].effect == t.heads[k].effect
          && (t'.heads[k] != t.heads[k] ==> t.heads[k].revision < t'.heads[k].revision))
    && (forall k | k in t.completions :: k in t'.completions && t'.completions[k] == t.completions[k])
  }

  lemma RecordIsSafe(t: EvidenceTables, o: ExternalOperation, evidenceId: string, evidence: ProviderEvidence)
    requires Coherent(t)
    ensures Coherent(Recorded(t, o, evidenceId, evidence)) && Extends(t, Recorded(t, o, evidenceId, evidence))
  {
    hide PermitsRetry, ConfirmsCommit, ReconcileLostAck;
    DecisionsAreJustified(o, evidence);
  }

  lemma MarkIsSafe(t: EvidenceTables, o: ExternalOperation, evidenceId: string, decision: ReconciliationDecision)
    requires Coherent(t)
    ensures Coherent(Marked(t, o, evidenceId, decision)) && Extends(t, Marked(t, o, evidenceId, decision))
  {
  }

  lemma CallIsSafe(t: EvidenceTables, call: StoreCall)
    requires Coherent(t)
    ensures Coherent(AfterCall(t, call)) && Extends(t, AfterCall(t, call))
  {
    hide Coherent, Extends, Recorded, Marked;
    match call {
      case CallRecord(o, id, evidence) => RecordIsSafe(t, o, id, evidence);
      case CallMark(o, id, decision) => MarkIsSafe(t, o, id, decision);
    }
  }

  lemma ExtendsTransitive(a: EvidenceTables, b: EvidenceTables, c: EvidenceTables)
    requires Extends(a, b) && Extends(b, c)
    ensures Extends(a, c)
  {
  }

  /** Over any sequence of calls, dishonest ones included: heads move only to larger revisions
      and never to another effect, completions never change, and completed operations keep an
      accepting head at least as new as the completion. */
  lemma {:induction false} StoreIsSafe(t: EvidenceTables, calls: seq<StoreCall>)
    requires Coherent(t)
    ensures Coherent(AfterCalls(t, calls)) && Extends(t, AfterCalls(t, calls))
    decreases |calls|
  {
    if calls != [] {
      CallIsSafe(t, calls[0]);
      StoreIsSafe(AfterCall(t, calls[0]), calls[1..]);
      ExtendsTransitive(t, AfterCall(t, calls[0]), AfterCalls(t, calls));
    }
  }

  /** Once an identity is completed, no later call sequence lets any retry through for it:
      not with any operation of that identity, evidence id, decision or provider state. */
  lemma NoRetryAfterCompletion(calls: seq<StoreCall>, later: seq<StoreCall>, operation: ExternalOperation,
                               evidenceId: string, decision: ReconciliationDecision, state: ProviderState)
    requires operation.Key() in AfterCalls(EMPTY_EVIDENCE, calls).completions
    ensures ApplyRetryOutcome(AfterCalls(EMPTY_EVIDENCE, calls + later), operation, evidenceId, decision, state).Err?
  {
    var t := AfterCalls(EMPTY_EVIDENCE, calls);
    StoreIsSafe(EMPTY_EVIDENCE, calls);
    StoreIsSafe(t, later);
    AfterCallsConcat(EMPTY_EVIDENCE, calls, later);
  }

  lemma {:induction false} AfterCallsConcat(t: EvidenceTables, a: seq<StoreCall>, b: seq<StoreCall>)
    ensures AfterCalls(t, a + b) == AfterCalls(AfterCalls(t, a), b)
    decreases |a|
  {
    if a == [] {
      assert a + b == b;
    } else {
      assert (a + b)[0] == a[0] && (a + b)[1..] == a[1..] + b;
      AfterCallsConcat(AfterCall(t, a[0]), a[1..], b);
    }
  }

  /** Persists one head and one completion a key; each method is one transaction. */
  class ReconciliationEvidenceStore {
    var heads: map<Key, EvidenceRecord>
    var completions: map<Key, CompletionRecord>

    function Tables(): EvidenceTables
      reads this
    {
      EvidenceTables(heads, completions)
    }

    ghost predicate Valid()
      reads this
    {
      Coherent(Tables())
    }

    constructor ()
      ensures Valid() && Tables() == EMPTY_EVIDENCE
    {
      heads, completions := map[], map[];
    }

    method Record(operation: ExternalOperation, evidenceId: string, evidence: ProviderEvidence)
      returns (r: Result<EvidenceRecord, LineageError>)
      requires Valid()
      modifies this`heads
      ensures Valid() && Extends(old(Tables()), Tables())
      ensures r == RecordOutcome(old(Tables()), operation, evidenceId, evidence)
      ensures Tables() == Recorded(old(Tables()), operation, evidenceId, evidence)
      ensures r.Ok? ==>
                && heads == old(heads)[operation.Key() := r.value]
                && (if Moves(old(Tables()), operation, evidence)
                    then IsRecordOf(r.value, operation, evidenceId, evidence)
                    else r.value == old(heads)[operation.Key()])
                && IsCurrent(Tables(), operation, r.value.evidenceId, r.value.decision)
    {
      hide Coherent, Extends, IsRecordOf, IsCurrent;
      RecordIsExact(Tables(), operation, evidenceId, evidence);
      RecordedAnswer(Tables(), operation, evidenceId, evidence);
      RecordedIsCurrent(Tables(), operation, evidenceId, evidence);
      CallIsSafe(Tables(), CallRecord(operation, evidenceId, evidence));
      if IsBlank(evidenceId) {
        return Err(BlankEvidenceId);
      }
      if evidence.readbackRevision.None? {
        return Err(LineageNoRevision);
      }
      var decision := ReconcileLostAck(operation, evidence);
      if decision.Err? {
        return Err(Refused(decision.error));
      }
      var candidate := Candidate(operation, evidenceId, evidence.readbackRevision.value, decision.value);
      if operation.Key() in completions {
        var completion := completions[operation.Key()];
        if completion.effect != operation.EffectSha256() {
          return Err(LineageCompletedOtherEffect);
        }
        if candidate.decision.shouldRetry {
          return Err(SupersededByCompletion);
        }
      }
      if operation.Key() in heads {
        var current := heads[operation.Key()];
        if current.effect != operation.EffectSha256() {
          return Err(LineageHeadOtherEffect);
        }
        if candidate.revision < current.revision {
          return Err(SupersededByNewerHead);
        }
        if candidate.revision == current.revision {
          if candidate.effect == current.effect && candidate.decision == current.decision {
            assert heads[operation.Key() := current] == heads;
            return Ok(current);
          }
          return Err(LineageSameRevisionConflict);
        }
      }
      heads := heads[operation.Key() := candidate];
      r := Ok(candidate);
    }

    /** A completed operation has an accepting head, at least as new as its completion. */
    method Current(operation: ExternalOperation) returns (r: Result<EvidenceRecord, LineageError>)
      requires Valid()
      ensures r == CurrentOutcome(Tables(), operation)
      ensures operation.Key() in completions && r.Ok? ==>
                && r.value.decision.action == AcceptRemoteCommit && !r.value.decision.shouldRetry
                && completions[operation.Key()].revision <= r.value.revision
    {
      if operation.Key() !in heads {
        return Err(LineageNoEvidence);
      }
      var record := heads[operation.Key()];
      if record.effect != operation.EffectSha256() {
        return Err(LineageHeadOtherEffect);
      }
      r := Ok(record);
    }

    /** What is reported as completed has a head of the same effect. */
    method Completion(operation: ExternalOperation) returns (r: Result<Option<CompletionRecord>, LineageError>)
      requires Valid()
      ensures r == CompletionOutcome(Tables(), operation)
      ensures r.Ok? && r.value.Some? ==>
                && CurrentOutcome(Tables(), operation).Ok?
                && CurrentOutcome(Tables(), operation).value.decision.action == AcceptRemoteCommit
                && r.value.value.revision <= CurrentOutcome(Tables(), operation).value.revision
    {
      if operation.Key() !in completions {
        return Ok(None);
      }
      var completion := completions[operation.Key()];
      if completion.effect != operation.EffectSha256() {
        return Err(LineageCompletedOtherEffect);
      }
      r := Ok(Some(completion));
    }

    method MarkReconciled(operation: ExternalOperation, evidenceId: string, decision: ReconciliationDecision)
      returns (r: Result<CompletionRecord, LineageError>)
      requires Valid()
      modifies this`completions
      ensures Valid() && Extends(old(Tables()), Tables())
      ensures r == MarkOutcome(old(Tables()), operation, evidenceId, decision)
      ensures Tables() == Marked(old(Tables()), operation, evidenceId, decision)
    {
      CallIsSafe(Tables(), CallMark(operation, evidenceId, decision));
      var key := operation.Key();
      if key !in heads {
        return Err(LineageNoEvidence);
      }
      var current := heads[key];
      if current.effect != operation.EffectSha256() {
        return Err(LineageHeadOtherEffect);
      }
      if current.evidenceId != evidenceId || current.decision != decision {
        return Err(SupersededDecision);
      }
      if decision.shouldRetry || decision.action != AcceptRemoteCommit {
        return Err(LineageNotPresentDecision);
      }
      if key in completions {
        var existing := completions[key];
        if existing.effect != operation.EffectSha256() {
          return Err(LineageCompletedOtherEffect);
        }
        assert completions[key := existing] == completions;
        return Ok(existing);
      }
      var completion := CompletionRecord(operation.provider, operation.operationId,
                                         operation.EffectSha256(), evidenceId, current.revision);
      completions := completions[key := completion];
      r := Ok(completion);
    }

    method AssertCurrent(operation: ExternalOperation, evidenceId: string, decision: ReconciliationDecision)
      returns (r: Result<EvidenceRecord, LineageError>)
      requires Valid()
      ensures r == AssertCurrentOutcome(Tables(), operation, evidenceId, decision)
      ensures operation.Key() in completions && decision.shouldRetry ==> r.Err?
    {
      r := Current(operation);
      if r.Ok? && (r.value.evidenceId != evidenceId || r.value.decision != decision) {
        r := Err(SupersededDecision);
      }
    }

    method ApplyRetry(operation: ExternalOperation, evidenceId: string, decision: ReconciliationDecision,
                      state: ProviderState) returns (r: Result<ProviderState, LineageError>)
      requires Valid()
      ensures r == ApplyRetryOutcome(Tables(), operation, evidenceId, decision, state)
      ensures operation.Key() in completions ==> r.Err?
      ensures r.Ok? <==>
                && IsCurrent(Tables(), operation, evidenceId, decision)
                && IsCurrentAuthority(decision, operation, state.revision)
                && !HoldsIdentity(state.effects, operation)
      ensures r.Ok? ==> r.value == ProviderState(state.revision + 1, state.effects + [operation])
    {
      ApplyRetryIsExact(Tables(), operation, evidenceId, decision, state);
      var current := AssertCurrent(operation, evidenceId, decision);
      if current.Err? {
        return Err(current.error);
      }
      var applied := ApplyConditionalRetry(operation, decision, state);
      r := if applied.Err? then Err(Refused(applied.error)) else Ok(applied.value);
    }
  }
}
