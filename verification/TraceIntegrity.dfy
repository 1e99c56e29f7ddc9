/** The trace detector: one pass over the records of a trace that collects violation labels.
    `TraceClean.ValidateTrace` puts its parts together. */
module TraceIntegrity {
  import opened Common

  /** What an effect fingerprint is the digest of. */
  datatype EffectPreimage = EffectPreimage(provider: string, operationId: string, tool: string,
      payload: Sha256<EffectPreimage>)

  type Digest = Sha256<EffectPreimage>

  datatype EventKind = OutputEvent | CompletedEvent | FailedEvent | OtherEvent(text: string)

  datatype Decision = Approved | Denied | OtherDecision(text: string)

  datatype Readback = Present | Absent | Ambiguous | OtherReadback(text: string)

  datatype Body =
    | RuntimeEvent(runId: string, turnId: string, eventId: string, eventKind: EventKind, payload: Digest)
    | Checkpoint(runId: string, checkpointId: string, parent: Option<string>, checkpointSequence: int,
                 plan: Digest, completedCount: int)
    | Approval(provider: string, operationId: string, tool: string, payload: Digest, effect: Digest, decision: Decision)
    | Effect(provider: string, operationId: string, tool: string, payload: Digest, effect: Digest)
    | Evidence(provider: string, operationId: string, evidenceId: string, revision: int, readback: Readback,
        effect: Digest)
    | Completion(provider: string, operationId: string, evidenceId: string, revision: int, effect: Digest)
    | UnknownKind
  {
    predicate Binds() { Approval? || Effect? }

    predicate OfOperation() { Approval? || Effect? || Evidence? || Completion? }

    predicate Decides(d: Decision) { Approval? && decision == d }
  }

  datatype Record = Record(recordId: string, sequence: int, body: Body)

  datatype Scope = Scope(runId: string, turnId: string, provider: string, operationId: string)

  datatype Violation =
    | ScopeRunIdInvalid | ScopeTurnIdInvalid | ScopeProviderInvalid | ScopeOperationIdInvalid
    | RecordIdInvalid | RecordSequenceInvalid | RecordKindInvalid
    | EventRunScopeMismatch | EventTurnScopeMismatch | EventIdInvalid | EventIdDuplicate | EventKindInvalid
    | EventPayloadInvalid
    | CheckpointRunScopeMismatch
    | OperationScopeMismatch | ProviderScopeMismatch
    | OperationToolInvalid | OperationPayloadInvalid | ApprovalEffectBindingMismatch
    | ApprovalDecisionInvalid | ApprovalFingerprintMismatch
    | EffectFingerprintMismatch | EffectWithoutPriorApproval | EffectAfterDenial
    | EvidenceIdInvalid | EvidenceIdDuplicate | RevisionInvalid | ReadbackInvalid | EvidenceFingerprintMismatch
    | RevisionRollback | SameRevisionConflict
    | MultipleCompletions | CompletionFingerprintMismatch | CompletionEvidenceMissing | CompletionRequiresPresent
    | CompletionRevisionMismatch | CompletionEvidenceEffectMismatch | CompletionNotLatestRevision
    | SequenceNotStrictlyIncreasing | RecordIdDuplicate
    | CheckpointIdInvalid | CheckpointSequenceInvalid | CheckpointCompletedCountInvalid | CheckpointPlanInvalid
    | CheckpointRootParentNotNull | CheckpointRootSequenceNotZero | CheckpointParentMismatch | CheckpointSequenceGap
    | CheckpointPlanDrift | CheckpointProgressRollback

  predicate IsSha256(d: Digest) { !d.NotHex? }

  function EffectFingerprint(scope: Scope, tool: string, payload: Digest): Digest {
    DigestOf(EffectPreimage(scope.provider, scope.operationId, tool, payload))
  }

  /** A fingerprint is that of one provider, operation, tool and payload. */
  lemma FingerprintIsInjective(a: Scope, tool: string, payload: Digest, b: Scope, tool': string, payload': Digest)
    requires EffectFingerprint(a, tool, payload) == EffectFingerprint(b, tool', payload')
    ensures a.provider == b.provider && a.operationId == b.operationId && tool == tool' && payload == payload'
    ensures IsSha256(EffectFingerprint(a, tool, payload))
  {
  }

  // ----- what the pass knows after a prefix of the records -----

  function EventIds(rs: seq<Record>): set<string> {
    set r | r in rs && r.body.RuntimeEvent? && r.body.eventId != "" :: r.body.eventId
  }

  type Binding = Option<(string, Digest)>

  function Bound(binding: Binding, tool: string, payload: Digest): Binding {
    if binding.Some? then binding else if IsSha256(payload) then Some((tool, payload)) else None
  }

  /** The tool and payload of the first approval or effect whose payload digest is well formed. */
  function BindingOf(rs: seq<Record>): Binding {
    if rs == [] then None
    else
      var before, last := BindingOf(rs[..|rs| - 1]), rs[|rs| - 1].body;
      if last.Binds() then Bound(before, last.tool, last.payload) else before
  }

  function Expected(scope: Scope, binding: Binding): Option<Digest> {
    if binding.None? then None else Some(EffectFingerprint(scope, binding.value.0, binding.value.1))
  }

  predicate Differs(expected: Option<Digest>, effect: Digest) {
    expected.Some? && effect != expected.value
  }

  /** The sequence of the last approval record with this decision. */
  function LastDecided(rs: seq<Record>, d: Decision): Option<int> {
    if rs == [] then None
    else if rs[|rs| - 1].body.Decides(d) then Some(rs[|rs| - 1].sequence)
    else LastDecided(rs[..|rs| - 1], d)
  }

  function History(rs: seq<Record>): seq<Body> {
    if rs == [] then []
    else History(rs[..|rs| - 1]) + (if rs[|rs| - 1].body.Evidence? then [rs[|rs| - 1].body] else [])
  }

  function Checkpoints(rs: seq<Record>): seq<Body> {
    if rs == [] then []
    else Checkpoints(rs[..|rs| - 1]) + (if rs[|rs| - 1].body.Checkpoint? then [rs[|rs| - 1].body] else [])
  }

  /** The first evidence listed under each nonempty id. */
  function EvidenceById(rs: seq<Record>): map<string, Body> {
    if rs == [] then map[]
    else
      var before, last := EvidenceById(rs[..|rs| - 1]), rs[|rs| - 1].body;
      if last.Evidence? && last.evidenceId != "" && last.evidenceId !in before
      then before[last.evidenceId := last]
      else before
  }

  function CompletionCount(rs: seq<Record>): nat {
    if rs == [] then 0
    else CompletionCount(rs[..|rs| - 1]) + (if rs[|rs| - 1].body.Completion? then 1 else 0)
  }

  function SequencesOf(rs: seq<Record>): seq<int> {
    if rs == [] then []
    else SequencesOf(rs[..|rs| - 1]) + (if rs[|rs| - 1].sequence > 0 then [rs[|rs| - 1].sequence] else [])
  }

  function RecordIdsOf(rs: seq<Record>): seq<string> {
    if rs == [] then []
    else RecordIdsOf(rs[..|rs| - 1]) + (if rs[|rs| - 1].recordId != "" then [rs[|rs| - 1].recordId] else [])
  }

  function MaxRevision(history: seq<Body>): int
    requires history != [] && forall e | e in history :: e.Evidence?
  {
    var last := history[|history| - 1].revision;
    if |history| == 1 then last
    else
      var before := MaxRevision(history[..|history| - 1]);
      if last > before then last else before
  }

  // ----- the labels of each record -----

  function Raise(found: set<Violation>, raised: bool, v: Violation): (f: set<Violation>)
    ensures f == {} <==> found == {} && !raised
  {
    if raised then found + {v} else found
  }

  function ScopeFlags(scope: Scope): set<Violation> {
    var f := Raise({}, scope.runId == "", ScopeRunIdInvalid);
    var f := Raise(f, scope.turnId == "", ScopeTurnIdInvalid);
    var f := Raise(f, scope.provider == "", ScopeProviderInvalid);
    Raise(f, scope.operationId == "", ScopeOperationIdInvalid)
  }

  function CommonFlags(scope: Scope, r: Record): set<Violation> {
    var f := Raise({}, r.recordId == "", RecordIdInvalid);
    var f := Raise(f, r.sequence <= 0, RecordSequenceInvalid);
    var f := Raise(f, r.body.OfOperation() && r.body.operationId != scope.operationId, OperationScopeMismatch);
    Raise(f, r.body.OfOperation() && r.body.provider != scope.provider, ProviderScopeMismatch)
  }

  function EventFlags(scope: Scope, eventIds: set<string>, e: Body): set<Violation>
    requires e.RuntimeEvent?
  {
    var f := Raise({}, e.runId != scope.runId, EventRunScopeMismatch);
    var f := Raise(f, e.turnId != scope.turnId, EventTurnScopeMismatch);
    var f := Raise(f, e.eventId == "", EventIdInvalid);
    var f := Raise(f, e.eventId != "" && e.eventId in eventIds, EventIdDuplicate);
    var f := Raise(f, e.eventKind.OtherEvent?, EventKindInvalid);
    Raise(f, !IsSha256(e.payload), EventPayloadInvalid)
  }

  function BindingFlags(binding: Binding, o: Body): set<Violation>
    requires o.Binds()
  {
    var f := Raise({}, o.tool == "", OperationToolInvalid);
    var f := Raise(f, !IsSha256(o.payload), OperationPayloadInvalid);
    Raise(f, IsSha256(o.payload) && binding.Some? && binding.value != (o.tool, o.payload),
          ApprovalEffectBindingMismatch)
  }

  function ApprovalFlags(found: set<Violation>, expected: Option<Digest>, a: Body): set<Violation>
    requires a.Approval?
  {
    var f := Raise(found, a.decision.OtherDecision?, ApprovalDecisionInvalid);
    Raise(f, Differs(expected, a.effect), ApprovalFingerprintMismatch)
  }

  function EffectFlags(found: set<Violation>, expected: Option<Digest>, approved: Option<int>, denied: Option<int>,
                       sequence: int, e: Body): set<Violation>
    requires e.Effect?
  {
    var f := Raise(found, Differs(expected, e.effect), EffectFingerprintMismatch);
    var f := Raise(f, approved.None? || approved.value >= sequence, EffectWithoutPriorApproval);
    Raise(f, denied.Some? && denied.value < sequence, EffectAfterDenial)
  }

  function EvidenceFlags(expected: Option<Digest>, byId: map<string, Body>, previous: Option<Body>,
      e: Body): set<Violation>
    requires e.Evidence? && (previous.Some? ==> previous.value.Evidence?)
  {
    var f := Raise({}, e.evidenceId == "", EvidenceIdInvalid);
    var f := Raise(f, e.evidenceId != "" && e.evidenceId in byId, EvidenceIdDuplicate);
    var f := Raise(f, e.revision < 0, RevisionInvalid);
    var f := Raise(f, e.readback.OtherReadback?, ReadbackInvalid);
    var f := Raise(f, Differs(expected, e.effect), EvidenceFingerprintMismatch);
    var f := Raise(f, previous.Some? && e.revision < previous.value.revision, RevisionRollback);
    Raise(f, && previous.Some? && e.revision == previous.value.revision
             && (previous.value.readback != e.readback || previous.value.effect != e.effect), SameRevisionConflict)
  }

  /** The labels of a completion against the evidence that it names. */
  function NamedEvidenceFlags(found: set<Violation>, evidence: Option<Body>, c: Body): set<Violation>
    requires c.Completion? && (evidence.Some? ==> evidence.value.Evidence?)
  {
    var f := Raise(found, evidence.None?, CompletionEvidenceMissing);
    var f := Raise(f, evidence.Some? && evidence.value.readback != Present, CompletionRequiresPresent);
    var f := Raise(f, evidence.Some? && evidence.value.revision != c.revision, CompletionRevisionMismatch);
    Raise(f, evidence.Some? && evidence.value.effect != c.effect, CompletionEvidenceEffectMismatch)
  }

  /** The labels of a completion, given the evidence that it names and the largest revision so far. */
  function CompletionFlagsOf(expected: Option<Digest>, evidence: Option<Body>, latest: Option<int>, earlier: nat,
      c: Body): set<Violation>
    requires c.Completion? && (evidence.Some? ==> evidence.value.Evidence?)
  {
    var f := Raise({}, earlier > 0, MultipleCompletions);
    var f := Raise(f, Differs(expected, c.effect), CompletionFingerprintMismatch);
    var f := NamedEvidenceFlags(f, evidence, c);
    Raise(f, latest.Some? && c.revision != latest.value, CompletionNotLatestRevision)
  }

  function CompletionFlags(expected: Option<Digest>, byId: map<string, Body>, history: seq<Body>, earlier: nat,
      c: Body): set<Violation>
    requires c.Completion? && (forall h | h in history :: h.Evidence?) && (forall id | id in byId :: byId[id].Evidence?)
  {
    CompletionFlagsOf(expected, if c.evidenceId in byId then Some(byId[c.evidenceId]) else None,
                      if history != [] then Some(MaxRevision(history)) else None, earlier, c)
  }

  lemma {:induction false} OnlyEvidence(rs: seq<Record>)
    ensures forall h | h in History(rs) :: h.Evidence?
    ensures forall id | id in EvidenceById(rs) :: EvidenceById(rs)[id].Evidence?
    ensures forall c | c in Checkpoints(rs) :: c.Checkpoint?
  {
    if rs != [] {
      OnlyEvidence(rs[..|rs| - 1]);
    }
  }

  function Last(cs: seq<Body>): Option<Body> {
    if cs == [] then None else Some(cs[|cs| - 1])
  }

  /** The variables of the pass. */
  datatype Pass = Pass(
    sequences: seq<int>,
    recordIds: seq<string>,
    eventIds: set<string>,
    binding: Binding,
    expectedEffect: Option<Digest>,
    approvedSequence: Option<int>,
    deniedSequence: Option<int>,
    checkpoints: seq<Body>,
    evidenceById: map<string, Body>,
    evidenceHistory: seq<Body>,
    completionCount: nat)
  {
    ghost predicate Typed(scope: Scope) {
      && (forall h | h in evidenceHistory :: h.Evidence?)
      && (forall id | id in evidenceById :: evidenceById[id].Evidence?)
      && (forall c | c in checkpoints :: c.Checkpoint?)
      && expectedEffect == Expected(scope, binding)
    }
  }

  /** What the variables hold after the records `rs`. */
  function PassOf(scope: Scope, rs: seq<Record>): (p: Pass)
    ensures p.Typed(scope)
  {
    OnlyEvidence(rs);
    Pass(SequencesOf(rs), RecordIdsOf(rs), EventIds(rs), BindingOf(rs), Expected(scope, BindingOf(rs)),
         LastDecided(rs, Approved), LastDecided(rs, Denied), Checkpoints(rs), EvidenceById(rs), History(rs),
             CompletionCount(rs))
  }

  /** The labels of the kind of a record. */
  function KindFlags(scope: Scope, p: Pass, r: Record): set<Violation>
    requires p.Typed(scope)
  {
    var b := r.body;
    match b
    case UnknownKind => {RecordKindInvalid}
    case RuntimeEvent(_, _, _, _, _) => EventFlags(scope, p.eventIds, b)
    case Checkpoint(_, _, _, _, _, _) => Raise({}, b.runId != scope.runId, CheckpointRunScopeMismatch)
    case Approval(_, _, _, _, _, _) =>
      ApprovalFlags(BindingFlags(p.binding, b), Expected(scope, Bound(p.binding, b.tool, b.payload)), b)
    case Effect(_, _, _, _, _) =>
      EffectFlags(BindingFlags(p.binding, b), Expected(scope, Bound(p.binding, b.tool, b.payload)),
                  p.approvedSequence, p.deniedSequence, r.sequence, b)
    case Evidence(_, _, _, _, _, _) => EvidenceFlags(p.expectedEffect, p.evidenceById, Last(p.evidenceHistory), b)
    case Completion(_, _, _, _, _) =>
      CompletionFlags(p.expectedEffect, p.evidenceById, p.evidenceHistory, p.completionCount, b)
  }

  function RecordFlags(scope: Scope, before: seq<Record>, r: Record): set<Violation> {
    CommonFlags(scope, r) + KindFlags(scope, PassOf(scope, before), r)
  }

  function RecordsFlags(scope: Scope, rs: seq<Record>): set<Violation> {
    if rs == [] then {}
    else RecordsFlags(scope, rs[..|rs| - 1]) + RecordFlags(scope, rs[..|rs| - 1], rs[|rs| - 1])
  }

  function OrderFlags(sequences: seq<int>, recordIds: seq<string>): set<Violation> {
    var f := Raise({}, !InOrder(sequences), SequenceNotStrictlyIncreasing);
    Raise(f, |recordIds| != |Elements(recordIds)|, RecordIdDuplicate)
  }

  function CheckpointFieldFlags(found: set<Violation>, c: Body): set<Violation>
    requires c.Checkpoint?
  {
    var f := Raise(found, c.checkpointId == "", CheckpointIdInvalid);
    var f := Raise(f, c.checkpointSequence < 0, CheckpointSequenceInvalid);
    var f := Raise(f, c.completedCount < 0, CheckpointCompletedCountInvalid);
    Raise(f, !IsSha256(c.plan), CheckpointPlanInvalid)
  }

  function CheckpointLinkFlags(found: set<Violation>, previous: Option<Body>, c: Body): set<Violation>
    requires c.Checkpoint? && (previous.Some? ==> previous.value.Checkpoint?)
  {
    match previous
    case None =>
      var f := Raise(found, c.parent.Some?, CheckpointRootParentNotNull);
      Raise(f, c.checkpointSequence != 0, CheckpointRootSequenceNotZero)
    case Some(p) =>
      var f := Raise(found, c.parent != Some(p.checkpointId), CheckpointParentMismatch);
      var f := Raise(f, c.checkpointSequence != p.checkpointSequence + 1, CheckpointSequenceGap);
      var f := Raise(f, c.plan != p.plan, CheckpointPlanDrift);
      Raise(f, c.completedCount < p.completedCount, CheckpointProgressRollback)
  }

  function CheckpointFlags(found: set<Violation>, previous: Option<Body>, c: Body): set<Violation>
    requires c.Checkpoint? && (previous.Some? ==> previous.value.Checkpoint?)
  {
    CheckpointLinkFlags(CheckpointFieldFlags(found, c), previous, c)
  }

  function LineageFlags(cs: seq<Body>): set<Violation>
    requires forall c | c in cs :: c.Checkpoint?
  {
    if cs == [] then {}
    else CheckpointFlags(LineageFlags(cs[..|cs| - 1]), Last(cs[..|cs| - 1]), cs[|cs| - 1])
  }

  function Violations(scope: Scope, rs: seq<Record>): set<Violation> {
    var p := PassOf(scope, rs);
    ScopeFlags(scope) + RecordsFlags(scope, rs) + OrderFlags(p.sequences, p.recordIds) + LineageFlags(p.checkpoints)
  }

  // ----- the pass itself -----

  method CheckEvent(scope: Scope, eventIds: set<string>, e: Body) returns (found: set<Violation>, seen: set<string>)
    requires e.RuntimeEvent?
    ensures found == EventFlags(scope, eventIds, e)
    ensures seen == eventIds + (if e.eventId != "" then {e.eventId} else {})
  {
    found, seen := {}, eventIds;
    if e.runId != scope.runId { found := found + {EventRunScopeMismatch}; }
    if e.turnId != scope.turnId { found := found + {EventTurnScopeMismatch}; }
    if e.eventId == "" {
      found := found + {EventIdInvalid};
    } else if e.eventId in eventIds {
      found := found + {EventIdDuplicate};
    } else {
      seen := seen + {e.eventId};
    }
    if e.eventKind.OtherEvent? { found := found + {EventKindInvalid}; }
    if !IsSha256(e.payload) { found := found + {EventPayloadInvalid}; }
  }

  method CheckBinding(scope: Scope, binding: Binding, expected: Option<Digest>, o: Body)
    returns (found: set<Violation>, binding': Binding, expected': Option<Digest>)
    requires o.Binds() && expected == Expected(scope, binding)
    ensures found == BindingFlags(binding, o)
    ensures binding' == Bound(binding, o.tool, o.payload) && expected' == Expected(scope, binding')
  {
    found, binding', expected' := {}, binding, expected;
    if o.tool == "" { found := found + {OperationToolInvalid}; }
    if !IsSha256(o.payload) { found := found + {OperationPayloadInvalid}; }
    if IsSha256(o.payload) {
      var candidate := (o.tool, o.payload);
      if binding.None? {
        binding' := Some(candidate);
        expected' := Some(EffectFingerprint(scope, o.tool, o.payload));
      } else if binding.value != candidate {
        found := found + {ApprovalEffectBindingMismatch};
      }
    }
  }

  method CheckEvidence(expected: Option<Digest>, byId: map<string, Body>, history: seq<Body>, e: Body)
    returns (found: set<Violation>, byId': map<string, Body>)
    requires e.Evidence? && forall h | h in history :: h.Evidence?
    ensures found == EvidenceFlags(expected, byId, Last(history), e)
    ensures byId' == if e.evidenceId != "" && e.evidenceId !in byId then byId[e.evidenceId := e] else byId
  {
    found, byId' := {}, byId;
    if e.evidenceId == "" {
      found := found + {EvidenceIdInvalid};
    } else if e.evidenceId in byId {
      found := found + {EvidenceIdDuplicate};
    } else {
      byId' := byId[e.evidenceId := e];
    }
    if e.revision < 0 { found := found + {RevisionInvalid}; }
    if e.readback.OtherReadback? { found := found + {ReadbackInvalid}; }
    if Differs(expected, e.effect) { found := found + {EvidenceFingerprintMismatch}; }
    if history != [] {
      var previous := history[|history| - 1];
      if e.revision < previous.revision {
        found := found + {RevisionRollback};
      } else if e.revision == previous.revision && (previous.readback != e.readback || previous.effect != e.effect) {
        found := found + {SameRevisionConflict};
      }
    }
  }

  method LatestRevision(history: seq<Body>) returns (latest: int)
    requires history != [] && forall h | h in history :: h.Evidence?
    ensures latest == MaxRevision(history)
  {
    latest := history[0].revision;
    for i := 1 to |history|
      invariant forall h | h in history[..i] :: h.Evidence?
      invariant latest == MaxRevision(history[..i])
    {
      assert history[..i + 1][..i] == history[..i];
      if history[i].revision > latest {
        latest := history[i].revision;
      }
    }
    assert history[..|history|] == history;
  }

  method CheckCompletion(expected: Option<Digest>, byId: map<string, Body>, history: seq<Body>, earlier: nat, c: Body)
    returns (found: set<Violation>)
    requires c.Completion? && (forall h | h in history :: h.Evidence?) && (forall id | id in byId :: byId[id].Evidence?)
    ensures found == CompletionFlags(expected, byId, history, earlier, c)
  {
    found := {};
    if earlier + 1 > 1 { found := found + {MultipleCompletions}; }
    if Differs(expected, c.effect) { found := found + {CompletionFingerprintMismatch}; }
    if c.evidenceId !in byId {
      found := found + {CompletionEvidenceMissing};
    } else {
      var evidence := byId[c.evidenceId];
      if evidence.readback != Present { found := found + {CompletionRequiresPresent}; }
      if evidence.revision != c.revision { found := found + {CompletionRevisionMismatch}; }
      if evidence.effect != c.effect { found := found + {CompletionEvidenceEffectMismatch}; }
    }
    if history != [] {
      var latest := LatestRevision(history);
      if c.revision != latest { found := found + {CompletionNotLatestRevision}; }
    }
  }

  method CheckCheckpointFields(found: set<Violation>, c: Body) returns (f: set<Violation>)
    requires c.Checkpoint?
    ensures f == CheckpointFieldFlags(found, c)
  {
    f := found;
    if c.checkpointId == "" { f := f + {CheckpointIdInvalid}; }
    if c.checkpointSequence < 0 { f := f + {CheckpointSequenceInvalid}; }
    if c.completedCount < 0 { f := f + {CheckpointCompletedCountInvalid}; }
    if !IsSha256(c.plan) { f := f + {CheckpointPlanInvalid}; }
  }

  method CheckCheckpointLink(found: set<Violation>, previous: Option<Body>, c: Body) returns (f: set<Violation>)
    requires c.Checkpoint? && (previous.Some? ==> previous.value.Checkpoint?)
    ensures f == CheckpointLinkFlags(found, previous, c)
  {
    f := found;
    if previous.None? {
      if c.parent.Some? { f := f + {CheckpointRootParentNotNull}; }
      if c.checkpointSequence != 0 { f := f + {CheckpointRootSequenceNotZero}; }
    } else {
      if c.parent != Some(previous.value.checkpointId) { f := f + {CheckpointParentMismatch}; }
      if c.checkpointSequence != previous.value.checkpointSequence + 1 { f := f + {CheckpointSequenceGap}; }
      if c.plan != previous.value.plan { f := f + {CheckpointPlanDrift}; }
      if c.completedCount < previous.value.completedCount { f := f + {CheckpointProgressRollback}; }
    }
  }

  method CheckLineage(cs: seq<Body>) returns (found: set<Violation>)
    requires forall c | c in cs :: c.Checkpoint?
    ensures found == LineageFlags(cs)
  {
    hide CheckpointFieldFlags, CheckpointLinkFlags;
    found := {};
    var previous: Option<Body> := None;
    for i := 0 to |cs|
      invariant forall c | c in cs[..i] :: c.Checkpoint?
      invariant found == LineageFlags(cs[..i])
      invariant previous == Last(cs[..i])
    {
      assert cs[..i + 1][..i] == cs[..i];
      found := CheckCheckpointFields(found, cs[i]);
      found := CheckCheckpointLink(found, previous, cs[i]);
      previous := Some(cs[i]);
    }
    assert cs[..|cs|] == cs;
  }

  method CheckCommon(scope: Scope, r: Record) returns (found: set<Violation>)
    ensures found == CommonFlags(scope, r)
  {
    found := {};
    if r.recordId == "" { found := found + {RecordIdInvalid}; }
    if r.sequence <= 0 { found := found + {RecordSequenceInvalid}; }
    if r.body.OfOperation() {
      if r.body.operationId != scope.operationId { found := found + {OperationScopeMismatch}; }
      if r.body.provider != scope.provider { found := found + {ProviderScopeMismatch}; }
    }
  }

  method CheckApproval(found: set<Violation>, expected: Option<Digest>, a: Body) returns (f: set<Violation>)
    requires a.Approval?
    ensures f == ApprovalFlags(found, expected, a)
  {
    f := found;
    if a.decision.OtherDecision? { f := f + {ApprovalDecisionInvalid}; }
    if Differs(expected, a.effect) { f := f + {ApprovalFingerprintMismatch}; }
  }

  method CheckEffect(found: set<Violation>, expected: Option<Digest>, approved: Option<int>, denied: Option<int>,
                     sequence: int, e: Body) returns (f: set<Violation>)
    requires e.Effect?
    ensures f == EffectFlags(found, expected, approved, denied, sequence, e)
  {
    f := found;
    if Differs(expected, e.effect) { f := f + {EffectFingerprintMismatch}; }
    if approved.None? || approved.value >= sequence { f := f + {EffectWithoutPriorApproval}; }
    if denied.Some? && denied.value < sequence { f := f + {EffectAfterDenial}; }
  }

  /** The variables after what the kind of a record changes. */
  function KindAdvanced(scope: Scope, p: Pass, r: Record): Pass {
    var b := r.body;
    match b
    case UnknownKind => p
    case RuntimeEvent(_, _, id, _, _) => p.(eventIds := p.eventIds + (if id != "" then {id} else {}))
    case Checkpoint(_, _, _, _, _, _) => p.(checkpoints := p.checkpoints + [b])
    case Approval(_, _, tool, payload, _, decision) =>
      var binding := Bound(p.binding, tool, payload);
      p.(binding := binding,
         expectedEffect := Expected(scope, binding),
         approvedSequence := if decision == Approved then Some(r.sequence) else p.approvedSequence,
         deniedSequence := if decision == Denied then Some(r.sequence) else p.deniedSequence)
    case Effect(_, _, tool, payload, _) =>
      var binding := Bound(p.binding, tool, payload);
      p.(binding := binding, expectedEffect := Expected(scope, binding))
    case Evidence(_, _, id, _, _, _) =>
      p.(evidenceById := if id != "" && id !in p.evidenceById then p.evidenceById[id := b] else p.evidenceById,
         evidenceHistory := p.evidenceHistory + [b])
    case Completion(_, _, _, _, _) => p.(completionCount := p.completionCount + 1)
  }

  /** The variables after one more record. */
  function Advanced(scope: Scope, p: Pass, r: Record): Pass {
    KindAdvanced(scope, p, r).(
      sequences := p.sequences + (if r.sequence > 0 then [r.sequence] else []),
      recordIds := p.recordIds + (if r.recordId != "" then [r.recordId] else []))
  }

  lemma EventIdsLast(rs: seq<Record>, r: Record)
    ensures EventIds(rs + [r])
        == EventIds(rs) + (if r.body.RuntimeEvent? && r.body.eventId != "" then {r.body.eventId} else {})
  {
    assert forall x | x in rs + [r] :: x in rs || x == r;
    assert r in rs + [r];
    forall id | id in EventIds(rs) ensures id in EventIds(rs + [r]) {
      var x :| x in rs && x.body.RuntimeEvent? && x.body.eventId == id && id != "";
      assert x in rs + [r];
    }
  }

  lemma EmptyPass(scope: Scope)
    ensures PassOf(scope, []) == Pass([], [], {}, None, None, None, None, [], map[], [], 0)
  {
  }

  lemma PassAdvances(scope: Scope, before: seq<Record>, r: Record)
    ensures PassOf(scope, before + [r]) == Advanced(scope, PassOf(scope, before), r)
  {
    hide Bound, EventIds, Expected;
    EventIdsLast(before, r);
    assert (before + [r])[..|before|] == before;
  }

  lemma FlagsAdvance(scope: Scope, before: seq<Record>, r: Record)
    ensures RecordsFlags(scope, before + [r]) == RecordsFlags(scope, before) + RecordFlags(scope, before, r)
  {
    hide RecordFlags;
    assert (before + [r])[..|before|] == before;
  }

  method CheckKind(scope: Scope, p: Pass, r: Record) returns (found: set<Violation>, p': Pass)
    requires p.Typed(scope)
    ensures found == KindFlags(scope, p, r)
    ensures p' == KindAdvanced(scope, p, r) && p'.sequences == p.sequences && p'.recordIds == p.recordIds
  {
    hide EventFlags, BindingFlags, ApprovalFlags, EffectFlags, EvidenceFlags, CompletionFlags, Bound, Expected,
      IsSha256, Last;
    found, p' := {}, p;
    match r.body {
      case UnknownKind =>
        found := {RecordKindInvalid};
      case RuntimeEvent(_, _, _, _, _) =>
        var seen;
        found, seen := CheckEvent(scope, p.eventIds, r.body);
        p' := p'.(eventIds := seen);
      case Checkpoint(_, _, _, _, _, _) =>
        if r.body.runId != scope.runId { found := found + {CheckpointRunScopeMismatch}; }
        p' := p'.(checkpoints := p'.checkpoints + [r.body]);
      case Approval(_, _, _, _, _, _) =>
        var binding, expected;
        found, binding, expected := CheckBinding(scope, p.binding, p.expectedEffect, r.body);
        found := CheckApproval(found, expected, r.body);
        p' := p'.(binding := binding, expectedEffect := expected);
        if r.body.decision == Approved {
          p' := p'.(approvedSequence := Some(r.sequence));
        } else if r.body.decision == Denied {
          p' := p'.(deniedSequence := Some(r.sequence));
        }
      case Effect(_, _, _, _, _) =>
        var binding, expected;
        found, binding, expected := CheckBinding(scope, p.binding, p.expectedEffect, r.body);
        found := CheckEffect(found, expected, p.approvedSequence, p.deniedSequence, r.sequence, r.body);
        p' := p'.(binding := binding, expectedEffect := expected);
      case Evidence(_, _, _, _, _, _) =>
        var byId;
        found, byId := CheckEvidence(p.expectedEffect, p.evidenceById, p.evidenceHistory, r.body);
        p' := p'.(evidenceById := byId, evidenceHistory := p'.evidenceHistory + [r.body]);
      case Completion(_, _, _, _, _) =>
        found := CheckCompletion(p.expectedEffect, p.evidenceById, p.evidenceHistory, p.completionCount, r.body);
        p' := p'.(completionCount := p'.completionCount + 1);
    }
  }

  method CheckRecord(scope: Scope, p: Pass, r: Record) returns (found: set<Violation>, p': Pass)
    requires p.Typed(scope)
    ensures found == CommonFlags(scope, r) + KindFlags(scope, p, r)
    ensures p' == Advanced(scope, p, r)
  {
    hide CommonFlags, KindFlags, KindAdvanced;
    found := CheckCommon(scope, r);
    var more;
    more, p' := CheckKind(scope, p, r);
    found := found + more;
    if r.recordId != "" { p' := p'.(recordIds := p.recordIds + [r.recordId]); }
    if r.sequence > 0 { p' := p'.(sequences := p.sequences + [r.sequence]); }
  }

  method CheckScope(scope: Scope) returns (found: set<Violation>)
    ensures found == ScopeFlags(scope)
  {
    found := {};
    if scope.runId == "" { found := found + {ScopeRunIdInvalid}; }
    if scope.turnId == "" { found := found + {ScopeTurnIdInvalid}; }
    if scope.provider == "" { found := found + {ScopeProviderInvalid}; }
    if scope.operationId == "" { found := found + {ScopeOperationIdInvalid}; }
  }

  method CheckOrder(sequences: seq<int>, recordIds: seq<string>) returns (found: set<Violation>)
    ensures found == OrderFlags(sequences, recordIds)
  {
    hide InOrder;
    found := {};
    if !InOrder(sequences) { found := found + {SequenceNotStrictlyIncreasing}; }
    if |recordIds| != |Elements(recordIds)| { found := found + {RecordIdDuplicate}; }
  }

  method CheckRecords(scope: Scope, records: seq<Record>) returns (found: set<Violation>, pass: Pass)
    ensures found == RecordsFlags(scope, records) && pass == PassOf(scope, records)
  {
    hide CommonFlags, KindFlags, Advanced, PassOf;
    EmptyPass(scope);
    found := {};
    pass := Pass([], [], {}, None, None, None, None, [], map[], [], 0);
    for i := 0 to |records|
      invariant found == RecordsFlags(scope, records[..i])
      invariant pass == PassOf(scope, records[..i])
    {
      PassAdvances(scope, records[..i], records[i]);
      FlagsAdvance(scope, records[..i], records[i]);
      assert records[..i + 1] == records[..i] + [records[i]];
      var more;
      more, pass := CheckRecord(scope, pass, records[i]);
      found := found + more;
    }
    assert records[..|records|] == records;
  }
}
