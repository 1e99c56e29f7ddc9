/** Traces as the documents that hold them. A document determines its trace, and editing one field of one record by
    pointer is replacing that record; so the detector's verdict is one on the edited document. */
module TraceDocuments {
  import opened Common
  import opened TraceIntegrity
  import opened TraceMutations
  import opened TraceClean
  import opened JsonPointer

  // ----- numerals -----

  function Numeral(n: nat): string {
    if n < 10 then [DigitChar(n)] else Numeral(n / 10) + [DigitChar(n % 10)]
  }

  function DigitChar(d: nat): char
    requires d < 10
  {
    ('0' as int + d) as char
  }

  lemma {:induction false} NumeralReadsBack(n: nat)
    ensures IsDigits(Numeral(n)) && DigitsValue(Numeral(n)) == n
  {
    if n >= 10 {
      NumeralReadsBack(n / 10);
      assert Numeral(n)[..|Numeral(n)| - 1] == Numeral(n / 10);
    } else {
      assert Numeral(n)[..0] == "";
    }
  }

  lemma NumeralIsPlace(i: nat, n: nat)
    requires i < n
    ensures Place(Numeral(i), n) == Ok(i)
  {
    NumeralReadsBack(i);
  }

  function Integer(n: int): Json {
    Number(if n < 0 then "-" + Numeral(-n) else Numeral(n))
  }

  // ----- records -----

  /** The text of a digest. */
  type Hex = Digest -> string

  function KindText(kind: EventKind): string {
    match kind
    case OutputEvent => "output"
    case CompletedEvent => "completed"
    case FailedEvent => "failed"
    case OtherEvent(text) => text
  }

  function DecisionText(decision: Decision): string {
    match decision
    case Approved => "approved"
    case Denied => "denied"
    case OtherDecision(text) => text
  }

  function ReadbackText(readback: Readback): string {
    match readback
    case Present => "present"
    case Absent => "absent"
    case Ambiguous => "ambiguous"
    case OtherReadback(text) => text
  }

  function BodyFields(b: Body, hex: Hex): map<string, Json> {
    match b
    case RuntimeEvent(run, turn, id, kind, payload) =>
      map["kind" := String("runtime_event"), "run_id" := String(run), "turn_id" := String(turn),
          "event_id" := String(id),
          "event_kind" := String(KindText(kind)), "payload_sha256" := String(hex(payload))]
    case Checkpoint(run, id, parent, sequence, plan, completed) =>
      map["kind" := String("checkpoint"), "run_id" := String(run), "checkpoint_id" := String(id),
          "parent_checkpoint_id" := if parent.Some? then String(parent.value) else Null,
          "checkpoint_sequence" := Integer(sequence), "plan_sha256" := String(hex(plan)),
          "completed_count" := Integer(completed)]
    case Approval(provider, operation, tool, payload, effect, decision) =>
      map["kind" := String("approval"), "provider" := String(provider), "operation_id" := String(operation),
          "tool" := String(tool), "payload_sha256" := String(hex(payload)), "effect_sha256" := String(hex(effect)),
          "decision" := String(DecisionText(decision))]
    case Effect(provider, operation, tool, payload, effect) =>
      map["kind" := String("effect"), "provider" := String(provider), "operation_id" := String(operation),
          "tool" := String(tool), "payload_sha256" := String(hex(payload)), "effect_sha256" := String(hex(effect))]
    case Evidence(provider, operation, id, revision, readback, effect) =>
      map["kind" := String("provider_evidence"), "provider" := String(provider), "operation_id" := String(operation),
          "evidence_id" := String(id), "revision" := Integer(revision), "readback" := String(ReadbackText(readback)),
          "effect_sha256" := String(hex(effect))]
    case Completion(provider, operation, id, revision, effect) =>
      map["kind" := String("reconciliation_completion"), "provider" := String(provider),
          "operation_id" := String(operation), "evidence_id" := String(id), "revision" := Integer(revision),
          "effect_sha256" := String(hex(effect))]
    case UnknownKind => map["kind" := Null] // stands for every value that is no record kind
  }

  function RecordFields(r: Record, hex: Hex): map<string, Json> {
    BodyFields(r.body, hex)["record_id" := String(r.recordId)]["sequence" := Integer(r.sequence)]
  }

  function RecordJson(r: Record, hex: Hex): Json {
    Object(RecordFields(r, hex))
  }

  function RecordsJson(rs: seq<Record>, hex: Hex): Json {
    Array(seq(|rs|, i requires 0 <= i < |rs| => RecordJson(rs[i], hex)))
  }

  function ScopeJson(scope: Scope): Json {
    Object(map["run_id" := String(scope.runId), "turn_id" := String(scope.turnId),
               "provider" := String(scope.provider), "operation_id" := String(scope.operationId)])
  }

  function TraceJson(scope: Scope, rs: seq<Record>, hex: Hex): Json {
    Object(map["scope" := ScopeJson(scope), "records" := RecordsJson(rs, hex)])
  }

  /** The text under a key. */
  predicate Holds(fields: map<string, Json>, key: string, text: string) {
    key in fields && fields[key] == String(text)
  }

  predicate HoldsNumber(fields: map<string, Json>, key: string, n: int) {
    key in fields && fields[key] == Integer(n)
  }

  lemma EventIsNamed(b: Body, hex: Hex)
    requires b.RuntimeEvent?
    ensures var fields := BodyFields(b, hex);
            && Holds(fields, "kind", "runtime_event") && Holds(fields, "run_id", b.runId)
            && Holds(fields, "turn_id", b.turnId) && Holds(fields, "event_id", b.eventId)
            && Holds(fields, "event_kind", KindText(b.eventKind)) && Holds(fields, "payload_sha256", hex(b.payload))
  {
    hide KindText;
  }

  lemma CheckpointIsNamed(b: Body, hex: Hex)
    requires b.Checkpoint?
    ensures var fields := BodyFields(b, hex);
            && Holds(fields, "kind", "checkpoint") && Holds(fields, "run_id", b.runId)
            && Holds(fields, "checkpoint_id", b.checkpointId) && Holds(fields, "plan_sha256", hex(b.plan))
            && (b.parent.Some? ==> Holds(fields, "parent_checkpoint_id", b.parent.value))
            && HoldsNumber(fields, "checkpoint_sequence", b.checkpointSequence)
            && HoldsNumber(fields, "completed_count", b.completedCount)
  {
    hide Integer;
  }

  lemma BinderIsNamed(b: Body, hex: Hex)
    requires b.Binds()
    ensures var fields := BodyFields(b, hex);
            && Holds(fields, "kind", if b.Approval? then "approval" else "effect")
            && Holds(fields, "provider", b.provider) && Holds(fields, "operation_id", b.operationId)
            && Holds(fields, "tool", b.tool) && Holds(fields, "payload_sha256", hex(b.payload))
            && Holds(fields, "effect_sha256", hex(b.effect))
            && (b.Approval? ==> Holds(fields, "decision", DecisionText(b.decision)))
  {
    hide DecisionText;
  }

  lemma ObservationIsNamed(b: Body, hex: Hex)
    requires b.Evidence? || b.Completion?
    ensures var fields := BodyFields(b, hex);
            && Holds(fields, "kind", if b.Evidence? then "provider_evidence" else "reconciliation_completion")
            && Holds(fields, "provider", b.provider) && Holds(fields, "operation_id", b.operationId)
            && Holds(fields, "evidence_id", b.evidenceId) && HoldsNumber(fields, "revision", b.revision)
            && Holds(fields, "effect_sha256", hex(b.effect))
            && (b.Evidence? ==> Holds(fields, "readback", ReadbackText(b.readback)))
  {
    hide ReadbackText, Integer;
  }

  lemma HeaderIsNamed(r: Record, hex: Hex)
    ensures var fields := RecordFields(r, hex);
            && Holds(fields, "record_id", r.recordId) && HoldsNumber(fields, "sequence", r.sequence)
            && fields - {"record_id", "sequence"} == BodyFields(r.body, hex) - {"record_id", "sequence"}
  {
    hide BodyFields, Integer;
  }

  // ----- editing by pointer -----

  function FieldPath(i: nat, field: string): seq<string> {
    ["records", Numeral(i), field]
  }

  /** The records differ in this field of their JSON form only. */
  predicate DifferIn(r: Record, r': Record, field: string, hex: Hex) {
    && field in RecordFields(r, hex) && field in RecordFields(r', hex)
    && RecordFields(r', hex) == RecordFields(r, hex)[field := RecordFields(r', hex)[field]]
  }

  lemma LookupTwo(doc: Json, a: string, b: string)
    ensures Lookup(doc, [a, b]) ==
            match Step(doc, a) case Err(e) => Err(e) case Ok(d) => Step(d, b)
    ensures Step(doc, a).Ok? && Step(Step(doc, a).value, b).Ok? ==>
      forall node :: PutAt(doc, [a, b], node) == Put(doc, a, Put(Step(doc, a).value, b, node))
  {
    hide Step, Put;
    assert [a, b][1..] == [b] && [b][1..] == [];
    if Step(doc, a).Ok? {
      OneStep(Step(doc, a).value, b);
      if Step(Step(doc, a).value, b).Ok? {
        forall node ensures PutAt(doc, [a, b], node) == Put(doc, a, Put(Step(doc, a).value, b, node)) {
          assert PutAt(Step(doc, a).value, [b], node) == Put(Step(doc, a).value, b, node);
        }
      }
    }
  }

  /** Replacing a field of record `i` by its pointer gives the document of the trace with that record replaced. */
  lemma ReplaceIsRecordReplaced(scope: Scope, rs: seq<Record>, i: nat, r: Record, field: string, hex: Hex)
    requires i < |rs| && DifferIn(rs[i], r, field, hex)
    ensures Tokens(PointerTo(FieldPath(i, field))) == Ok(FieldPath(i, field))
    ensures Edited(TraceJson(scope, rs, hex), FieldPath(i, field), Replace(RecordFields(r, hex)[field]))
            == Ok(TraceJson(scope, rs[i := r], hex))
  {
    hide RecordFields, ScopeJson, Place, Tokens, PointerTo;
    TokensReadBackIff(FieldPath(i, field));
    NumeralIsPlace(i, |rs|);
    var doc, path, above := TraceJson(scope, rs, hex), FieldPath(i, field), ["records", Numeral(i)];
    assert path[..|path| - 1] == above && path[|path| - 1] == field;
    LookupTwo(doc, "records", Numeral(i));
    var records := RecordsJson(rs, hex);
    assert Step(doc, "records") == Ok(records) && Step(records, Numeral(i)) == Ok(RecordJson(rs[i], hex));
    assert EditNode(RecordJson(rs[i], hex), field, Replace(RecordFields(r, hex)[field])) == Ok(RecordJson(r, hex));
    assert Put(records, Numeral(i), RecordJson(r, hex)) == RecordsJson(rs[i := r], hex);
    assert Put(doc, "records", RecordsJson(rs[i := r], hex)) == TraceJson(scope, rs[i := r], hex);
  }

  // ----- a document determines its trace -----

  /** Distinct digests have distinct texts. */
  ghost predicate Injective(hex: Hex) {
    forall a, b :: hex(a) == hex(b) ==> a == b
  }

  /** Text that is no event kind, decision or readback is not one of theirs. */
  predicate Proper(b: Body) {
    && (b.RuntimeEvent? && b.eventKind.OtherEvent? ==> b.eventKind.text !in {"output", "completed", "failed"})
    && (b.Approval? && b.decision.OtherDecision? ==> b.decision.text !in {"approved", "denied"})
    && (b.Evidence? && b.readback.OtherReadback? ==> b.readback.text !in {"present", "absent", "ambiguous"})
  }

  ghost predicate AllProper(rs: seq<Record>) {
    forall i | 0 <= i < |rs| :: Proper(rs[i].body)
  }

  lemma NumeralsAreInjective(m: nat, n: nat)
    requires Numeral(m) == Numeral(n)
    ensures m == n
  {
    hide Numeral;
    NumeralReadsBack(m);
    NumeralReadsBack(n);
  }

  lemma IntegerSign(n: int)
    ensures Integer(n).text != "" && (Integer(n).text[0] == '-' <==> n < 0)
    ensures n < 0 ==> Integer(n).text[1..] == Numeral(-n)
  {
    hide Numeral, DigitsValue;
    NumeralReadsBack(if n < 0 then -n else n);
  }

  lemma IntegerIsInjective(m: int, n: int)
    requires Integer(m) == Integer(n)
    ensures m == n
  {
    IntegerSign(m);
    IntegerSign(n);
    hide Numeral;
    if m < 0 {
      NumeralsAreInjective(-m, -n);
    } else {
      NumeralsAreInjective(m, n);
    }
  }

  lemma IntegersAreInjective()
    ensures forall m, n :: Integer(m) == Integer(n) ==> m == n
  {
    hide Integer;
    forall m, n | Integer(m) == Integer(n) ensures m == n {
      IntegerIsInjective(m, n);
    }
  }

  function KindName(b: Body): Json {
    match b
    case RuntimeEvent(_, _, _, _, _) => String("runtime_event")
    case Checkpoint(_, _, _, _, _, _) => String("checkpoint")
    case Approval(_, _, _, _, _, _) => String("approval")
    case Effect(_, _, _, _, _) => String("effect")
    case Evidence(_, _, _, _, _, _) => String("provider_evidence")
    case Completion(_, _, _, _, _) => String("reconciliation_completion")
    case UnknownKind => Null
  }

  lemma KindIsNamed(b: Body, hex: Hex)
    ensures "kind" in BodyFields(b, hex) && BodyFields(b, hex)["kind"] == KindName(b)
  {
  }

  lemma SameKind(a: Body, b: Body)
    requires KindName(a) == KindName(b)
    ensures a.RuntimeEvent? == b.RuntimeEvent? && a.Checkpoint? == b.Checkpoint? && a.Approval? == b.Approval?
    ensures a.Effect? == b.Effect? && a.Evidence? == b.Evidence? && a.Completion? == b.Completion?
  {
  }

  lemma EventIsInjective(a: Body, b: Body, hex: Hex)
    requires a.RuntimeEvent? && b.RuntimeEvent? && BodyFields(a, hex) == BodyFields(b, hex)
    ensures a.runId == b.runId && a.turnId == b.turnId && a.eventId == b.eventId
    ensures KindText(a.eventKind) == KindText(b.eventKind) && hex(a.payload) == hex(b.payload)
  {
    hide KindText;
    var x, y := BodyFields(a, hex), BodyFields(b, hex);
    assert x["run_id"] == y["run_id"] && x["turn_id"] == y["turn_id"] && x["event_id"] == y["event_id"];
    assert x["event_kind"] == y["event_kind"] && x["payload_sha256"] == y["payload_sha256"];
  }

  lemma CheckpointIsInjective(a: Body, b: Body, hex: Hex)
    requires a.Checkpoint? && b.Checkpoint? && BodyFields(a, hex) == BodyFields(b, hex)
    ensures a.runId == b.runId && a.checkpointId == b.checkpointId && a.parent == b.parent && hex(a.plan) == hex(b.plan)
    ensures Integer(a.checkpointSequence) == Integer(b.checkpointSequence)
    ensures Integer(a.completedCount) == Integer(b.completedCount)
  {
    hide Integer;
    var x, y := BodyFields(a, hex), BodyFields(b, hex);
    assert x["run_id"] == y["run_id"] && x["checkpoint_id"] == y["checkpoint_id"]
        && x["plan_sha256"] == y["plan_sha256"];
    assert x["parent_checkpoint_id"] == y["parent_checkpoint_id"];
    assert x["checkpoint_sequence"] == y["checkpoint_sequence"] && x["completed_count"] == y["completed_count"];
  }

  lemma BoundEffectIsInjective(a: Body, b: Body, hex: Hex)
    requires a.Binds() && b.Binds() && a.Approval? == b.Approval? && BodyFields(a, hex) == BodyFields(b, hex)
    ensures a.provider == b.provider && a.operationId == b.operationId && a.tool == b.tool
    ensures hex(a.payload) == hex(b.payload) && hex(a.effect) == hex(b.effect)
    ensures a.Approval? ==> DecisionText(a.decision) == DecisionText(b.decision)
  {
    hide DecisionText;
    var x, y := BodyFields(a, hex), BodyFields(b, hex);
    assert x["provider"] == y["provider"] && x["operation_id"] == y["operation_id"] && x["tool"] == y["tool"];
    assert x["payload_sha256"] == y["payload_sha256"] && x["effect_sha256"] == y["effect_sha256"];
    assert a.Approval? ==> x["decision"] == y["decision"];
  }

  lemma ObservationIsInjective(a: Body, b: Body, hex: Hex)
    requires a.Evidence? || a.Completion?
    requires a.Evidence? == b.Evidence? && a.Completion? == b.Completion? && BodyFields(a, hex) == BodyFields(b, hex)
    ensures a.provider == b.provider && a.operationId == b.operationId && a.evidenceId == b.evidenceId
    ensures Integer(a.revision) == Integer(b.revision) && hex(a.effect) == hex(b.effect)
    ensures a.Evidence? ==> ReadbackText(a.readback) == ReadbackText(b.readback)
  {
    hide ReadbackText, Integer;
    var x, y := BodyFields(a, hex), BodyFields(b, hex);
    assert x["provider"] == y["provider"] && x["operation_id"] == y["operation_id"];
    assert x["evidence_id"] == y["evidence_id"] && x["revision"] == y["revision"]
        && x["effect_sha256"] == y["effect_sha256"];
    assert a.Evidence? ==> x["readback"] == y["readback"];
  }

  lemma BodyIsInjective(a: Body, b: Body, hex: Hex)
    requires Injective(hex) && Proper(a) && Proper(b) && BodyFields(a, hex) == BodyFields(b, hex)
    ensures a == b
  {
    hide BodyFields, Integer, KindName;
    KindIsNamed(a, hex);
    KindIsNamed(b, hex);
    SameKind(a, b);
    IntegersAreInjective();
    match a {
      case RuntimeEvent(_, _, _, _, _) => EventIsInjective(a, b, hex);
      case Checkpoint(_, _, _, _, _, _) => CheckpointIsInjective(a, b, hex);
      case Approval(_, _, _, _, _, _) => BoundEffectIsInjective(a, b, hex);
      case Effect(_, _, _, _, _) => BoundEffectIsInjective(a, b, hex);
      case Evidence(_, _, _, _, _, _) => ObservationIsInjective(a, b, hex);
      case Completion(_, _, _, _, _) => ObservationIsInjective(a, b, hex);
      case UnknownKind =>
    }
  }

  lemma BodyLacks(b: Body, hex: Hex)
    ensures "record_id" !in BodyFields(b, hex) && "sequence" !in BodyFields(b, hex)
  {
  }

  lemma RecordIsInjective(r: Record, r': Record, hex: Hex)
    requires Injective(hex) && Proper(r.body) && Proper(r'.body) && RecordJson(r, hex) == RecordJson(r', hex)
    ensures r == r'
  {
    hide BodyFields, Integer, Proper, Injective;
    BodyLacks(r.body, hex);
    BodyLacks(r'.body, hex);
    var x, y := RecordFields(r, hex), RecordFields(r', hex);
    assert x["record_id"] == y["record_id"] && x["sequence"] == y["sequence"];
    IntegerIsInjective(r.sequence, r'.sequence);
    assert x - {"record_id", "sequence"} == BodyFields(r.body, hex);
    assert y - {"record_id", "sequence"} == BodyFields(r'.body, hex);
    BodyIsInjective(r.body, r'.body, hex);
  }

  lemma ScopeIsInjective(scope: Scope, scope': Scope)
    requires ScopeJson(scope) == ScopeJson(scope')
    ensures scope == scope'
  {
    var x, y := ScopeJson(scope).fields, ScopeJson(scope').fields;
    assert x["run_id"] == y["run_id"] && x["turn_id"] == y["turn_id"];
    assert x["provider"] == y["provider"] && x["operation_id"] == y["operation_id"];
  }

  /** A document determines its scope and its records. */
  lemma DocumentIsInjective(scope: Scope, rs: seq<Record>, scope': Scope, rs': seq<Record>, hex: Hex)
    requires Injective(hex) && AllProper(rs) && AllProper(rs')
        && TraceJson(scope, rs, hex) == TraceJson(scope', rs', hex)
    ensures scope == scope' && rs == rs'
  {
    hide RecordJson, ScopeJson, Proper, Injective;
    var x, y := TraceJson(scope, rs, hex).fields, TraceJson(scope', rs', hex).fields;
    assert x["scope"] == y["scope"] && x["records"] == y["records"];
    ScopeIsInjective(scope, scope');
    assert RecordsJson(rs, hex).items == RecordsJson(rs', hex).items;
    assert |rs| == |RecordsJson(rs, hex).items| && |rs'| == |RecordsJson(rs', hex).items|;
    forall i | 0 <= i < |rs| ensures rs[i] == rs'[i] {
      assert RecordsJson(rs, hex).items[i] == RecordsJson(rs', hex).items[i];
      RecordIsInjective(rs[i], rs'[i], hex);
    }
  }

  // ----- the verdict on a document -----

  /** The detector finds nothing in the document: it is that of a trace without violations. */
  ghost predicate Accepted(doc: Json, hex: Hex) {
    exists scope: Scope, rs: seq<Record> :: TraceJson(scope, rs, hex) == doc && Violations(scope, rs) == {}
  }

  lemma CleanIsProper(scope: Scope, rs: seq<Record>)
    requires Clean(scope, rs)
    ensures AllProper(rs)
  {
    hide Linear, Ordered, Agrees, Supported;
    forall i | 0 <= i < |rs| ensures Proper(rs[i].body) {
      assert rs[i] in rs && WellFormed(scope, rs[i]);
    }
  }

  /** So the verdict on a document is the verdict on the trace it is made from. */
  lemma AcceptedIff(scope: Scope, rs: seq<Record>, hex: Hex)
    requires Injective(hex) && AllProper(rs)
    ensures Accepted(TraceJson(scope, rs, hex), hex) <==> Violations(scope, rs) == {}
  {
    hide TraceJson, Violations, Injective, AllProper;
    var doc := TraceJson(scope, rs, hex);
    if scope': Scope, rs': seq<Record> :| TraceJson(scope', rs', hex) == doc && Violations(scope', rs') == {} {
      ViolationsIffNotClean(scope', rs');
      CleanIsProper(scope', rs');
      DocumentIsInjective(scope, rs, scope', rs', hex);
    }
  }

  /** The verdict on a clean document after one field of record `i` was replaced. */
  lemma ReplacedFieldIff(scope: Scope, rs: seq<Record>, i: nat, r: Record, field: string, hex: Hex)
    requires Injective(hex) && Clean(scope, rs) && i < |rs| && Proper(r.body) && DifferIn(rs[i], r, field, hex)
    ensures var edited := Edited(TraceJson(scope, rs, hex), FieldPath(i, field), Replace(RecordFields(r, hex)[field]));
            edited.Ok? && (Accepted(edited.value, hex) <==> Violations(scope, rs[i := r]) == {})
  {
    hide Violations, Clean, TraceJson, RecordFields, Edited, Accepted, Injective, Proper;
    CleanIsProper(scope, rs);
    ReplaceIsRecordReplaced(scope, rs, i, r, field, hex);
    AcceptedIff(scope, rs[i := r], hex);
  }

  lemma SequenceFieldIff(scope: Scope, rs: seq<Record>, i: nat, n: int, hex: Hex)
    requires Injective(hex) && Clean(scope, rs) && i < |rs|
    ensures var edited := Edited(TraceJson(scope, rs, hex), FieldPath(i, "sequence"), Replace(Integer(n)));
            edited.Ok? &&
            (Accepted(edited.value, hex) <==>
             n > 0 && (i > 0 ==> rs[i - 1].sequence < n) && (i + 1 < |rs| ==> n < rs[i + 1].sequence))
  {
    hide Violations, Clean, TraceJson, BodyFields, Integer, Edited, Accepted, Injective, Proper;
    var r := rs[i].(sequence := n);
    CleanIsProper(scope, rs);
    assert DifferIn(rs[i], r, "sequence", hex) && RecordFields(r, hex)["sequence"] == Integer(n);
    ReplacedFieldIff(scope, rs, i, r, "sequence", hex);
    SequenceIff(scope, rs, i, n);
  }

  lemma RecordIdFieldIff(scope: Scope, rs: seq<Record>, i: nat, id: string, hex: Hex)
    requires Injective(hex) && Clean(scope, rs) && i < |rs|
    ensures var edited := Edited(TraceJson(scope, rs, hex), FieldPath(i, "record_id"), Replace(String(id)));
            edited.Ok? &&
            (Accepted(edited.value, hex) <==>
             id != "" && forall k | 0 <= k < |rs| && k != i :: rs[k].recordId != id)
  {
    hide Violations, Clean, TraceJson, BodyFields, Integer, Edited, Accepted, Injective, Proper;
    var r := rs[i].(recordId := id);
    CleanIsProper(scope, rs);
    assert DifferIn(rs[i], r, "record_id", hex) && RecordFields(r, hex)["record_id"] == String(id);
    ReplacedFieldIff(scope, rs, i, r, "record_id", hex);
    RecordIdIff(scope, rs, i, id);
  }

  /** What the body of a record of a clean trace may be replaced by, among bodies of its kind. */
  ghost predicate MayStand(scope: Scope, rs: seq<Record>, i: nat, b: Body)
    requires i < |rs|
  {
    var was := rs[i].body;
    match b
    case RuntimeEvent(_, _, id, _, _) =>
      && WellFormed(scope, rs[i].(body := b))
      && forall k | 0 <= k < |rs| && k != i && rs[k].body.RuntimeEvent? :: rs[k].body.eventId != id
    case Checkpoint(run, _, _, _, _, _) =>
      var cs, c := Checkpoints(rs), |Checkpoints(rs[..i])|;
      run == scope.runId && c < |cs| && (forall x | x in cs :: x.Checkpoint?) && MayBecome(cs, c, b)
    case Approval(_, _, _, _, _, _) => StandsAt(scope, rs, i, b)
    case Effect(_, _, _, _, _) => b == was
    case Evidence(_, _, _, _, _, _) =>
      was.Evidence? && if NamedLater(rs, i) then b == was else StandsAt(scope, rs, i, b)
    case Completion(provider, operation, id, revision, effect) =>
      && was.Completion?
      && provider == was.provider && operation == was.operationId && revision == was.revision && effect == was.effect
      && exists a :: a in rs[..i] && a.body.Evidence? && a.body.evidenceId == id && a.body.revision == was.revision
    case UnknownKind => false
  }

  predicate SameKindAs(a: Body, b: Body) {
    KindName(a) == KindName(b)
  }

  lemma UnknownIsIllFormed(scope: Scope, r: Record)
    requires r.body.UnknownKind?
    ensures !WellFormed(scope, r)
  {
  }

  lemma MayStandIff(scope: Scope, rs: seq<Record>, i: nat, b: Body)
    requires Clean(scope, rs) && i < |rs| && SameKindAs(rs[i].body, b)
    ensures Violations(scope, WithBody(rs, i, b)) == {} <==> MayStand(scope, rs, i, b)
  {
    hide Violations, Clean, WellFormed, StandsAt, NamedLater, MayBecome, Checkpoints;
    SameKind(rs[i].body, b);
    match b {
      case RuntimeEvent(_, _, _, _, _) => EventIff(scope, rs, i, b);
      case Checkpoint(_, _, _, _, _, _) =>
        OnlyEvidence(rs);
        CheckpointIff(scope, rs, i, b);
      case Approval(_, _, _, _, _, _) => ApprovalIff(scope, rs, i, b);
      case Effect(_, _, _, _, _) => EffectIsDetermined(scope, rs, i, b);
      case Evidence(_, _, _, _, _, _) => EvidenceIff(scope, rs, i, b);
      case Completion(_, _, _, _, _) => CompletionIff(scope, rs, i, b);
      case UnknownKind =>
        UnknownIsIllFormed(scope, WithBody(rs, i, b)[i]);
        IllFormedIsFlagged(scope, WithBody(rs, i, b), i);
    }
  }

  /** Whatever is replaced by pointer in the body of a record of a clean document, without changing its kind: the
      document is accepted exactly when that record may become what it then is. */
  lemma BodyFieldIff(scope: Scope, rs: seq<Record>, i: nat, b: Body, field: string, hex: Hex)
    requires Injective(hex) && Clean(scope, rs) && i < |rs| && SameKindAs(rs[i].body, b) && Proper(b)
    requires DifferIn(rs[i], rs[i].(body := b), field, hex)
    ensures var value := RecordFields(rs[i].(body := b), hex)[field];
            var edited := Edited(TraceJson(scope, rs, hex), FieldPath(i, field), Replace(value));
            edited.Ok? && (Accepted(edited.value, hex) <==> MayStand(scope, rs, i, b))
  {
    hide Violations, Clean, TraceJson, RecordFields, Edited, Accepted, Injective, Proper, MayStand, DifferIn;
    ReplacedFieldIff(scope, rs, i, rs[i].(body := b), field, hex);
    MayStandIff(scope, rs, i, b);
  }

  /** No document in which an effect of a clean one was changed is accepted. */
  lemma EffectFieldIsFlagged(scope: Scope, rs: seq<Record>, i: nat, b: Body, field: string, hex: Hex)
    requires Injective(hex) && Clean(scope, rs) && i < |rs| && rs[i].body.Effect? && b.Effect? && b != rs[i].body
    requires DifferIn(rs[i], rs[i].(body := b), field, hex)
    ensures var value := RecordFields(rs[i].(body := b), hex)[field];
            var edited := Edited(TraceJson(scope, rs, hex), FieldPath(i, field), Replace(value));
            edited.Ok? && !Accepted(edited.value, hex)
  {
    hide Violations, Clean, TraceJson, RecordFields, Edited, Accepted, Injective, DifferIn;
    BodyFieldIff(scope, rs, i, b, field, hex);
  }

  /** A document in which a completion of a clean one was changed is accepted exactly when only the evidence id was
      changed, to that of other evidence listed before it at its revision. */
  lemma CompletionFieldIff(scope: Scope, rs: seq<Record>, i: nat, c: Body, field: string, hex: Hex)
    requires Injective(hex) && Clean(scope, rs) && i < |rs| && rs[i].body.Completion? && c.Completion?
        && c != rs[i].body
    requires DifferIn(rs[i], rs[i].(body := c), field, hex)
    ensures var value := RecordFields(rs[i].(body := c), hex)[field];
            var edited := Edited(TraceJson(scope, rs, hex), FieldPath(i, field), Replace(value));
            edited.Ok? &&
            (Accepted(edited.value, hex) <==>
             && field == "evidence_id"
             && exists a :: a in rs[..i] && a.body.Evidence? && a.body.evidenceId == c.evidenceId
                            && a.body.revision == rs[i].body.revision)
  {
    hide Violations, Clean, TraceJson, Edited, Accepted, Injective, DifferIn;
    BodyFieldIff(scope, rs, i, c, field, hex);
    OneFieldOfCompletion(rs[i], c, field, hex);
  }

  lemma OneFieldOfCompletion(r: Record, c: Body, field: string, hex: Hex)
    requires Injective(hex) && r.body.Completion? && c.Completion? && c != r.body
        && DifferIn(r, r.(body := c), field, hex)
    ensures field == "evidence_id" <==>
      c.provider == r.body.provider && c.operationId == r.body.operationId && c.revision == r.body.revision
          && c.effect == r.body.effect
  {
    IntegersAreInjective();
    hide Integer;
    var x, y := RecordFields(r, hex), RecordFields(r.(body := c), hex);
    assert forall k | k in x && k != field :: y[k] == x[k];
    assert x["provider"] == String(r.body.provider) && y["provider"] == String(c.provider);
    assert x["operation_id"] == String(r.body.operationId) && y["operation_id"] == String(c.operationId);
    assert x["evidence_id"] == String(r.body.evidenceId) && y["evidence_id"] == String(c.evidenceId);
    assert x["revision"] == Integer(r.body.revision) && y["revision"] == Integer(c.revision);
    assert x["effect_sha256"] == String(hex(r.body.effect)) && y["effect_sha256"] == String(hex(c.effect));
  }

  // ----- taking a record out by pointer -----

  function RecordPath(i: nat): seq<string> {
    ["records", Numeral(i)]
  }

  /** Removing record `i` by its pointer gives the document of the trace without that record. */
  lemma RemoveIsRecordRemoved(scope: Scope, rs: seq<Record>, i: nat, hex: Hex)
    requires i < |rs|
    ensures Tokens(PointerTo(RecordPath(i))) == Ok(RecordPath(i))
    ensures Edited(TraceJson(scope, rs, hex), RecordPath(i), Remove) == Ok(TraceJson(scope, Without(rs, i), hex))
  {
    hide RecordJson, ScopeJson, Place, Tokens, PointerTo;
    TokensReadBackIff(RecordPath(i));
    NumeralIsPlace(i, |rs|);
    var doc, path := TraceJson(scope, rs, hex), RecordPath(i);
    assert path[..|path| - 1] == ["records"] && path[|path| - 1] == Numeral(i);
    var records := RecordsJson(rs, hex);
    OneStep(doc, "records");
    assert Step(doc, "records") == Ok(records);
    assert EditNode(records, Numeral(i), Remove) == Ok(RecordsJson(Without(rs, i), hex)) by {
      WithoutAt(rs, i);
      WithoutItem(records.items, i);
      assert RecordsJson(Without(rs, i), hex).items == records.items[..i] + records.items[i + 1..];
    }
    assert ["records"][1..] == [];
    assert PutAt(doc, ["records"], RecordsJson(Without(rs, i), hex)) == TraceJson(scope, Without(rs, i), hex);
  }

  /** The verdict on a clean document after a record was taken out. */
  lemma RemovedDocumentIff(scope: Scope, rs: seq<Record>, i: nat, hex: Hex)
    requires Injective(hex) && Clean(scope, rs) && i < |rs|
    ensures var edited := Edited(TraceJson(scope, rs, hex), RecordPath(i), Remove);
            edited.Ok? &&
            (Accepted(edited.value, hex) <==>
             && (forall k | i < k < |rs| :: SupportedWithout(rs, i, k))
             && (rs[i].body.Checkpoint? ==> forall k | i < k < |rs| :: !rs[k].body.Checkpoint?))
  {
    hide Violations, Clean, TraceJson, Edited, Accepted, Injective, Proper, SupportedWithout;
    CleanIsProper(scope, rs);
    WithoutAt(rs, i);
    assert AllProper(Without(rs, i));
    RemoveIsRecordRemoved(scope, rs, i, hex);
    AcceptedIff(scope, Without(rs, i), hex);
    RemovedRecordIff(scope, rs, i);
  }
}
