/** The provider, the evidence store and everything ever read or decided, as one closed system.
    Any number of workers run in it. What a worker holds is some value that was issued before,
    and issued values are never withdrawn; so a crash, a restart, a delay and a replay are all
    just later steps that use an older value, and need no steps of their own. */
module ClosedSystem {
  import opened Common
  import opened Reconciliation
  import opened EvidenceLineage

  datatype World = World(
    provider: ProviderTables,
    lineage: EvidenceTables,
    log: CommitLog,
    evidence: set<ProviderEvidence>,
    decisions: set<ReconciliationDecision>)

  const INITIAL := World(EMPTY_PROVIDER, EMPTY_EVIDENCE, map[], {}, {})

  /** One transaction, or one local decision, of some worker. */
  datatype Step =
    | TakeSnapshot(provider: string)
    | Read(operation: ExternalOperation)
    | Decide(operation: ExternalOperation, evidence: ProviderEvidence)
    | Record(operation: ExternalOperation, evidenceId: string, evidence: ProviderEvidence)
    | LoadHead(operation: ExternalOperation)
    | Apply(operation: ExternalOperation, decision: ReconciliationDecision)
    | Mark(operation: ExternalOperation, evidenceId: string, decision: ReconciliationDecision)

  /** Evidence comes from a read and retry authority from a decision; any operation may be claimed for them. */
  predicate Enabled(w: World, s: Step) {
    match s
    case Decide(_, e) => e in w.evidence
    case Record(_, _, e) => e in w.evidence
    case Apply(_, d) => d in w.decisions
    case _ => true
  }

  function Issued<T>(r: Option<T>): set<T> {
    if r.Some? then {r.value} else {}
  }

  function Succeeded<T, E>(r: Result<T, E>): Option<T> {
    if r.Ok? then Some(r.value) else None
  }

  ghost function Next(w: World, s: Step): World {
    match s
    case TakeSnapshot(p) => w.(provider := Touched(w.provider, p))
    case Read(o) =>
      w.(provider := Touched(w.provider, o.provider),
         evidence := w.evidence + Issued(Succeeded(ReadOutcome(w.provider, o))))
    case Decide(o, e) =>
      w.(decisions := w.decisions + Issued(Succeeded(ReconcileLostAck(o, e))))
    case Record(o, id, e) =>
      var r := RecordOutcome(w.lineage, o, id, e);
      w.(lineage := Recorded(w.lineage, o, id, e),
         decisions := w.decisions + (if r.Ok? then {r.value.decision} else {}))
    case LoadHead(o) =>
      var r := CurrentOutcome(w.lineage, o);
      w.(decisions := w.decisions + (if r.Ok? then {r.value.decision} else {}))
    case Apply(o, d) =>
      if ApplyOutcome(w.provider, o, d).Ok?
      then w.(provider := Inserted(w.provider, o), log := Appended(w.log, o))
      else w
    case Mark(o, id, d) =>
      w.(lineage := Marked(w.lineage, o, id, d))
  }

  ghost function Run(w: World, steps: seq<Step>): World
    decreases |steps|
  {
    if steps == [] then w else Run(Next(w, steps[0]), steps[1..])
  }

  ghost predicate Legal(w: World, steps: seq<Step>)
    decreases |steps|
  {
    steps != [] ==> Enabled(w, steps[0]) && Legal(Next(w, steps[0]), steps[1..])
  }

  /** A worker keeps what a call returned to it; the stores change as the call says, and nothing is ever withdrawn. */
  lemma StepsAreCalls(w: World, s: Step)
    ensures w.evidence <= Next(w, s).evidence && w.decisions <= Next(w, s).decisions
    ensures s.Read? && ReadOutcome(w.provider, s.operation).Ok? ==>
        ReadOutcome(w.provider, s.operation).value in Next(w, s).evidence
    ensures s.Decide? && ReconcileLostAck(s.operation, s.evidence).Ok? ==>
              ReconcileLostAck(s.operation, s.evidence).value in Next(w, s).decisions
    ensures s.Record? && RecordOutcome(w.lineage, s.operation, s.evidenceId, s.evidence).Ok? ==>
              RecordOutcome(w.lineage, s.operation, s.evidenceId, s.evidence).value.decision in Next(w, s).decisions
    ensures s.LoadHead? && CurrentOutcome(w.lineage, s.operation).Ok? ==>
              CurrentOutcome(w.lineage, s.operation).value.decision in Next(w, s).decisions
    ensures Next(w, s).provider == match s
              case TakeSnapshot(p) => Touched(w.provider, p)
              case Read(o) => Touched(w.provider, o.provider)
              case Apply(o, d) => (match ApplyOutcome(w.provider, o, d) case Ok(t) => t case Err(_) => w.provider)
              case _ => w.provider
    ensures Next(w, s).lineage == match s
              case Record(o, id, e) => Recorded(w.lineage, o, id, e)
              case Mark(o, id, d) => Marked(w.lineage, o, id, d)
              case _ => w.lineage
  {
    hide ReadOutcome, ReconcileLostAck, RecordOutcome, CurrentOutcome, Recorded, Marked, Touched;
  }

  // ----- what an observation means -----

  ghost predicate CommittedBy(log: CommitLog, operation: ExternalOperation, revision: nat) {
    revision <= |LogOf(log, operation.provider)| && operation in LogOf(log, operation.provider)[..revision]
  }

  ghost predicate FreeAt(log: CommitLog, operation: ExternalOperation, revision: nat) {
    && revision <= |LogOf(log, operation.provider)|
    && forall o | o in LogOf(log, operation.provider)[..revision] :: o.operationId != operation.operationId
  }

  /** An observation made at a revision is the truth about the first `revision` commits, forever. */
  ghost predicate Truth(log: CommitLog, operation: ExternalOperation, revision: nat, present: bool) {
    && revision <= |LogOf(log, operation.provider)|
    && (present <==> CommittedBy(log, operation, revision))
    && (!present ==> FreeAt(log, operation, revision))
  }

  /** The exact effect a reading is about. */
  ghost function Subject(e: ProviderEvidence): ExternalOperation {
    match (e.observedTool, e.observedPayload, e.idempotencyEffect)
    case (Some(tool), Some(payload), _) => ExternalOperation(e.provider, e.operationId, tool, payload)
    case (_, _, Some(DigestOf(o))) => o
    case _ => ExternalOperation(e.provider, e.operationId, "", "")
  }

  ghost predicate TrueReading(log: CommitLog, e: ProviderEvidence) {
    && e.readbackRevision.Some?
    && var o, r := Subject(e), e.readbackRevision.value;
    && e == (if e.readback == Present then PresentEvidence(o, r) else AbsentEvidence(o, r))
    && Truth(log, o, r, e.readback == Present)
  }

  ghost predicate TrueDecision(log: CommitLog, d: ReconciliationDecision) {
    d == AcceptDecision() ||
    (&& d.retryEffect.Some? && d.retryEffect.value.DigestOf?
     && d.retryPreconditionRevision.Some? && 0 <= d.retryPreconditionRevision.value
     && var o, r := d.retryEffect.value.preimage, d.retryPreconditionRevision.value;
     && d == RetryDecision(o, r)
     && Truth(log, o, r, false))
  }

  ghost predicate TrueHead(log: CommitLog, key: Key, h: EvidenceRecord) {
    && h.effect.DigestOf?
    && var o := h.effect.preimage;
    && o.Key() == key
    && h.decision == (if h.decision.action == AcceptRemoteCommit then AcceptDecision()
        else RetryDecision(o, h.revision))
    && Truth(log, o, h.revision, h.decision.action == AcceptRemoteCommit)
  }

  ghost predicate TrueCompletion(log: CommitLog, key: Key, c: CompletionRecord) {
    && c.effect.DigestOf?
    && c.effect.preimage.Key() == key
    && CommittedBy(log, c.effect.preimage, c.revision)
  }

  /** Every reading, decision, head and completion is true of the log. */
  ghost predicate AllTrue(log: CommitLog, lineage: EvidenceTables, evidence: set<ProviderEvidence>,
                          decisions: set<ReconciliationDecision>)
  {
    && (forall e | e in evidence :: TrueReading(log, e))
    && (forall d | d in decisions :: TrueDecision(log, d))
    && (forall k | k in lineage.heads :: TrueHead(log, k, lineage.heads[k]))
    && (forall k | k in lineage.completions :: TrueCompletion(log, k, lineage.completions[k]))
  }

  ghost predicate MultiVersion(w: World) {
    && Logged(w.provider, w.log)
    && Coherent(w.lineage)
    && AllTrue(w.log, w.lineage, w.evidence, w.decisions)
  }

  // ----- the invariant is kept by every step -----

  ghost predicate LogExtends(a: CommitLog, b: CommitLog) {
    forall p :: IsPrefix(LogOf(a, p), LogOf(b, p))
  }

  lemma TruthIsForever(a: CommitLog, b: CommitLog, o: ExternalOperation, r: nat, present: bool)
    requires LogExtends(a, b)
    ensures Truth(a, o, r, present) ==> Truth(b, o, r, present)
    ensures CommittedBy(a, o, r) ==> CommittedBy(b, o, r)
  {
    var x, y := LogOf(a, o.provider), LogOf(b, o.provider);
    assert IsPrefix(x, y);
    if r <= |x| {
      assert x[..r] == y[..r];
    }
  }

  lemma ObservationsStayTrue(w: World, log: CommitLog)
    requires AllTrue(w.log, w.lineage, w.evidence, w.decisions) && LogExtends(w.log, log)
    ensures AllTrue(log, w.lineage, w.evidence, w.decisions)
  {
    forall o, r: nat, present ensures Truth(w.log, o, r, present) ==> Truth(log, o, r, present) {
      TruthIsForever(w.log, log, o, r, present);
    }
    forall o, r: nat ensures CommittedBy(w.log, o, r) ==> CommittedBy(log, o, r) {
      TruthIsForever(w.log, log, o, r, true);
    }
  }

  lemma ReadTellsTheTruth(w: World, o: ExternalOperation)
    requires Logged(w.provider, w.log)
    ensures var r := ReadOutcome(w.provider, o); r.Ok? ==> TrueReading(w.log, r.value) && Subject(r.value) == o
  {
    var entries := LogOf(w.log, o.provider);
    assert RevisionOf(w.provider, o.provider) == |entries|;
    assert entries[..|entries|] == entries;
    assert Stores(w.provider, o) <==> o in entries;
    KeyTakenIffLogged(w.provider, w.log, o);
  }

  /** A reading only decides the operation it was about, and the decision is as true as the reading. */
  lemma DecisionTellsTheTruth(log: CommitLog, o: ExternalOperation, e: ProviderEvidence)
    requires TrueReading(log, e) && ReconcileLostAck(o, e).Ok?
    ensures Subject(e) == o
    ensures var d := ReconcileLostAck(o, e).value;
            && d == (if e.readback == Present then AcceptDecision() else RetryDecision(o, e.readbackRevision.value))
            && TrueDecision(log, d)
  {
    DecisionsAreJustified(o, e);
  }

  lemma ReadKeepsTruth(w: World, o: ExternalOperation)
    requires MultiVersion(w)
    ensures MultiVersion(Next(w, Read(o)))
  {
    TouchedKeepsLogged(w.provider, w.log, o.provider);
    ReadTellsTheTruth(w, o);
  }

  lemma RecordKeepsTruth(w: World, o: ExternalOperation, id: string, e: ProviderEvidence)
    requires MultiVersion(w) && e in w.evidence
    ensures MultiVersion(Next(w, Record(o, id, e)))
  {
    hide Logged, Coherent, Truth;
    CallIsSafe(w.lineage, CallRecord(o, id, e));
    var r := RecordOutcome(w.lineage, o, id, e);
    if r.Ok? {
      assert TrueReading(w.log, e);
      DecisionTellsTheTruth(w.log, o, e);
      var key, t := o.Key(), Recorded(w.lineage, o, id, e);
      assert TrueHead(w.log, key, r.value);
      assert forall k | k in t.heads :: k == key || (k in w.lineage.heads && t.heads[k] == w.lineage.heads[k]);
      assert TrueDecision(w.log, r.value.decision);
    }
  }

  lemma CommitExtendsLog(log: CommitLog, o: ExternalOperation)
    ensures LogExtends(log, Appended(log, o))
  {
  }

  lemma ApplyKeepsTruth(w: World, o: ExternalOperation, d: ReconciliationDecision)
    requires MultiVersion(w) && ApplyOutcome(w.provider, o, d).Ok?
    ensures MultiVersion(Next(w, Apply(o, d)))
  {
    hide Logged, Coherent, AllTrue;
    CommitKeepsLogged(w.provider, w.log, o, d);
    CommitExtendsLog(w.log, o);
    ObservationsStayTrue(w, Appended(w.log, o));
  }

  lemma MarkKeepsTruth(w: World, o: ExternalOperation, id: string, d: ReconciliationDecision)
    requires MultiVersion(w)
    ensures MultiVersion(Next(w, Mark(o, id, d)))
  {
    hide Logged, Coherent, CommittedBy, FreeAt;
    CallIsSafe(w.lineage, CallMark(o, id, d));
    if MarkOutcome(w.lineage, o, id, d).Ok? {
      assert TrueHead(w.log, o.Key(), w.lineage.heads[o.Key()]);
    }
  }

  lemma IssueKeepsTruth(w: World, s: Step)
    requires MultiVersion(w) && Enabled(w, s) && (s.Decide? || s.LoadHead? || s.TakeSnapshot?)
    ensures MultiVersion(Next(w, s))
  {
    match s {
      case Decide(o, e) =>
        assert TrueReading(w.log, e);
        if ReconcileLostAck(o, e).Ok? { DecisionTellsTheTruth(w.log, o, e); }
      case LoadHead(o) =>
        if CurrentOutcome(w.lineage, o).Ok? { assert TrueHead(w.log, o.Key(), w.lineage.heads[o.Key()]); }
      case TakeSnapshot(p) =>
        TouchedKeepsLogged(w.provider, w.log, p);
    }
  }

  lemma StepKeepsTruth(w: World, s: Step)
    requires MultiVersion(w) && Enabled(w, s)
    ensures MultiVersion(Next(w, s))
  {
    hide Logged, Coherent, AllTrue;
    match s {
      case Read(o) => ReadKeepsTruth(w, o);
      case Record(o, id, e) => RecordKeepsTruth(w, o, id, e);
      case Apply(o, d) =>
        if ApplyOutcome(w.provider, o, d).Ok? { ApplyKeepsTruth(w, o, d); }
      case Mark(o, id, d) => MarkKeepsTruth(w, o, id, d);
      case _ => IssueKeepsTruth(w, s);
    }
  }

  lemma StepExtendsLog(w: World, s: Step)
    ensures LogExtends(w.log, Next(w, s).log)
  {
    if s.Apply? {
      CommitExtendsLog(w.log, s.operation);
    }
  }

  lemma {:induction false} RunKeepsTruth(w: World, steps: seq<Step>)
    requires MultiVersion(w) && Legal(w, steps)
    ensures MultiVersion(Run(w, steps)) && LogExtends(w.log, Run(w, steps).log)
    decreases |steps|
  {
    if steps != [] {
      StepKeepsTruth(w, steps[0]);
      StepExtendsLog(w, steps[0]);
      RunKeepsTruth(Next(w, steps[0]), steps[1..]);
      var mid, end := Next(w, steps[0]), Run(w, steps);
      forall p ensures IsPrefix(LogOf(w.log, p), LogOf(end.log, p)) {
        assert IsPrefix(LogOf(w.log, p), LogOf(mid.log, p)) && IsPrefix(LogOf(mid.log, p), LogOf(end.log, p));
      }
    }
  }

  /** Whatever the workers do and whenever they crash or replay: every reading, decision, head and
      completion ever produced is the truth about the commit log at its own revision. */
  lemma MultiVersionTruth(steps: seq<Step>)
    requires Legal(INITIAL, steps)
    ensures MultiVersion(Run(INITIAL, steps))
  {
    RunKeepsTruth(INITIAL, steps);
  }

  /** No operation identity is ever committed twice, and the exact effect of a completed
      operation is in the log exactly once. */
  lemma AtMostOneEffect(steps: seq<Step>, o: ExternalOperation)
    requires Legal(INITIAL, steps)
    ensures var entries := LogOf(Run(INITIAL, steps).log, o.provider);
            && (forall i, j | 0 <= i < |entries| && 0 <= j < |entries|
                && entries[i].operationId == entries[j].operationId :: i == j)
            && (forall k | k in Run(INITIAL, steps).lineage.completions ::
                  var effect := Run(INITIAL, steps).lineage.completions[k].effect;
                  effect == o.EffectSha256() ==> exists i :: 0 <= i < |entries| && entries[i] == o)
  {
    MultiVersionTruth(steps);
    var w := Run(INITIAL, steps);
    var entries := LogOf(w.log, o.provider);
    assert DistinctIdentities(entries);
    forall k | k in w.lineage.completions && w.lineage.completions[k].effect == o.EffectSha256()
      ensures exists i :: 0 <= i < |entries| && entries[i] == o
    {
      assert TrueCompletion(w.log, k, w.lineage.completions[k]);
      assert o in entries[..w.lineage.completions[k].revision];
    }
  }

  // ----- branches no run reaches -----

  /** Retry authority that was really issued never meets "contradicts the absence readback",
      whichever operation it is presented for: the stale check fires first. */
  lemma AbsenceIsNeverContradicted(steps: seq<Step>, o: ExternalOperation, d: ReconciliationDecision)
    requires Legal(INITIAL, steps) && d in Run(INITIAL, steps).decisions
    ensures ApplyOutcome(Run(INITIAL, steps).provider, o, d) != Err(ConflictContradictsAbsence)
  {
    MultiVersionTruth(steps);
    var w := Run(INITIAL, steps);
    assert TrueDecision(w.log, d);
    var entries := LogOf(w.log, o.provider);
    assert RevisionOf(w.provider, o.provider) == |entries| && entries[..|entries|] == entries;
    KeyTakenIffLogged(w.provider, w.log, o);
  }

  /** Real readings of one revision agree, so `record` never meets its same-revision conflict. */
  lemma SameRevisionNeverConflicts(steps: seq<Step>, o: ExternalOperation, id: string, e: ProviderEvidence)
    requires Legal(INITIAL, steps) && e in Run(INITIAL, steps).evidence
    ensures RecordOutcome(Run(INITIAL, steps).lineage, o, id, e) != Err(LineageSameRevisionConflict)
  {
    MultiVersionTruth(steps);
    SameRevisionAgrees(Run(INITIAL, steps), o, id, e);
  }

  lemma SameRevisionAgrees(w: World, o: ExternalOperation, id: string, e: ProviderEvidence)
    requires MultiVersion(w) && TrueReading(w.log, e)
    ensures RecordOutcome(w.lineage, o, id, e) != Err(LineageSameRevisionConflict)
  {
    if ReconcileLostAck(o, e).Ok? && o.Key() in w.lineage.heads {
      DecisionTellsTheTruth(w.log, o, e);
      assert TrueHead(w.log, o.Key(), w.lineage.heads[o.Key()]);
    }
  }

  // ----- one worker alone -----

  datatype Outcome = Completed(world: World, completion: CompletionRecord) | Raised

  ghost function FinishFrom(w: World, o: ExternalOperation, record: EvidenceRecord): Outcome {
    match MarkOutcome(w.lineage, o, record.evidenceId, record.decision)
    case Err(_) => Raised
    case Ok(c) => Completed(Next(w, Mark(o, record.evidenceId, record.decision)), c)
  }

  ghost function ReadAndRecord(w: World, o: ExternalOperation, id: string): Option<(World, EvidenceRecord)> {
    match ReadOutcome(w.provider, o)
    case Err(_) => None
    case Ok(e) =>
      var w1 := Next(w, Read(o));
      match RecordOutcome(w1.lineage, o, id, e)
      case Err(_) => None
      case Ok(record) => Some((Next(w1, Record(o, id, e)), record))
  }

  /** A worker without interference: read and record; if ABSENT, apply, then read and record
      again; complete. `Raised` if any call raises. */
  ghost function Solo(w: World, o: ExternalOperation, id1: string, id2: string): Outcome {
    match ReadAndRecord(w, o, id1)
    case None => Raised
    case Some((w1, record)) =>
      if !record.decision.shouldRetry then FinishFrom(w1, o, record)
      else match ApplyOutcome(w1.provider, o, record.decision)
        case Err(_) => Raised
        case Ok(_) =>
          match ReadAndRecord(Next(w1, Apply(o, record.decision)), o, id2)
          case None => Raised
          case Some((w2, record2)) => FinishFrom(w2, o, record2)
  }

  ghost predicate BoundOnlyTo(w: World, o: ExternalOperation) {
    && (o.Key() in w.provider.effects ==> Stores(w.provider, o))
    && (o.Key() in w.lineage.heads ==> w.lineage.heads[o.Key()].effect == o.EffectSha256())
  }

  /** A completed operation is read as present. */
  lemma CompletedIsStored(w: World, o: ExternalOperation)
    requires MultiVersion(w)
    requires o.Key() in w.lineage.completions && w.lineage.completions[o.Key()].effect == o.EffectSha256()
    ensures Stores(w.provider, o)
  {
    assert TrueCompletion(w.log, o.Key(), w.lineage.completions[o.Key()]);
    assert o in LogOf(w.log, o.provider);
  }

  /** No head is ahead of the provider. */
  lemma HeadIsNotAhead(w: World, o: ExternalOperation)
    requires MultiVersion(w) && o.Key() in w.lineage.heads
    ensures w.lineage.heads[o.Key()].revision <= RevisionOf(w.provider, o.provider)
  {
    hide Coherent;
    assert TrueHead(w.log, o.Key(), w.lineage.heads[o.Key()]);
    assert RevisionOf(w.provider, o.provider) == |LogOf(w.log, o.provider)|;
  }

  /** A fresh reading is recorded exactly when the head is not bound to another effect. */
  lemma FreshReadingIsRecorded(w: World, o: ExternalOperation, id: string, e: ProviderEvidence)
    requires MultiVersion(w) && !IsBlank(id) && ReadOutcome(w.provider, o) == Ok(e)
    ensures var r := RecordOutcome(w.lineage, o, id, e);
            && (r.Ok? <==> (o.Key() in w.lineage.heads ==> w.lineage.heads[o.Key()].effect == o.EffectSha256()))
            && (r.Ok? ==>
                  && r.value.effect == o.EffectSha256()
                  && r.value.revision == RevisionOf(w.provider, o.provider)
                  && r.value.decision == (if Stores(w.provider, o) then AcceptDecision()
                      else RetryDecision(o, r.value.revision)))
  {
    var key := o.Key();
    ReadTellsTheTruth(w, o);
    SameRevisionAgrees(w, o, id, e);
    assert Coherent(w.lineage);
    if key in w.lineage.heads {
      HeadIsNotAhead(w, o);
    }
    if key in w.lineage.completions && w.lineage.completions[key].effect == o.EffectSha256() {
      CompletedIsStored(w, o);
    }
  }

  /** Reading and recording succeeds exactly when neither store binds the identity to another effect. */
  lemma ReadAndRecordSucceeds(w: World, o: ExternalOperation, id: string)
    requires MultiVersion(w) && !IsBlank(id)
    ensures ReadAndRecord(w, o, id).Some? <==> BoundOnlyTo(w, o)
    ensures var r := ReadAndRecord(w, o, id); r.Some? ==>
              var (w', record) := r.value;
              && MultiVersion(w') && BoundOnlyTo(w', o) && w'.log == w.log
              && w'.provider == Touched(w.provider, o.provider)
              && w'.lineage.heads[o.Key()] == record
              && record.effect == o.EffectSha256()
              && record.revision == RevisionOf(w.provider, o.provider)
              && record.decision == (if Stores(w.provider, o) then AcceptDecision()
                  else RetryDecision(o, record.revision))
  {
    hide MultiVersion;
    var read := ReadOutcome(w.provider, o);
    if read.Ok? {
      var w1 := Next(w, Read(o));
      StepKeepsTruth(w, Read(o));
      FreshReadingIsRecorded(w, o, id, read.value);
      StepKeepsTruth(w1, Record(o, id, read.value));
    }
  }

  lemma FinishSucceeds(w: World, o: ExternalOperation, record: EvidenceRecord)
    requires MultiVersion(w)
    requires o.Key() in w.lineage.heads && w.lineage.heads[o.Key()] == record
    requires record.effect == o.EffectSha256() && record.decision == AcceptDecision()
    ensures var out := FinishFrom(w, o, record);
            && out.Completed? && MultiVersion(out.world) && out.world.log == w.log
            && out.completion.effect == o.EffectSha256()
            && CompletionOutcome(out.world.lineage, o) == Ok(Some(out.completion))
  {
    hide Logged, AllTrue;
    MarkKeepsTruth(w, o, record.evidenceId, record.decision);
  }

  /** From every reachable state a worker left alone completes the operation, with its effect
      committed exactly once over all, if and only if neither store binds the identity to a
      different effect; it writes at most that one commit. */
  lemma SoloConverges(steps: seq<Step>, o: ExternalOperation, id1: string, id2: string)
    requires Legal(INITIAL, steps) && !IsBlank(id1) && !IsBlank(id2)
    ensures var w := Run(INITIAL, steps);
            var out := Solo(w, o, id1, id2);
            && (out.Completed? <==> BoundOnlyTo(w, o))
            && (out.Completed? ==>
                  && CompletionOutcome(out.world.lineage, o) == Ok(Some(out.completion))
                  && out.world.log == (if Stores(w.provider, o) then w.log else Appended(w.log, o))
                  && o in LogOf(out.world.log, o.provider)
                  && DistinctIdentities(LogOf(out.world.log, o.provider)))
  {
    hide Logged, Coherent, AllTrue;
    MultiVersionTruth(steps);
    var w := Run(INITIAL, steps);
    ReadAndRecordSucceeds(w, o, id1);
    if BoundOnlyTo(w, o) {
      if Stores(w.provider, o) {
        SoloFindsTheEffect(w, o, id1, id2);
      } else {
        SoloCommitsTheEffect(w, o, id1, id2);
      }
    }
  }

  ghost predicate ConvergedOn(w: World, o: ExternalOperation, out: Outcome, log: CommitLog) {
    && out.Completed?
    && CompletionOutcome(out.world.lineage, o) == Ok(Some(out.completion))
    && out.world.log == log
    && o in LogOf(log, o.provider)
    && DistinctIdentities(LogOf(log, o.provider))
  }

  lemma SoloFindsTheEffect(w: World, o: ExternalOperation, id1: string, id2: string)
    requires MultiVersion(w) && BoundOnlyTo(w, o) && Stores(w.provider, o) && !IsBlank(id1)
    ensures ConvergedOn(w, o, Solo(w, o, id1, id2), w.log)
  {
    hide Coherent, AllTrue;
    ReadAndRecordSucceeds(w, o, id1);
    var (w1, record) := ReadAndRecord(w, o, id1).value;
    FinishSucceeds(w1, o, record);
    assert o in LogOf(w.log, o.provider) && DistinctIdentities(LogOf(w.log, o.provider));
  }

  lemma SoloCommitsTheEffect(w: World, o: ExternalOperation, id1: string, id2: string)
    requires MultiVersion(w) && BoundOnlyTo(w, o) && !Stores(w.provider, o) && !IsBlank(id1) && !IsBlank(id2)
    ensures ConvergedOn(w, o, Solo(w, o, id1, id2), Appended(w.log, o))
  {
    hide Coherent, AllTrue;
    ReadAndRecordSucceeds(w, o, id1);
    var (w1, record) := ReadAndRecord(w, o, id1).value;
    assert ApplyOutcome(w1.provider, o, record.decision).Ok?;
    var w2 := Next(w1, Apply(o, record.decision));
    assert w2.log == Appended(w.log, o);
    ApplyKeepsTruth(w1, o, record.decision);
    assert Stores(w2.provider, o);
    SoloFindsTheEffect(w2, o, id2, id2);
  }

  // ----- contention -----

  /** Retry authority minted by a read is refused as stale exactly when some commit landed on that
      provider since the read; otherwise the write commits. */
  lemma StaleIffCommitSince(w: World, o: ExternalOperation, steps: seq<Step>)
    requires MultiVersion(w) && ReadOutcome(w.provider, o) == Ok(AbsentEvidence(o, RevisionOf(w.provider, o.provider)))
    requires Legal(Next(w, Read(o)), steps)
    ensures var w' := Run(Next(w, Read(o)), steps);
            var r := RevisionOf(w.provider, o.provider);
            var apply := ApplyOutcome(w'.provider, o, RetryDecision(o, r));
            && (apply == Err(StaleProviderReadback) <==> LogOf(w'.log, o.provider) != LogOf(w.log, o.provider))
            && (apply.Ok? <==> LogOf(w'.log, o.provider) == LogOf(w.log, o.provider))
  {
    var w1 := Next(w, Read(o));
    StepKeepsTruth(w, Read(o));
    RunKeepsTruth(w1, steps);
    var w' := Run(w1, steps);
    var before, after := LogOf(w.log, o.provider), LogOf(w'.log, o.provider);
    assert IsPrefix(before, after) && RevisionOf(w.provider, o.provider) == |before|;
    assert RevisionOf(w'.provider, o.provider) == |after|;
    KeyTakenIffLogged(w.provider, w.log, o);
    KeyTakenIffLogged(w'.provider, w'.log, o);
  }

  /** One refused attempt: others work, the worker reads ABSENT, others work, its write is refused. */
  datatype Attempt = Attempt(before: seq<Step>, between: seq<Step>)

  ghost function AtRead(w: World, a: Attempt): World {
    Run(w, a.before)
  }

  ghost function AtWrite(w: World, o: ExternalOperation, a: Attempt): World {
    Run(Next(AtRead(w, a), Read(o)), a.between)
  }

  ghost predicate Outrun(w: World, o: ExternalOperation, a: Attempt) {
    var w1 := AtRead(w, a);
    var r := RevisionOf(w1.provider, o.provider);
    && Legal(w, a.before)
    && ReadOutcome(w1.provider, o) == Ok(AbsentEvidence(o, r))
    && Legal(Next(w1, Read(o)), a.between)
    && ApplyOutcome(AtWrite(w, o, a).provider, o, RetryDecision(o, r)) == Err(StaleProviderReadback)
  }

  ghost predicate AllOutrun(w: World, o: ExternalOperation, attempts: seq<Attempt>)
    decreases |attempts|
  {
    attempts != [] ==> Outrun(w, o, attempts[0]) && AllOutrun(AtWrite(w, o, attempts[0]), o, attempts[1..])
  }

  ghost function AfterAttempts(w: World, o: ExternalOperation, attempts: seq<Attempt>): World
    decreases |attempts|
  {
    if attempts == [] then w else AfterAttempts(AtWrite(w, o, attempts[0]), o, attempts[1..])
  }

  lemma RefusalCostsACommit(w: World, o: ExternalOperation, a: Attempt)
    requires MultiVersion(w) && Outrun(w, o, a)
    ensures MultiVersion(AtRead(w, a)) && MultiVersion(AtWrite(w, o, a))
    ensures |LogOf(w.log, o.provider)| <= |LogOf(AtRead(w, a).log, o.provider)|
    ensures |LogOf(AtRead(w, a).log, o.provider)| < |LogOf(AtWrite(w, o, a).log, o.provider)|
  {
    var w1, w2 := AtRead(w, a), AtWrite(w, o, a);
    RunKeepsTruth(w, a.before);
    StepKeepsTruth(w1, Read(o));
    RunKeepsTruth(Next(w1, Read(o)), a.between);
    StaleIffCommitSince(w1, o, a.between);
    assert IsPrefix(LogOf(w.log, o.provider), LogOf(w1.log, o.provider));
    assert IsPrefix(LogOf(w1.log, o.provider), LogOf(w2.log, o.provider));
  }

  /** Every refused attempt used up at least one commit made by somebody else. */
  lemma {:induction false} RefusalsCostCommits(w: World, o: ExternalOperation, attempts: seq<Attempt>)
    requires MultiVersion(w) && AllOutrun(w, o, attempts)
    ensures MultiVersion(AfterAttempts(w, o, attempts))
    ensures |LogOf(w.log, o.provider)| + |attempts| <= |LogOf(AfterAttempts(w, o, attempts).log, o.provider)|
    decreases |attempts|
  {
    if attempts != [] {
      RefusalCostsACommit(w, o, attempts[0]);
      RefusalsCostCommits(AtWrite(w, o, attempts[0]), o, attempts[1..]);
    }
  }

  /** If the operations of the provider draw on at most |ids| identities, a worker that re-reads
      after every refusal makes at most |ids| - r attempts, r the revision of its first read:
      it then has committed, or it reads its identity as stored. `attempts` were refused, `rest`
      leads to the next read; if that reads ABSENT again, one more attempt is under way. */
  lemma AttemptsAreBounded(w: World, o: ExternalOperation, attempts: seq<Attempt>, rest: seq<Step>, ids: set<string>)
    requires MultiVersion(w) && AllOutrun(w, o, attempts) && attempts != []
    requires Legal(AfterAttempts(w, o, attempts), rest)
    requires o.operationId in ids
    requires forall x | x in LogOf(Run(AfterAttempts(w, o, attempts), rest).log, o.provider) :: x.operationId in ids
    ensures var end := Run(AfterAttempts(w, o, attempts), rest);
            var made := |attempts| + (if o.Key() in end.provider.effects then 0 else 1);
            made <= |ids| - RevisionOf(AtRead(w, attempts[0]).provider, o.provider)
  {
    var first, mid := AtRead(w, attempts[0]), AfterAttempts(w, o, attempts);
    var end := Run(mid, rest);
    RunKeepsTruth(w, attempts[0].before);
    FromTheFirstRead(w, o, attempts);
    RunKeepsTruth(mid, rest);
    assert IsPrefix(LogOf(mid.log, o.provider), LogOf(end.log, o.provider));
    assert RevisionOf(first.provider, o.provider) == |LogOf(first.log, o.provider)|;
    CommitsAreBounded(end, o, ids);
  }

  lemma FromTheFirstRead(w: World, o: ExternalOperation, attempts: seq<Attempt>)
    requires MultiVersion(w) && AllOutrun(w, o, attempts) && attempts != []
    ensures MultiVersion(AfterAttempts(w, o, attempts))
    ensures |LogOf(AtRead(w, attempts[0]).log, o.provider)| + |attempts|
            <= |LogOf(AfterAttempts(w, o, attempts).log, o.provider)|
  {
    RefusalCostsACommit(w, o, attempts[0]);
    RefusalsCostCommits(AtWrite(w, o, attempts[0]), o, attempts[1..]);
  }

  /** A provider commits each identity at most once, so identities bound its revision. */
  lemma CommitsAreBounded(w: World, o: ExternalOperation, ids: set<string>)
    requires MultiVersion(w) && o.operationId in ids
    requires forall x | x in LogOf(w.log, o.provider) :: x.operationId in ids
    ensures |LogOf(w.log, o.provider)| + (if o.Key() in w.provider.effects then 0 else 1) <= |ids|
  {
    var entries := LogOf(w.log, o.provider);
    KeyTakenIffLogged(w.provider, w.log, o);
    var used := seq(|entries|, i requires 0 <= i < |entries| => entries[i].operationId);
    assert DistinctIdentities(entries);
    if o.Key() !in w.provider.effects {
      used := used + [o.operationId];
    }
    DistinctBounded(used, ids);
  }
}
