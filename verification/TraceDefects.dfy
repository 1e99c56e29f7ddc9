/** What each label of the trace detector means: a record that stands in some relation to the records before it. */
module TraceDefects {
  import opened Common
  import opened TraceIntegrity

  // ----- the records that a later one is compared with -----

  predicate Binder(r: Record) {
    r.body.Binds() && IsSha256(r.body.payload)
  }

  /** The first approval or effect with a well-formed payload digest: its tool and payload bind the trace. */
  predicate FirstBinder(rs: seq<Record>, i: int) {
    0 <= i < |rs| && Binder(rs[i]) && forall k | 0 <= k < i :: !Binder(rs[k])
  }

  predicate LastDecision(rs: seq<Record>, i: int, d: Decision) {
    0 <= i < |rs| && rs[i].body.Decides(d) && forall k | i < k < |rs| :: !rs[k].body.Decides(d)
  }

  predicate IsLastEvidence(rs: seq<Record>, i: int) {
    0 <= i < |rs| && rs[i].body.Evidence? && forall k | i < k < |rs| :: !rs[k].body.Evidence?
  }

  predicate LastCheckpoint(rs: seq<Record>, i: int) {
    0 <= i < |rs| && rs[i].body.Checkpoint? && forall k | i < k < |rs| :: !rs[k].body.Checkpoint?
  }

  predicate HasEvidenceId(r: Record, id: string) {
    r.body.Evidence? && r.body.evidenceId == id && id != ""
  }

  /** The first evidence listed under an id. */
  predicate FirstNamed(rs: seq<Record>, i: int, id: string) {
    0 <= i < |rs| && HasEvidenceId(rs[i], id) && forall k | 0 <= k < i :: !HasEvidenceId(rs[k], id)
  }

  /** The effect digest is not that of the bound tool and payload. */
  ghost predicate NotTheBoundEffect(scope: Scope, rs: seq<Record>, effect: Digest) {
    exists i :: FirstBinder(rs, i) && effect != EffectFingerprint(scope, rs[i].body.tool, rs[i].body.payload)
  }

  // ----- the labels -----

  predicate ScopeDefect(scope: Scope, v: Violation) {
    || (v == ScopeRunIdInvalid && scope.runId == "")
    || (v == ScopeTurnIdInvalid && scope.turnId == "")
    || (v == ScopeProviderInvalid && scope.provider == "")
    || (v == ScopeOperationIdInvalid && scope.operationId == "")
  }

  predicate OwnDefect(scope: Scope, r: Record, v: Violation) {
    || (v == RecordIdInvalid && r.recordId == "")
    || (v == RecordSequenceInvalid && r.sequence <= 0)
    || (v == OperationScopeMismatch && r.body.OfOperation() && r.body.operationId != scope.operationId)
    || (v == ProviderScopeMismatch && r.body.OfOperation() && r.body.provider != scope.provider)
    || (v == RecordKindInvalid && r.body.UnknownKind?)
  }

  ghost predicate OrderDefect(before: seq<Record>, r: Record, v: Violation) {
    || (v == RecordIdDuplicate && r.recordId != "" && exists a :: a in before && a.recordId == r.recordId)
    || (v == SequenceNotStrictlyIncreasing
        && r.sequence > 0 && exists a :: a in before && a.sequence > 0 && a.sequence >= r.sequence)
  }

  ghost predicate HeaderDefect(scope: Scope, before: seq<Record>, r: Record, v: Violation) {
    OwnDefect(scope, r, v) || OrderDefect(before, r, v)
  }

  ghost predicate EventDefect(scope: Scope, before: seq<Record>, e: Body, v: Violation)
    requires e.RuntimeEvent?
  {
    || (v == EventRunScopeMismatch && e.runId != scope.runId)
    || (v == EventTurnScopeMismatch && e.turnId != scope.turnId)
    || (v == EventIdInvalid && e.eventId == "")
    || (v == EventIdDuplicate
        && e.eventId != "" && exists a :: a in before && a.body.RuntimeEvent? && a.body.eventId == e.eventId)
    || (v == EventKindInvalid && e.eventKind.OtherEvent?)
    || (v == EventPayloadInvalid && !IsSha256(e.payload))
  }

  predicate SameBinding(a: Body, b: Body)
    requires a.Binds() && b.Binds()
  {
    a.tool == b.tool && a.payload == b.payload
  }

  ghost predicate BindingDefect(before: seq<Record>, o: Body, v: Violation)
    requires o.Binds()
  {
    || (v == OperationToolInvalid && o.tool == "")
    || (v == OperationPayloadInvalid && !IsSha256(o.payload))
    || (v == ApprovalEffectBindingMismatch
        && IsSha256(o.payload)
        && (exists i :: FirstBinder(before, i) && !SameBinding(before[i].body, o)))
  }

  ghost predicate ApprovalDefect(scope: Scope, before: seq<Record>, r: Record, v: Violation)
    requires r.body.Approval?
  {
    || (v == ApprovalDecisionInvalid && r.body.decision != Approved && r.body.decision != Denied)
    || (v == ApprovalFingerprintMismatch && NotTheBoundEffect(scope, before + [r], r.body.effect))
    || BindingDefect(before, r.body, v)
  }

  ghost predicate EffectDefect(scope: Scope, before: seq<Record>, r: Record, v: Violation)
    requires r.body.Effect?
  {
    || (v == EffectFingerprintMismatch && NotTheBoundEffect(scope, before + [r], r.body.effect))
    || (v == EffectWithoutPriorApproval
        && !(exists i :: LastDecision(before, i, Approved) && before[i].sequence < r.sequence))
    || (v == EffectAfterDenial && (exists i :: LastDecision(before, i, Denied) && before[i].sequence < r.sequence))
    || BindingDefect(before, r.body, v)
  }

  predicate Contradicts(a: Body, b: Body)
    requires a.Evidence? && b.Evidence?
  {
    a.revision == b.revision && (a.readback != b.readback || a.effect != b.effect)
  }

  ghost predicate EvidenceDefect(scope: Scope, before: seq<Record>, e: Body, v: Violation)
    requires e.Evidence?
  {
    || (v == EvidenceIdInvalid && e.evidenceId == "")
    || (v == EvidenceIdDuplicate && (exists a :: a in before && HasEvidenceId(a, e.evidenceId)))
    || (v == RevisionInvalid && e.revision < 0)
    || (v == ReadbackInvalid && e.readback.OtherReadback?)
    || (v == EvidenceFingerprintMismatch && NotTheBoundEffect(scope, before, e.effect))
    || (v == RevisionRollback && (exists i :: IsLastEvidence(before, i) && e.revision < before[i].body.revision))
    || (v == SameRevisionConflict
        && (exists i :: IsLastEvidence(before, i) && Contradicts(e, before[i].body)))
  }

  /** The largest revision of the evidence so far. */
  ghost predicate IsLargest(rs: seq<Record>, revision: int) {
    && (exists a :: a in rs && a.body.Evidence? && a.body.revision == revision)
    && (forall a | a in rs && a.body.Evidence? :: a.body.revision <= revision)
  }

  /** The part of a completion's defects that the evidence it names decides. */
  ghost predicate NamedDefect(before: seq<Record>, c: Body, v: Violation)
    requires c.Completion?
  {
    || (v == CompletionEvidenceMissing && (forall a | a in before :: !HasEvidenceId(a, c.evidenceId)))
    || (v == CompletionRequiresPresent
        && (exists i :: FirstNamed(before, i, c.evidenceId) && before[i].body.readback != Present))
    || (v == CompletionRevisionMismatch
        && (exists i :: FirstNamed(before, i, c.evidenceId) && before[i].body.revision != c.revision))
    || (v == CompletionEvidenceEffectMismatch
        && (exists i :: FirstNamed(before, i, c.evidenceId) && before[i].body.effect != c.effect))
  }

  ghost predicate HasEvidence(rs: seq<Record>) {
    exists a :: a in rs && a.body.Evidence?
  }

  ghost predicate HasCompletion(rs: seq<Record>) {
    exists a :: a in rs && a.body.Completion?
  }

  ghost predicate CompletionDefect(scope: Scope, before: seq<Record>, c: Body, v: Violation)
    requires c.Completion?
  {
    || (v == MultipleCompletions && HasCompletion(before))
    || (v == CompletionFingerprintMismatch && NotTheBoundEffect(scope, before, c.effect))
    || NamedDefect(before, c, v)
    || (v == CompletionNotLatestRevision && HasEvidence(before) && !IsLargest(before, c.revision))
  }

  predicate CheckpointFieldDefect(c: Body, v: Violation)
    requires c.Checkpoint?
  {
    || (v == CheckpointIdInvalid && c.checkpointId == "")
    || (v == CheckpointSequenceInvalid && c.checkpointSequence < 0)
    || (v == CheckpointCompletedCountInvalid && c.completedCount < 0)
    || (v == CheckpointPlanInvalid && !IsSha256(c.plan))
  }

  predicate RootDefect(c: Body, v: Violation)
    requires c.Checkpoint?
  {
    || (v == CheckpointRootParentNotNull && c.parent.Some?)
    || (v == CheckpointRootSequenceNotZero && c.checkpointSequence != 0)
  }

  predicate SuccessorDefect(previous: Body, c: Body, v: Violation)
    requires previous.Checkpoint? && c.Checkpoint?
  {
    || (v == CheckpointParentMismatch && c.parent != Some(previous.checkpointId))
    || (v == CheckpointSequenceGap && c.checkpointSequence != previous.checkpointSequence + 1)
    || (v == CheckpointPlanDrift && c.plan != previous.plan)
    || (v == CheckpointProgressRollback && c.completedCount < previous.completedCount)
  }

  /** The first checkpoint is a root, and every other one follows the last before it. */
  ghost predicate CheckpointDefect(scope: Scope, before: seq<Record>, c: Body, v: Violation)
    requires c.Checkpoint?
  {
    || (v == CheckpointRunScopeMismatch && c.runId != scope.runId)
    || CheckpointFieldDefect(c, v)
    || (RootDefect(c, v) && forall a | a in before :: !a.body.Checkpoint?)
    || (exists i :: LastCheckpoint(before, i) && SuccessorDefect(before[i].body, c, v))
  }

  /** The defects of a record of its kind. */
  ghost predicate KindDefect(scope: Scope, before: seq<Record>, r: Record, v: Violation) {
    match r.body
    case RuntimeEvent(_, _, _, _, _) => EventDefect(scope, before, r.body, v)
    case Checkpoint(_, _, _, _, _, _) => CheckpointDefect(scope, before, r.body, v)
    case Approval(_, _, _, _, _, _) => ApprovalDefect(scope, before, r, v)
    case Effect(_, _, _, _, _) => EffectDefect(scope, before, r, v)
    case Evidence(_, _, _, _, _, _) => EvidenceDefect(scope, before, r.body, v)
    case Completion(_, _, _, _, _) => CompletionDefect(scope, before, r.body, v)
    case UnknownKind => false
  }

  /** Record `r`, listed after `before`, has the defect that `v` names. */
  ghost predicate DefectAt(scope: Scope, before: seq<Record>, r: Record, v: Violation) {
    HeaderDefect(scope, before, r, v) || KindDefect(scope, before, r, v)
  }

  ghost predicate Defect(scope: Scope, rs: seq<Record>, v: Violation) {
    ScopeDefect(scope, v) || exists j :: 0 <= j < |rs| && DefectAt(scope, rs[..j], rs[j], v)
  }

  // ----- the variables of the pass find those records -----

  lemma FirstBinderOneMore(before: seq<Record>, r: Record, i: int)
    ensures FirstBinder(before + [r], i) <==>
      FirstBinder(before, i) || (i == |before| && Binder(r) && forall a | a in before :: !Binder(a))
  {
    hide Binder;
    var rs := before + [r];
    assert forall k | 0 <= k < |before| :: rs[k] == before[k];
    if FirstBinder(rs, i) && i == |before| {
      forall a | a in before ensures !Binder(a) {
        var k :| 0 <= k < |before| && before[k] == a;
        assert rs[k] == a;
      }
    }
  }

  lemma {:induction false} BindingIsFirst(rs: seq<Record>)
    ensures BindingOf(rs).None? ==> forall a | a in rs :: !Binder(a)
    ensures BindingOf(rs).Some? ==> exists i :: FirstBinder(rs, i)
    ensures forall i | FirstBinder(rs, i) :: BindingOf(rs) == Some((rs[i].body.tool, rs[i].body.payload))
  {
    if rs != [] {
      hide FirstBinder, IsSha256;
      var before, r := rs[..|rs| - 1], rs[|rs| - 1];
      assert rs == before + [r];
      BindingIsFirst(before);
      forall i ensures FirstBinder(rs, i) <==>
        FirstBinder(before, i) || (i == |before| && Binder(r) && forall a | a in before :: !Binder(a))
      {
        FirstBinderOneMore(before, r, i);
      }
      FirstBinderInRange(before);
      FirstBinderInRange(rs);
      if BindingOf(before).Some? {
        var i :| FirstBinder(before, i);
        assert FirstBinder(rs, i);
      } else if Binder(r) {
        assert FirstBinder(rs, |before|);
      }
    }
  }

  lemma FirstBinderInRange(rs: seq<Record>)
    ensures forall i | FirstBinder(rs, i) :: 0 <= i < |rs| && Binder(rs[i]) && rs[i] in rs
  {
    hide Binder;
  }

  lemma {:induction false} LastDecidedIsLast(rs: seq<Record>, d: Decision)
    ensures LastDecided(rs, d).None? ==> forall i :: !LastDecision(rs, i, d)
    ensures LastDecided(rs, d).Some? ==> exists i :: LastDecision(rs, i, d)
    ensures forall i | LastDecision(rs, i, d) :: LastDecided(rs, d) == Some(rs[i].sequence)
  {
    if rs != [] {
      var before, r := rs[..|rs| - 1], rs[|rs| - 1];
      assert rs == before + [r];
      LastDecidedIsLast(before, d);
      if r.body.Decides(d) {
        assert LastDecision(rs, |before|, d);
      } else {
        assert forall i :: LastDecision(rs, i, d) ==> LastDecision(before, i, d);
        if LastDecided(before, d).Some? {
          var i :| LastDecision(before, i, d);
          assert LastDecision(rs, i, d);
        }
      }
    }
  }

  lemma {:induction false} HistoryEndsWithLast(rs: seq<Record>)
    ensures Last(History(rs)).None? ==> forall i :: !IsLastEvidence(rs, i)
    ensures Last(History(rs)).Some? ==> exists i :: IsLastEvidence(rs, i)
    ensures forall i | IsLastEvidence(rs, i) :: Last(History(rs)) == Some(rs[i].body)
  {
    if rs != [] {
      var before, r := rs[..|rs| - 1], rs[|rs| - 1];
      assert rs == before + [r];
      HistoryEndsWithLast(before);
      if r.body.Evidence? {
        assert IsLastEvidence(rs, |before|);
      } else {
        assert History(rs) == History(before);
        assert forall i :: IsLastEvidence(rs, i) ==> IsLastEvidence(before, i);
        if Last(History(before)).Some? {
          var i :| IsLastEvidence(before, i);
          assert IsLastEvidence(rs, i);
        }
      }
    }
  }

  lemma LastCheckpointOneMore(before: seq<Record>, r: Record, i: int)
    ensures LastCheckpoint(before + [r], i) <==> if r.body.Checkpoint? then i == |before| else LastCheckpoint(before, i)
  {
    var rs := before + [r];
    assert forall k | 0 <= k < |before| :: rs[k] == before[k];
    assert rs[|before|] == r;
  }

  lemma LastCheckpointInRange(rs: seq<Record>)
    ensures forall i | LastCheckpoint(rs, i) :: 0 <= i < |rs| && rs[i] in rs && rs[i].body.Checkpoint?
  {
  }

  lemma LastOfCheckpoints(before: seq<Record>, r: Record)
    ensures Last(Checkpoints(before + [r])) == if r.body.Checkpoint? then Some(r.body) else Last(Checkpoints(before))
  {
    assert (before + [r])[..|before|] == before;
    assert !r.body.Checkpoint? ==> Checkpoints(before + [r]) == Checkpoints(before);
  }

  lemma {:induction false} CheckpointsEndWithLast(rs: seq<Record>)
    ensures Last(Checkpoints(rs)).None? <==> forall a | a in rs :: !a.body.Checkpoint?
    ensures Last(Checkpoints(rs)).Some? ==> exists i :: LastCheckpoint(rs, i)
    ensures forall i | LastCheckpoint(rs, i) :: Last(Checkpoints(rs)) == Some(rs[i].body)
  {
    LastCheckpointInRange(rs);
    if rs != [] {
      hide LastCheckpoint, Last, Checkpoints;
      var before, r := rs[..|rs| - 1], rs[|rs| - 1];
      assert rs == before + [r];
      CheckpointsEndWithLast(before);
      LastOfCheckpoints(before, r);
      LastCheckpointInRange(before);
      forall i | LastCheckpoint(rs, i) ensures Last(Checkpoints(rs)) == Some(rs[i].body) {
        LastCheckpointOneMore(before, r, i);
      }
      if r.body.Checkpoint? {
        LastCheckpointOneMore(before, r, |before|);
      } else if Last(Checkpoints(before)).Some? {
        var i :| LastCheckpoint(before, i);
        LastCheckpointOneMore(before, r, i);
      }
    }
  }

  lemma {:induction false} IndexHoldsFirst(rs: seq<Record>, id: string)
    ensures id !in EvidenceById(rs) <==> forall a | a in rs :: !HasEvidenceId(a, id)
    ensures id in EvidenceById(rs) ==> exists i :: FirstNamed(rs, i, id)
    ensures forall i | FirstNamed(rs, i, id) :: id in EvidenceById(rs) && EvidenceById(rs)[id] == rs[i].body
  {
    if rs != [] {
      var before, r := rs[..|rs| - 1], rs[|rs| - 1];
      assert rs == before + [r];
      IndexHoldsFirst(before, id);
      if id in EvidenceById(before) {
        var i :| FirstNamed(before, i, id);
        assert FirstNamed(rs, i, id);
      } else if HasEvidenceId(r, id) {
        assert FirstNamed(rs, |before|, id);
      }
      assert forall i :: FirstNamed(rs, i, id) && i < |before| ==> FirstNamed(before, i, id);
    }
  }

  lemma MaximumOfHistory(rs: seq<Record>, revision: int)
    requires forall h | h in History(rs) :: h.Evidence?
    ensures History(rs) == [] <==> forall a | a in rs :: !a.body.Evidence?
    ensures History(rs) != [] ==>
      (MaxRevision(History(rs)) == revision <==> IsLargest(rs, revision))
  {
    HistoryIsTheEvidence(rs);
    if History(rs) != [] {
      MaximumOf(History(rs));
    }
  }

  lemma {:induction false} HistoryIsTheEvidence(rs: seq<Record>)
    ensures forall h | h in History(rs) :: h.Evidence? && exists r :: r in rs && r.body == h
    ensures forall r | r in rs && r.body.Evidence? :: r.body in History(rs)
  {
    if rs != [] {
      var before, r := rs[..|rs| - 1], rs[|rs| - 1];
      assert rs == before + [r];
      HistoryIsTheEvidence(before);
      forall h | h in History(rs) ensures h.Evidence? && exists x :: x in rs && x.body == h {
        if h in History(before) {
          var x :| x in before && x.body == h;
          assert x in rs;
        } else {
          assert r in rs && r.body == h;
        }
      }
    }
  }

  lemma {:induction false} MaximumOf(history: seq<Body>)
    requires history != [] && forall h | h in history :: h.Evidence?
    ensures exists h :: h in history && h.revision == MaxRevision(history)
    ensures forall h | h in history :: h.revision <= MaxRevision(history)
  {
    var before, last := history[..|history| - 1], history[|history| - 1];
    assert history == before + [last];
    if before != [] {
      MaximumOf(before);
    }
  }

  lemma {:induction false} CountedCompletions(rs: seq<Record>)
    ensures CompletionCount(rs) > 0 <==> exists r :: r in rs && r.body.Completion?
  {
    if rs != [] {
      var before, r := rs[..|rs| - 1], rs[|rs| - 1];
      assert rs == before + [r];
      CountedCompletions(before);
    }
  }

  // ----- each label is raised by its defect -----

  lemma ScopeLabels(scope: Scope, v: Violation)
    ensures v in ScopeFlags(scope) <==> ScopeDefect(scope, v)
  {
  }

  lemma EventLabels(scope: Scope, before: seq<Record>, e: Body, v: Violation)
    requires e.RuntimeEvent?
    ensures v in EventFlags(scope, EventIds(before), e) <==> EventDefect(scope, before, e, v)
  {
    hide IsSha256;
  }

  lemma BindingLabels(before: seq<Record>, o: Body, v: Violation)
    requires o.Binds()
    ensures v in BindingFlags(BindingOf(before), o) <==> BindingDefect(before, o, v)
  {
    hide IsSha256, FirstBinder, BindingOf;
    BindingIsFirst(before);
  }

  lemma BoundIsNext(before: seq<Record>, r: Record)
    requires r.body.Binds()
    ensures Bound(BindingOf(before), r.body.tool, r.body.payload) == BindingOf(before + [r])
  {
    assert (before + [r])[..|before|] == before;
    hide Bound;
  }

  lemma DiffersIsUnbound(scope: Scope, rs: seq<Record>, effect: Digest)
    ensures Differs(Expected(scope, BindingOf(rs)), effect) <==> NotTheBoundEffect(scope, rs, effect)
  {
    hide FirstBinder, EffectFingerprint, BindingOf;
    BindingIsFirst(rs);
  }

  lemma ApprovalLabels(scope: Scope, before: seq<Record>, r: Record, v: Violation)
    requires r.body.Approval?
    ensures var expected := Expected(scope, BindingOf(before + [r]));
            var found := ApprovalFlags(BindingFlags(BindingOf(before), r.body), expected, r.body);
            v in found <==> ApprovalDefect(scope, before, r, v)
  {
    hide BindingFlags, BindingOf, Differs, NotTheBoundEffect, Expected, FirstBinder;
    BindingLabels(before, r.body, v);
    DiffersIsUnbound(scope, before + [r], r.body.effect);
  }

  lemma EffectFlagsHold(found: set<Violation>, expected: Option<Digest>, approved: Option<int>, denied: Option<int>,
      sequence: int, e: Body, v: Violation)
    requires e.Effect?
    ensures v in EffectFlags(found, expected, approved, denied, sequence, e) <==>
      || v in found
      || (v == EffectFingerprintMismatch && Differs(expected, e.effect))
      || (v == EffectWithoutPriorApproval && (approved.None? || approved.value >= sequence))
      || (v == EffectAfterDenial && denied.Some? && denied.value < sequence)
  {
    hide Differs;
  }

  lemma EffectLabels(scope: Scope, before: seq<Record>, r: Record, v: Violation)
    requires r.body.Effect?
    ensures var expected := Expected(scope, BindingOf(before + [r]));
            v in EffectFlags(BindingFlags(BindingOf(before), r.body), expected, LastDecided(before, Approved),
                             LastDecided(before, Denied), r.sequence, r.body)
            <==> EffectDefect(scope, before, r, v)
  {
    hide EffectFlags, BindingFlags, BindingDefect, BindingOf, Differs, NotTheBoundEffect, Expected, LastDecision,
        LastDecided;
    BindingLabels(before, r.body, v);
    if BindingDefect(before, r.body, v) { BindingsAreOwn(before, r.body, v); }
    EffectFlagsHold(BindingFlags(BindingOf(before), r.body), Expected(scope, BindingOf(before + [r])),
                    LastDecided(before, Approved), LastDecided(before, Denied), r.sequence, r.body, v);
    DiffersIsUnbound(scope, before + [r], r.body.effect);
    LastDecidedIsLast(before, Approved);
    LastDecidedIsLast(before, Denied);
  }

  lemma BindingsAreOwn(before: seq<Record>, o: Body, v: Violation)
    requires o.Binds() && BindingDefect(before, o, v)
    ensures v == OperationToolInvalid || v == OperationPayloadInvalid || v == ApprovalEffectBindingMismatch
  {
    hide FirstBinder;
  }

  lemma EvidenceFlagsHold(expected: Option<Digest>, byId: map<string, Body>, previous: Option<Body>, e: Body,
      v: Violation)
    requires e.Evidence? && (previous.Some? ==> previous.value.Evidence?)
    ensures v in EvidenceFlags(expected, byId, previous, e) <==>
      || (v == EvidenceIdInvalid && e.evidenceId == "")
      || (v == EvidenceIdDuplicate && e.evidenceId != "" && e.evidenceId in byId)
      || (v == RevisionInvalid && e.revision < 0)
      || (v == ReadbackInvalid && e.readback.OtherReadback?)
      || (v == EvidenceFingerprintMismatch && Differs(expected, e.effect))
      || (v == RevisionRollback && previous.Some? && e.revision < previous.value.revision)
      || (v == SameRevisionConflict && previous.Some? && e.revision == previous.value.revision
          && (previous.value.readback != e.readback || previous.value.effect != e.effect))
  {
    hide Differs;
  }

  lemma EvidenceLabels(scope: Scope, before: seq<Record>, e: Body, v: Violation)
    requires e.Evidence? && (Last(History(before)).Some? ==> Last(History(before)).value.Evidence?)
    ensures v in EvidenceFlags(Expected(scope, BindingOf(before)), EvidenceById(before), Last(History(before)), e)
            <==> EvidenceDefect(scope, before, e, v)
  {
    hide EvidenceFlags, BindingOf, Differs, NotTheBoundEffect, Expected, IsLastEvidence, Last, History, EvidenceById,
      HasEvidenceId;
    EvidenceFlagsHold(Expected(scope, BindingOf(before)), EvidenceById(before), Last(History(before)), e, v);
    DiffersIsUnbound(scope, before, e.effect);
    HistoryEndsWithLast(before);
    IndexHoldsFirst(before, e.evidenceId);
    EmptyIdIsUnnamed(before);
  }

  lemma EmptyIdIsUnnamed(rs: seq<Record>)
    ensures forall a | a in rs :: !HasEvidenceId(a, "")
  {
  }

  lemma NamedFlagsHold(found: set<Violation>, evidence: Option<Body>, c: Body, v: Violation)
    requires c.Completion? && (evidence.Some? ==> evidence.value.Evidence?)
    ensures v in NamedEvidenceFlags(found, evidence, c) <==>
      || v in found
      || (v == CompletionEvidenceMissing && evidence.None?)
      || (v == CompletionRequiresPresent && evidence.Some? && evidence.value.readback != Present)
      || (v == CompletionRevisionMismatch && evidence.Some? && evidence.value.revision != c.revision)
      || (v == CompletionEvidenceEffectMismatch && evidence.Some? && evidence.value.effect != c.effect)
  {
  }

  lemma NamedDefectHolds(before: seq<Record>, evidence: Option<Body>, c: Body, v: Violation)
    requires c.Completion? && (evidence.Some? ==> evidence.value.Evidence?)
    requires evidence.None? <==> forall a | a in before :: !HasEvidenceId(a, c.evidenceId)
    requires evidence.Some? ==> exists i :: FirstNamed(before, i, c.evidenceId)
    requires forall i | FirstNamed(before, i, c.evidenceId) :: evidence == Some(before[i].body)
    ensures NamedDefect(before, c, v) <==>
      || (v == CompletionEvidenceMissing && evidence.None?)
      || (v == CompletionRequiresPresent && evidence.Some? && evidence.value.readback != Present)
      || (v == CompletionRevisionMismatch && evidence.Some? && evidence.value.revision != c.revision)
      || (v == CompletionEvidenceEffectMismatch && evidence.Some? && evidence.value.effect != c.effect)
  {
    hide FirstNamed, HasEvidenceId;
    if i :| FirstNamed(before, i, c.evidenceId) {
      FirstNamedIsOne(before, c.evidenceId, i);
    }
  }

  lemma NamedLabels(before: seq<Record>, found: set<Violation>, c: Body, v: Violation)
    requires c.Completion? && forall id | id in EvidenceById(before) :: EvidenceById(before)[id].Evidence?
    ensures var byId := EvidenceById(before);
            var evidence := if c.evidenceId in byId then Some(byId[c.evidenceId]) else None;
            v in NamedEvidenceFlags(found, evidence, c) <==> v in found || NamedDefect(before, c, v)
  {
    hide NamedEvidenceFlags, NamedDefect, EvidenceById, FirstNamed, HasEvidenceId;
    var byId := EvidenceById(before);
    var evidence := if c.evidenceId in byId then Some(byId[c.evidenceId]) else None;
    IndexHoldsFirst(before, c.evidenceId);
    NamedFlagsHold(found, evidence, c, v);
    NamedDefectHolds(before, evidence, c, v);
  }

  lemma FirstNamedIsOne(rs: seq<Record>, id: string, i: int)
    requires FirstNamed(rs, i, id)
    ensures 0 <= i < |rs| && forall k | FirstNamed(rs, k, id) :: k == i
  {
  }

  lemma NamedFlagsAdd(found: set<Violation>, evidence: Option<Body>, c: Body, v: Violation)
    requires c.Completion? && (evidence.Some? ==> evidence.value.Evidence?)
    ensures v in NamedEvidenceFlags(found, evidence, c) <==> v in found || v in NamedEvidenceFlags({}, evidence, c)
  {
    hide NamedEvidenceFlags;
    NamedFlagsHold(found, evidence, c, v);
    NamedFlagsHold({}, evidence, c, v);
  }

  lemma CompletionFlagsHold(expected: Option<Digest>, evidence: Option<Body>, latest: Option<int>, earlier: nat,
      c: Body,
      v: Violation)
    requires c.Completion? && (evidence.Some? ==> evidence.value.Evidence?)
    ensures v in CompletionFlagsOf(expected, evidence, latest, earlier, c) <==>
      || (v == MultipleCompletions && earlier > 0)
      || (v == CompletionFingerprintMismatch && Differs(expected, c.effect))
      || v in NamedEvidenceFlags({}, evidence, c)
      || (v == CompletionNotLatestRevision && latest.Some? && c.revision != latest.value)
  {
    hide NamedEvidenceFlags, Differs;
    var repeated := Raise({}, earlier > 0, MultipleCompletions);
    NamedFlagsAdd(Raise(repeated, Differs(expected, c.effect), CompletionFingerprintMismatch), evidence, c, v);
  }

  lemma LatestIsLargest(before: seq<Record>, revision: int)
    requires forall h | h in History(before) :: h.Evidence?
    ensures History(before) != [] <==> HasEvidence(before)
    ensures History(before) != [] ==> (MaxRevision(History(before)) == revision <==> IsLargest(before, revision))
  {
    hide History, MaxRevision, IsLargest;
    MaximumOfHistory(before, revision);
  }

  lemma CompletionLabelsFrom(scope: Scope, before: seq<Record>, expected: Option<Digest>, evidence: Option<Body>,
      latest: Option<int>, earlier: nat, c: Body, v: Violation)
    requires c.Completion? && (evidence.Some? ==> evidence.value.Evidence?)
    requires Differs(expected, c.effect) <==> NotTheBoundEffect(scope, before, c.effect)
    requires latest.Some? && c.revision != latest.value <==> HasEvidence(before) && !IsLargest(before, c.revision)
    requires earlier > 0 <==> HasCompletion(before)
    requires v in NamedEvidenceFlags({}, evidence, c) <==> NamedDefect(before, c, v)
    ensures v in CompletionFlagsOf(expected, evidence, latest, earlier, c) <==> CompletionDefect(scope, before, c, v)
  {
    hide CompletionFlagsOf, NamedEvidenceFlags, NamedDefect, IsLargest, HasEvidence, HasCompletion, Differs,
      NotTheBoundEffect;
    CompletionFlagsHold(expected, evidence, latest, earlier, c, v);
  }

  lemma CompletionLabels(scope: Scope, before: seq<Record>, c: Body, v: Violation)
    requires c.Completion? && (forall h | h in History(before) :: h.Evidence?)
    requires forall id | id in EvidenceById(before) :: EvidenceById(before)[id].Evidence?
    ensures v in CompletionFlags(Expected(scope, BindingOf(before)), EvidenceById(before), History(before),
                                 CompletionCount(before), c)
            <==> CompletionDefect(scope, before, c, v)
  {
    hide CompletionFlagsOf, CompletionDefect, NamedEvidenceFlags, NamedDefect, IsLargest, HasEvidence, BindingOf,
        Differs,
      NotTheBoundEffect, Expected, History, EvidenceById, MaxRevision, CompletionCount;
    var byId, history := EvidenceById(before), History(before);
    var evidence := if c.evidenceId in byId then Some(byId[c.evidenceId]) else None;
    var latest := if history != [] then Some(MaxRevision(history)) else None;
    DiffersIsUnbound(scope, before, c.effect);
    LatestIsLargest(before, c.revision);
    CountedCompletions(before);
    NamedLabels(before, {}, c, v);
    CompletionLabelsFrom(scope, before, Expected(scope, BindingOf(before)), evidence, latest, CompletionCount(before),
        c, v);
  }

  lemma FieldFlagsHold(found: set<Violation>, c: Body, v: Violation)
    requires c.Checkpoint?
    ensures v in CheckpointFieldFlags(found, c) <==> v in found || CheckpointFieldDefect(c, v)
  {
    hide IsSha256;
  }

  lemma LinkFlagsHold(found: set<Violation>, previous: Option<Body>, c: Body, v: Violation)
    requires c.Checkpoint? && (previous.Some? ==> previous.value.Checkpoint?)
    ensures v in CheckpointLinkFlags(found, previous, c) <==>
      v in found || (if previous.None? then RootDefect(c, v) else SuccessorDefect(previous.value, c, v))
  {
  }

  lemma LastCheckpointIsOne(rs: seq<Record>, i: int)
    requires LastCheckpoint(rs, i)
    ensures 0 <= i < |rs| && rs[i] in rs && rs[i].body.Checkpoint? && forall k | LastCheckpoint(rs, k) :: k == i
  {
  }

  lemma LinkedDefect(scope: Scope, before: seq<Record>, previous: Option<Body>, c: Body, v: Violation)
    requires c.Checkpoint? && (previous.Some? ==> previous.value.Checkpoint?)
    requires previous.None? <==> forall a | a in before :: !a.body.Checkpoint?
    requires previous.Some? ==> exists i :: LastCheckpoint(before, i)
    requires forall i | LastCheckpoint(before, i) :: previous == Some(before[i].body)
    ensures v != CheckpointRunScopeMismatch && CheckpointDefect(scope, before, c, v) <==>
      CheckpointFieldDefect(c, v)
          || (if previous.None? then RootDefect(c, v) else SuccessorDefect(previous.value, c, v))
  {
    RunIsNoLineage(before, c);
    hide CheckpointFieldDefect, RootDefect, SuccessorDefect, LastCheckpoint;
    if i :| LastCheckpoint(before, i) {
      LastCheckpointIsOne(before, i);
      OneSuccessor(before, i, c, v);
    }
  }

  lemma LinkLabels(scope: Scope, before: seq<Record>, found: set<Violation>, c: Body, v: Violation)
    requires c.Checkpoint? && (Last(Checkpoints(before)).Some? ==> Last(Checkpoints(before)).value.Checkpoint?)
    ensures v in CheckpointFlags(found, Last(Checkpoints(before)), c) <==>
      v in found || (v != CheckpointRunScopeMismatch && CheckpointDefect(scope, before, c, v))
  {
    hide CheckpointFieldFlags, CheckpointLinkFlags, CheckpointDefect, CheckpointFieldDefect, RootDefect,
        SuccessorDefect,
      Checkpoints, Last, LastCheckpoint;
    var previous := Last(Checkpoints(before));
    FieldFlagsHold(found, c, v);
    LinkFlagsHold(CheckpointFieldFlags(found, c), previous, c, v);
    CheckpointsEndWithLast(before);
    LinkedDefect(scope, before, previous, c, v);
  }

  lemma OneSuccessor(before: seq<Record>, i: int, c: Body, v: Violation)
    requires c.Checkpoint? && LastCheckpoint(before, i) && forall k | LastCheckpoint(before, k) :: k == i
    ensures 0 <= i < |before| && before[i].body.Checkpoint?
    ensures (exists k :: LastCheckpoint(before, k) && SuccessorDefect(before[k].body, c, v)) <==>
      SuccessorDefect(before[i].body, c, v)
  {
    hide SuccessorDefect;
  }

  lemma RunIsNoLineage(before: seq<Record>, c: Body)
    requires c.Checkpoint?
    ensures !CheckpointFieldDefect(c, CheckpointRunScopeMismatch) && !RootDefect(c, CheckpointRunScopeMismatch)
    ensures forall p: Body | p.Checkpoint? :: !SuccessorDefect(p, c, CheckpointRunScopeMismatch)
  {
  }

  /** Labels that are raised after the pass over the records. */
  predicate OfOrder(v: Violation) {
    v == RecordIdDuplicate || v == SequenceNotStrictlyIncreasing
  }

  predicate OfLineage(v: Violation) {
    || v == CheckpointIdInvalid || v == CheckpointSequenceInvalid || v == CheckpointCompletedCountInvalid
    || v == CheckpointPlanInvalid || v == CheckpointRootParentNotNull || v == CheckpointRootSequenceNotZero
    || v == CheckpointParentMismatch || v == CheckpointSequenceGap || v == CheckpointPlanDrift
    || v == CheckpointProgressRollback
  }

  lemma CommonLabels(scope: Scope, r: Record, v: Violation)
    ensures v in CommonFlags(scope, r) || (r.body.UnknownKind? && v == RecordKindInvalid) <==> OwnDefect(scope, r, v)
  {
    hide Body.OfOperation;
  }

  lemma OrdersAreOfOrder(scope: Scope, before: seq<Record>, r: Record, v: Violation)
    ensures OrderDefect(before, r, v) ==> OfOrder(v)
    ensures OwnDefect(scope, r, v) ==> !OfOrder(v)
  {
  }

  lemma LastIsEvidence(history: seq<Body>)
    requires forall h | h in history :: h.Evidence?
    ensures Last(history).Some? ==> Last(history).value.Evidence?
  {
  }

  predicate OfHeader(v: Violation) {
    || v == RecordIdInvalid || v == RecordSequenceInvalid || v == RecordIdDuplicate
        || v == SequenceNotStrictlyIncreasing
    || v == OperationScopeMismatch || v == ProviderScopeMismatch || v == RecordKindInvalid
  }

  lemma HeadersAreHeaders(scope: Scope, before: seq<Record>, r: Record, v: Violation)
    ensures HeaderDefect(scope, before, r, v) ==> OfHeader(v)
  {
  }

  lemma EventsAreKinds(scope: Scope, before: seq<Record>, r: Record, v: Violation)
    requires r.body.RuntimeEvent? && EventDefect(scope, before, r.body, v)
    ensures !OfHeader(v) && !OfLineage(v)
  {
  }

  lemma CheckpointsAreKinds(scope: Scope, before: seq<Record>, r: Record, v: Violation)
    requires r.body.Checkpoint? && CheckpointDefect(scope, before, r.body, v)
    ensures !OfHeader(v) && (OfLineage(v) <==> v != CheckpointRunScopeMismatch)
  {
    hide LastCheckpoint;
  }

  lemma BindingsAreKinds(before: seq<Record>, o: Body, v: Violation)
    requires o.Binds() && BindingDefect(before, o, v)
    ensures !OfHeader(v) && !OfLineage(v)
  {
    hide FirstBinder;
  }

  lemma ApprovalsAreKinds(scope: Scope, before: seq<Record>, r: Record, v: Violation)
    requires r.body.Approval? && ApprovalDefect(scope, before, r, v)
    ensures !OfHeader(v) && !OfLineage(v)
  {
    hide BindingDefect, NotTheBoundEffect;
    if BindingDefect(before, r.body, v) {
      BindingsAreKinds(before, r.body, v);
    }
  }

  lemma EffectsAreKinds(scope: Scope, before: seq<Record>, r: Record, v: Violation)
    requires r.body.Effect? && EffectDefect(scope, before, r, v)
    ensures !OfHeader(v) && !OfLineage(v)
  {
    hide BindingDefect, LastDecision, NotTheBoundEffect;
    if BindingDefect(before, r.body, v) {
      BindingsAreKinds(before, r.body, v);
    }
  }

  lemma EvidenceIsKind(scope: Scope, before: seq<Record>, e: Body, v: Violation)
    requires e.Evidence? && EvidenceDefect(scope, before, e, v)
    ensures !OfHeader(v) && !OfLineage(v)
  {
    hide IsLastEvidence, HasEvidenceId, NotTheBoundEffect;
  }

  lemma NamedIsKind(before: seq<Record>, c: Body, v: Violation)
    requires c.Completion? && NamedDefect(before, c, v)
    ensures !OfHeader(v) && !OfLineage(v)
  {
    hide FirstNamed, HasEvidenceId;
  }

  lemma CompletionIsKind(scope: Scope, before: seq<Record>, c: Body, v: Violation)
    requires c.Completion? && CompletionDefect(scope, before, c, v)
    ensures !OfHeader(v) && !OfLineage(v)
  {
    hide NamedDefect, IsLargest, NotTheBoundEffect;
    if NamedDefect(before, c, v) {
      NamedIsKind(before, c, v);
    }
  }

  lemma KindsAreNotHeaders(scope: Scope, before: seq<Record>, r: Record, v: Violation)
    requires KindDefect(scope, before, r, v)
    ensures !OfHeader(v) && (OfLineage(v) ==> r.body.Checkpoint? && v != CheckpointRunScopeMismatch)
  {
    hide OfHeader, OfLineage, EventDefect, CheckpointDefect, ApprovalDefect, EffectDefect, EvidenceDefect,
        CompletionDefect;
    match r.body {
      case RuntimeEvent(_, _, _, _, _) => EventsAreKinds(scope, before, r, v);
      case Checkpoint(_, _, _, _, _, _) => CheckpointsAreKinds(scope, before, r, v);
      case Approval(_, _, _, _, _, _) => ApprovalsAreKinds(scope, before, r, v);
      case Effect(_, _, _, _, _) => EffectsAreKinds(scope, before, r, v);
      case Evidence(_, _, _, _, _, _) => EvidenceIsKind(scope, before, r.body, v);
      case Completion(_, _, _, _, _) => CompletionIsKind(scope, before, r.body, v);
      case UnknownKind =>
    }
  }

  lemma KindLabels(scope: Scope, before: seq<Record>, r: Record, v: Violation)
    requires !r.body.UnknownKind?
    ensures v in KindFlags(scope, PassOf(scope, before), r) <==> KindDefect(scope, before, r, v) && !OfLineage(v)
  {
    hide EventFlags, EventDefect, BindingFlags, BindingDefect, ApprovalFlags, ApprovalDefect, EffectFlags, EffectDefect,
      EvidenceFlags, EvidenceDefect, CompletionFlags, CompletionDefect, CheckpointDefect, EventIds, BindingOf,
          LastDecided,
      Checkpoints, EvidenceById, History, CompletionCount, SequencesOf, RecordIdsOf, Last, Expected, Bound, OfLineage,
          OfHeader;
    OnlyEvidence(before);
    if KindDefect(scope, before, r, v) {
      KindsAreNotHeaders(scope, before, r, v);
    }
    match r.body {
      case RuntimeEvent(_, _, _, _, _) => EventLabels(scope, before, r.body, v);
      case Checkpoint(_, _, _, _, _, _) => RunLabel(scope, before, r, v);
      case Approval(_, _, _, _, _, _) =>
        BoundIsNext(before, r);
        ApprovalLabels(scope, before, r, v);
      case Effect(_, _, _, _, _) =>
        BoundIsNext(before, r);
        EffectLabels(scope, before, r, v);
      case Evidence(_, _, _, _, _, _) =>
        LastIsEvidence(History(before));
        EvidenceLabels(scope, before, r.body, v);
      case Completion(_, _, _, _, _) => CompletionLabels(scope, before, r.body, v);
    }
  }

  lemma RunLabel(scope: Scope, before: seq<Record>, r: Record, v: Violation)
    requires r.body.Checkpoint?
    ensures v == CheckpointRunScopeMismatch && r.body.runId != scope.runId <==>
      CheckpointDefect(scope, before, r.body, v) && !OfLineage(v)
  {
    if CheckpointDefect(scope, before, r.body, v) {
      CheckpointsAreKinds(scope, before, r, v);
    }
    hide LastCheckpoint;
  }

  lemma RecordLabels(scope: Scope, before: seq<Record>, r: Record, v: Violation)
    ensures v in RecordFlags(scope, before, r) <==> DefectAt(scope, before, r, v) && !OfOrder(v) && !OfLineage(v)
  {
    hide CommonFlags, KindFlags, PassOf, OwnDefect, OrderDefect, KindDefect, OfOrder, OfLineage, OfHeader;
    CommonLabels(scope, r, v);
    OrdersAreOfOrder(scope, before, r, v);
    HeadersAreHeaders(scope, before, r, v);
    HeadersAreApart(v);
    if KindDefect(scope, before, r, v) {
      KindsAreNotHeaders(scope, before, r, v);
    }
    if r.body.UnknownKind? {
      UnknownLabels(scope, before, r, v);
      UnknownHasNoKind(scope, before, r, v);
    } else {
      KindLabels(scope, before, r, v);
    }
  }

  lemma HeadersAreApart(v: Violation)
    ensures OfHeader(v) ==> !OfLineage(v)
    ensures OfOrder(v) ==> OfHeader(v)
  {
  }

  lemma UnknownHasNoKind(scope: Scope, before: seq<Record>, r: Record, v: Violation)
    requires r.body.UnknownKind?
    ensures !KindDefect(scope, before, r, v)
  {
  }

  lemma UnknownLabels(scope: Scope, before: seq<Record>, r: Record, v: Violation)
    requires r.body.UnknownKind?
    ensures v in RecordFlags(scope, before, r) <==> v in CommonFlags(scope, r) || v == RecordKindInvalid
  {
    hide CommonFlags, PassOf;
  }

  // ----- the checks after the pass -----

  lemma {:induction false} SequencesHold(rs: seq<Record>)
    ensures forall n :: n in SequencesOf(rs) <==> n > 0 && exists a :: a in rs && a.sequence == n
  {
    if rs != [] {
      var before, r := rs[..|rs| - 1], rs[|rs| - 1];
      assert rs == before + [r];
      SequencesHold(before);
    }
  }

  lemma {:induction false} RecordIdsHold(rs: seq<Record>)
    ensures forall id :: id in RecordIdsOf(rs) <==> id != "" && exists a :: a in rs && a.recordId == id
  {
    if rs != [] {
      var before, r := rs[..|rs| - 1], rs[|rs| - 1];
      assert rs == before + [r];
      RecordIdsHold(before);
      forall id ensures id in RecordIdsOf(rs) <==> id != "" && exists a :: a in rs && a.recordId == id {
        assert id in RecordIdsOf(rs) <==> id in RecordIdsOf(before) || (id == r.recordId && id != "");
        assert (exists a :: a in rs && a.recordId == id)
            <==> (exists a :: a in before && a.recordId == id) || r.recordId == id;
      }
    }
  }

  lemma IncreasingOneMore(s: seq<int>, n: int)
    ensures StrictlyIncreasing(s + [n]) <==> StrictlyIncreasing(s) && forall m | m in s :: m < n
  {
    var longer := s + [n];
    assert forall k | 0 <= k < |s| :: longer[k] == s[k];
    if StrictlyIncreasing(longer) {
      forall m | m in s ensures m < n {
        var k :| 0 <= k < |s| && s[k] == m;
        assert longer[k] < longer[|s|];
      }
      forall i, j | 0 <= i < j < |s| ensures s[i] < s[j] {
        assert longer[i] < longer[j];
      }
    }
    if StrictlyIncreasing(s) && forall m | m in s :: m < n {
      forall i, j | 0 <= i < j < |longer| ensures longer[i] < longer[j] {
        assert s[i] in s;
      }
    }
  }

  lemma DistinctOneMore(s: seq<string>, id: string)
    ensures Distinct(s + [id]) <==> Distinct(s) && id !in s
  {
    var longer := s + [id];
    assert forall k | 0 <= k < |s| :: longer[k] == s[k];
    if Distinct(longer) {
      forall i, j | 0 <= i < j < |s| ensures s[i] != s[j] {
        assert longer[i] != longer[j];
      }
      forall x | x in s ensures x != id {
        var k :| 0 <= k < |s| && s[k] == x;
        assert longer[k] != longer[|s|];
      }
    }
  }

  lemma OrderIffDistinct(sequences: seq<int>, recordIds: seq<string>, v: Violation)
    ensures v in OrderFlags(sequences, recordIds) <==>
      || (v == SequenceNotStrictlyIncreasing && !StrictlyIncreasing(sequences))
      || (v == RecordIdDuplicate && !Distinct(recordIds))
  {
    InOrderIffStrictlyIncreasing(sequences);
    CardinalityIffDistinct(recordIds);
    hide InOrder, StrictlyIncreasing, Distinct, Elements;
  }

  lemma SequenceLabel(before: seq<Record>, r: Record)
    ensures StrictlyIncreasing(SequencesOf(before + [r])) <==>
      && StrictlyIncreasing(SequencesOf(before))
      && !(r.sequence > 0 && exists a :: a in before && a.sequence > 0 && a.sequence >= r.sequence)
  {
    hide StrictlyIncreasing;
    var rs := before + [r];
    assert rs[..|before|] == before;
    SequencesHold(before);
    hide SequencesOf;
    SequencesEndWith(before, r);
    IncreasingOneMore(SequencesOf(before), r.sequence);
    if a :| a in before && a.sequence > 0 && a.sequence >= r.sequence {
      assert a.sequence in SequencesOf(before);
    }
  }

  lemma SequencesEndWith(before: seq<Record>, r: Record)
    ensures SequencesOf(before + [r]) == if r.sequence > 0 then SequencesOf(before) + [r.sequence]
        else SequencesOf(before)
    ensures RecordIdsOf(before + [r]) == if r.recordId != "" then RecordIdsOf(before) + [r.recordId]
        else RecordIdsOf(before)
  {
    assert (before + [r])[..|before|] == before;
  }

  lemma RecordIdLabel(before: seq<Record>, r: Record)
    ensures Distinct(RecordIdsOf(before + [r])) <==>
      Distinct(RecordIdsOf(before)) && !(r.recordId != "" && exists a :: a in before && a.recordId == r.recordId)
  {
    hide Distinct, RecordIdsOf;
    RecordIdsHold(before);
    SequencesEndWith(before, r);
    DistinctOneMore(RecordIdsOf(before), r.recordId);
  }

  lemma OrderLabels(scope: Scope, before: seq<Record>, r: Record, v: Violation)
    ensures v in OrderFlags(SequencesOf(before + [r]), RecordIdsOf(before + [r])) <==>
      v in OrderFlags(SequencesOf(before), RecordIdsOf(before)) || (OfOrder(v) && HeaderDefect(scope, before, r, v))
  {
    hide OrderFlags, StrictlyIncreasing, Distinct, SequencesOf, RecordIdsOf;
    var rs := before + [r];
    OrderIffDistinct(SequencesOf(rs), RecordIdsOf(rs), v);
    OrderIffDistinct(SequencesOf(before), RecordIdsOf(before), v);
    SequenceLabel(before, r);
    RecordIdLabel(before, r);
  }

  lemma LineageLabels(scope: Scope, before: seq<Record>, r: Record, v: Violation)
    requires forall c | c in Checkpoints(before + [r]) :: c.Checkpoint?
    requires forall c | c in Checkpoints(before) :: c.Checkpoint?
    ensures v in LineageFlags(Checkpoints(before + [r])) <==>
      || v in LineageFlags(Checkpoints(before))
      || (OfLineage(v) && r.body.Checkpoint? && CheckpointDefect(scope, before, r.body, v))
  {
    hide CheckpointFlags, CheckpointDefect, OfHeader, OfLineage;
    var cs := Checkpoints(before + [r]);
    assert (before + [r])[..|before|] == before;
    if r.body.Checkpoint? {
      assert cs == Checkpoints(before) + [r.body];
      assert cs[..|cs| - 1] == Checkpoints(before) && cs[|cs| - 1] == r.body;
      LastIsCheckpoint(Checkpoints(before));
      LinkLabels(scope, before, LineageFlags(Checkpoints(before)), r.body, v);
      RunIsNotOfLineage();
      if CheckpointDefect(scope, before, r.body, v) {
        CheckpointsAreKinds(scope, before, r, v);
      }
    } else {
      assert cs == Checkpoints(before);
    }
  }

  lemma RunIsNotOfLineage()
    ensures !OfLineage(CheckpointRunScopeMismatch)
  {
  }

  lemma LastIsCheckpoint(cs: seq<Body>)
    requires forall c | c in cs :: c.Checkpoint?
    ensures Last(cs).Some? ==> Last(cs).value.Checkpoint?
  {
  }

  lemma SamePrefix(before: seq<Record>, r: Record, j: nat)
    requires j < |before|
    ensures (before + [r])[..j] == before[..j] && (before + [r])[j] == before[j]
  {
  }

  lemma DefectOneMore(scope: Scope, before: seq<Record>, r: Record, v: Violation)
    ensures Defect(scope, before + [r], v) <==> Defect(scope, before, v) || DefectAt(scope, before, r, v)
  {
    hide DefectAt, ScopeDefect;
    var rs := before + [r];
    assert rs[..|before|] == before && rs[|before|] == r;
    if j :| 0 <= j < |rs| && DefectAt(scope, rs[..j], rs[j], v) {
      if j < |before| {
        SamePrefix(before, r, j);
        assert DefectAt(scope, before[..j], before[j], v);
      }
    }
    if j :| 0 <= j < |before| && DefectAt(scope, before[..j], before[j], v) {
      SamePrefix(before, r, j);
      assert DefectAt(scope, rs[..j], rs[j], v);
    }
    if DefectAt(scope, before, r, v) {
      assert DefectAt(scope, rs[..|before|], rs[|before|], v);
    }
  }

  lemma LabelsOneMore(scope: Scope, before: seq<Record>, r: Record, v: Violation)
    ensures v in Violations(scope, before + [r]) <==> v in Violations(scope, before) || DefectAt(scope, before, r, v)
  {
    hide ScopeFlags, RecordsFlags, RecordFlags, OrderFlags, LineageFlags, SequencesOf, RecordIdsOf, Checkpoints,
      HeaderDefect, EventDefect, CheckpointDefect, ApprovalDefect, EffectDefect, EvidenceDefect, CompletionDefect,
      EventIds, BindingOf, LastDecided, EvidenceById, History, CompletionCount, OfOrder, OfLineage, OfHeader, Expected;
    OnlyEvidence(before);
    OnlyEvidence(before + [r]);
    FlagsAdvance(scope, before, r);
    RecordLabels(scope, before, r, v);
    OrderLabels(scope, before, r, v);
    LineageLabels(scope, before, r, v);
    if DefectAt(scope, before, r, v) {
      DefectsAreClassified(scope, before, r, v);
    }
  }

  lemma DefectsAreClassified(scope: Scope, before: seq<Record>, r: Record, v: Violation)
    requires DefectAt(scope, before, r, v)
    ensures OfOrder(v) ==> HeaderDefect(scope, before, r, v)
    ensures OfLineage(v) ==> r.body.Checkpoint? && CheckpointDefect(scope, before, r.body, v)
    ensures OfOrder(v) ==> !OfLineage(v)
  {
    HeadersAreHeaders(scope, before, r, v);
    if KindDefect(scope, before, r, v) {
      KindsAreNotHeaders(scope, before, r, v);
    }
    hide HeaderDefect, EventDefect, CheckpointDefect, ApprovalDefect, EffectDefect, EvidenceDefect, CompletionDefect;
  }

  /** The detector raises a label exactly when the trace has the defect that the label names. */
  lemma {:induction false} LabelIffDefect(scope: Scope, rs: seq<Record>, v: Violation)
    ensures v in Violations(scope, rs) <==> Defect(scope, rs, v)
  {
    if rs == [] {
      ScopeLabels(scope, v);
      NoLabels(scope);
    } else {
      hide Violations, Defect, DefectAt;
      var before, r := rs[..|rs| - 1], rs[|rs| - 1];
      assert rs == before + [r];
      LabelIffDefect(scope, before, v);
      LabelsOneMore(scope, before, r, v);
      DefectOneMore(scope, before, r, v);
    }
  }

  lemma NoLabels(scope: Scope)
    ensures Violations(scope, []) == ScopeFlags(scope)
  {
    hide ScopeFlags;
  }
}
