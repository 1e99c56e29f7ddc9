/** What a clean trace is, said over all pairs of records, and the proof that the one pass of
    `TraceIntegrity` finds nothing exactly on the clean traces. */
module TraceClean {
  import opened Common
  import opened TraceIntegrity
  import opened TraceDefects

  predicate Named(scope: Scope) {
    scope.runId != "" && scope.turnId != "" && scope.provider != "" && scope.operationId != ""
  }

  /** What each record must be on its own. */
  predicate WellFormed(scope: Scope, r: Record) {
    && r.recordId != "" && r.sequence > 0
    && (r.body.OfOperation() ==> r.body.operationId == scope.operationId && r.body.provider == scope.provider)
    && match r.body
       case UnknownKind => false
       case RuntimeEvent(run, turn, id, kind, payload) =>
         run == scope.runId && turn == scope.turnId && id != "" && !kind.OtherEvent? && IsSha256(payload)
       case Checkpoint(run, _, _, _, _, _) => run == scope.runId
       case Approval(_, _, tool, payload, effect, decision) =>
         tool != "" && IsSha256(payload) && effect == EffectFingerprint(scope, tool, payload)
             && !decision.OtherDecision?
       case Effect(_, _, tool, payload, effect) =>
         tool != "" && IsSha256(payload) && effect == EffectFingerprint(scope, tool, payload)
       case Evidence(_, _, id, revision, readback, _) => id != "" && revision >= 0 && !readback.OtherReadback?
       case Completion(_, _, _, _, _) => true
  }

  /** What any record must be to any later one. */
  predicate Agrees(scope: Scope, a: Body, b: Body) {
    && (a.RuntimeEvent? && b.RuntimeEvent? ==> a.eventId != b.eventId)
    && (a.Binds() && b.Binds() ==> a.tool == b.tool && a.payload == b.payload)
    && (a.Binds() && (b.Evidence? || b.Completion?) ==> b.effect == EffectFingerprint(scope, a.tool, a.payload))
    && (a.Decides(Denied) ==> !b.Effect?)
    && (a.Evidence? && b.Evidence? ==>
          && a.evidenceId != b.evidenceId
          && a.revision <= b.revision
          && (a.revision == b.revision ==> a.readback == b.readback && a.effect == b.effect))
    && (a.Evidence? && b.Completion? ==> a.revision <= b.revision)
    && !(a.Completion? && b.Completion?)
  }

  predicate NeedsSupport(b: Body) { b.Effect? || b.Completion? }

  /** An effect rests on an approval; a completion on the evidence it names, which must have found the effect. */
  predicate Supports(a: Body, b: Body) {
    && (b.Effect? ==> a.Decides(Approved))
    && (b.Completion? ==>
          && a.Evidence? && a.evidenceId == b.evidenceId && a.readback == Present
          && a.revision == b.revision && a.effect == b.effect)
  }

  ghost predicate Supported(earlier: seq<Record>, b: Body) {
    NeedsSupport(b) ==> exists a :: a in earlier && Supports(a.body, b)
  }

  ghost predicate AllAgree(scope: Scope, rs: seq<Record>) {
    forall i, j | 0 <= i < j < |rs| :: Agrees(scope, rs[i].body, rs[j].body)
  }

  ghost predicate AllSupported(rs: seq<Record>) {
    forall j | 0 <= j < |rs| :: Supported(rs[..j], rs[j].body)
  }

  ghost predicate CleanRecords(scope: Scope, rs: seq<Record>) {
    && (forall r | r in rs :: WellFormed(scope, r))
    && AllAgree(scope, rs)
    && AllSupported(rs)
  }

  /** Positions in the trace are the order of the sequences, and no record id occurs twice. */
  ghost predicate Ordered(rs: seq<Record>) {
    forall i, j | 0 <= i < j < |rs| :: rs[i].sequence < rs[j].sequence && rs[i].recordId != rs[j].recordId
  }

  ghost predicate Linked(cs: seq<Body>, k: nat)
    requires k < |cs| && forall c | c in cs :: c.Checkpoint?
  {
    && cs[k].checkpointId != "" && cs[k].completedCount >= 0 && IsSha256(cs[k].plan)
    && cs[k].checkpointSequence == k
    && cs[k].parent == (if k == 0 then None else Some(cs[k - 1].checkpointId))
  }

  /** The checkpoints are one chain, numbered from zero, of one plan, whose progress never falls. */
  ghost predicate Linear(cs: seq<Body>) {
    && (forall c | c in cs :: c.Checkpoint?)
    && (forall k | 0 <= k < |cs| :: Linked(cs, k))
    && (forall j, k | 0 <= j < k < |cs| :: cs[j].plan == cs[k].plan && cs[j].completedCount <= cs[k].completedCount)
  }

  ghost predicate Clean(scope: Scope, rs: seq<Record>) {
    && Named(scope)
    && CleanRecords(scope, rs)
    && Ordered(rs)
    && Linear(Checkpoints(rs))
  }

  // ----- one record against the records before it -----

  ghost predicate Fits(scope: Scope, before: seq<Record>, r: Record) {
    && WellFormed(scope, r)
    && (forall a | a in before :: Agrees(scope, a.body, r.body))
    && Supported(before, r.body)
  }

  lemma AllAgreeStep(scope: Scope, before: seq<Record>, r: Record)
    ensures AllAgree(scope, before + [r]) <==>
      AllAgree(scope, before) && forall a | a in before :: Agrees(scope, a.body, r.body)
  {
    hide Agrees;
    var rs := before + [r];
    if AllAgree(scope, rs) {
      forall i, j | 0 <= i < j < |before| ensures Agrees(scope, before[i].body, before[j].body) {
        assert Agrees(scope, rs[i].body, rs[j].body);
      }
      forall a | a in before ensures Agrees(scope, a.body, r.body) {
        var i :| 0 <= i < |before| && before[i] == a;
        assert Agrees(scope, rs[i].body, rs[|before|].body);
      }
    }
    if AllAgree(scope, before) && forall a | a in before :: Agrees(scope, a.body, r.body) {
      forall i, j | 0 <= i < j < |rs| ensures Agrees(scope, rs[i].body, rs[j].body) {
        assert rs[i] == before[i] && before[i] in before;
        assert j < |before| ==> rs[j] == before[j];
      }
    }
  }

  lemma AllSupportedStep(before: seq<Record>, r: Record)
    ensures AllSupported(before + [r]) <==> AllSupported(before) && Supported(before, r.body)
  {
    hide Supported;
    var rs := before + [r];
    assert rs[..|before|] == before && rs[|before|] == r;
    assert forall j | 0 <= j < |before| :: rs[..j] == before[..j] && rs[j] == before[j];
    if AllSupported(rs) {
      forall j | 0 <= j < |before| ensures Supported(before[..j], before[j].body) {
        assert Supported(rs[..j], rs[j].body);
      }
      assert Supported(rs[..|before|], rs[|before|].body);
    }
    if AllSupported(before) && Supported(before, r.body) {
      forall j | 0 <= j < |rs| ensures Supported(rs[..j], rs[j].body) {
        assert j < |before| ==> Supported(before[..j], before[j].body);
      }
    }
  }

  lemma CleanRecordsStep(scope: Scope, before: seq<Record>, r: Record)
    ensures CleanRecords(scope, before + [r]) <==> CleanRecords(scope, before) && Fits(scope, before, r)
  {
    hide WellFormed, Agrees, Supported, AllAgree, AllSupported;
    AllAgreeStep(scope, before, r);
    AllSupportedStep(before, r);
    var rs := before + [r];
    assert r in rs && forall x | x in before :: x in rs;
    assert forall x | x in rs :: x in before || x == r;
  }

  /** Once a payload digest is well formed wherever one stands, the binding is that of every approval and effect. */
  lemma {:induction false} BindingIsCommon(scope: Scope, rs: seq<Record>)
    requires CleanRecords(scope, rs)
    ensures BindingOf(rs).None? ==> forall r | r in rs :: !r.body.Binds()
    ensures BindingOf(rs).Some? ==>
      exists r :: r in rs && r.body.Binds() && BindingOf(rs).value == (r.body.tool, r.body.payload)
    ensures forall r | r in rs && r.body.Binds() :: BindingOf(rs) == Some((r.body.tool, r.body.payload))
  {
    if rs != [] {
      hide Supports, NeedsSupport;
      var before, r := rs[..|rs| - 1], rs[|rs| - 1];
      assert rs == before + [r];
      CleanRecordsStep(scope, before, r);
      BindingIsCommon(scope, before);
      if BindingOf(before).Some? {
        var x :| x in before && x.body.Binds() && BindingOf(before).value == (x.body.tool, x.body.payload);
        assert x in rs;
      } else if r.body.Binds() {
        assert r in rs;
      }
    }
  }

  lemma {:induction false} LastDecidedExists(rs: seq<Record>, d: Decision)
    ensures LastDecided(rs, d).None? ==> forall r | r in rs :: !r.body.Decides(d)
    ensures LastDecided(rs, d).Some? ==>
      exists r :: r in rs && r.body.Decides(d) && r.sequence == LastDecided(rs, d).value
  {
    if rs != [] {
      var before, r := rs[..|rs| - 1], rs[|rs| - 1];
      assert rs == before + [r];
      LastDecidedExists(before, d);
      if !r.body.Decides(d) && LastDecided(before, d).Some? {
        var x :| x in before && x.body.Decides(d) && x.sequence == LastDecided(before, d).value;
        assert x in rs;
      }
    }
  }

  lemma NewEvidence(scope: Scope, before: seq<Record>, r: Record)
    requires Fits(scope, before, r) && r.body.Evidence?
    ensures r.body.evidenceId != ""
    ensures forall a | a in before && a.body.Evidence? ::
      && a.body.evidenceId != r.body.evidenceId && a.body.revision <= r.body.revision
      && (a.body.revision == r.body.revision ==> a.body.readback == r.body.readback && a.body.effect == r.body.effect)
  {
    hide Supports, NeedsSupport, Body.Binds, Body.Decides;
  }

  predicate IsEvidence(r: Record, id: string) {
    r.body.Evidence? && r.body.evidenceId == id
  }

  /** `byId` holds the one evidence of each id, and nothing else. */
  ghost predicate Indexes(byId: map<string, Body>, rs: seq<Record>) {
    && (forall id | id in byId :: exists r :: r in rs && IsEvidence(r, id) && r.body == byId[id])
    && (forall r | r in rs && r.body.Evidence? :: r.body.evidenceId in byId && byId[r.body.evidenceId] == r.body)
  }

  lemma IndexesOneMore(byId: map<string, Body>, before: seq<Record>, r: Record)
    requires Indexes(byId, before)
    requires r.body.Evidence? ==> r.body.evidenceId !in byId
    ensures Indexes(if r.body.Evidence? then byId[r.body.evidenceId := r.body] else byId, before + [r])
  {
    var rs := before + [r];
    var byId' := if r.body.Evidence? then byId[r.body.evidenceId := r.body] else byId;
    assert r in rs && forall x | x in rs :: x in before || x == r;
    forall id | id in byId' ensures exists x :: x in rs && IsEvidence(x, id) && x.body == byId'[id] {
      if r.body.Evidence? && id == r.body.evidenceId {
        assert IsEvidence(r, id);
      } else {
        var x :| x in before && IsEvidence(x, id) && x.body == byId[id];
        assert x in rs;
      }
    }
  }

  lemma IndexedIds(byId: map<string, Body>, rs: seq<Record>, id: string)
    requires Indexes(byId, rs)
    ensures id in byId <==> exists r :: r in rs && IsEvidence(r, id)
  {
  }

  /** The index of evidence by id holds the one evidence of each id. */
  lemma {:induction false} EvidenceIsIndexed(scope: Scope, rs: seq<Record>)
    requires CleanRecords(scope, rs)
    ensures Indexes(EvidenceById(rs), rs)
  {
    if rs == [] {
      assert EvidenceById(rs) == map[];
    } else {
      hide CleanRecords, Fits, Indexes;
      var before, r := rs[..|rs| - 1], rs[|rs| - 1];
      assert rs == before + [r];
      CleanRecordsStep(scope, before, r);
      EvidenceIsIndexed(scope, before);
      if r.body.Evidence? {
        NewEvidence(scope, before, r);
        IndexedIds(EvidenceById(before), before, r.body.evidenceId);
      }
      IndexesOneMore(EvidenceById(before), before, r);
    }
  }

  /** `last` has the largest revision of `history`, and whatever was read at that revision is what it says. */
  predicate Dominates(last: Body, history: seq<Body>) {
    && last.Evidence?
    && forall h | h in history ::
         && h.Evidence? && h.revision <= last.revision
         && (h.revision == last.revision ==> h.readback == last.readback && h.effect == last.effect)
  }

  lemma LastDominates(before: seq<Record>, r: Record)
    requires r.body.Evidence?
    requires forall a | a in before && a.body.Evidence? ::
      && a.body.revision <= r.body.revision
      && (a.body.revision == r.body.revision ==> a.body.readback == r.body.readback && a.body.effect == r.body.effect)
    ensures Dominates(r.body, History(before) + [r.body])
  {
    HistoryIsTheEvidence(before);
    hide History;
  }

  lemma NewestIsMaximal(history: seq<Body>, e: Body)
    requires e.Evidence? && Dominates(e, history + [e])
    requires forall h | h in history :: h.Evidence?
    requires history != [] ==> MaxRevision(history) == Newest(history).revision
    ensures (forall h | h in history + [e] :: h.Evidence?) && MaxRevision(history + [e]) == e.revision
  {
    assert (history + [e])[..|history|] == history;
    if history != [] {
      assert Newest(history) in history + [e];
    }
  }

  function Newest(history: seq<Body>): Body
    requires history != []
  {
    history[|history| - 1]
  }

  /** So the pass need compare new evidence with the last of the history only. */
  lemma {:induction false} LastEvidenceDominates(scope: Scope, rs: seq<Record>)
    requires CleanRecords(scope, rs)
    ensures History(rs) != [] ==>
      && Dominates(Newest(History(rs)), History(rs))
      && MaxRevision(History(rs)) == Newest(History(rs)).revision
  {
    if rs != [] {
      hide CleanRecords, Fits, Dominates, MaxRevision;
      var before, r := rs[..|rs| - 1], rs[|rs| - 1];
      assert rs == before + [r];
      CleanRecordsStep(scope, before, r);
      LastEvidenceDominates(scope, before);
      HistoryIsTheEvidence(before);
      if r.body.Evidence? {
        NewEvidence(scope, before, r);
        LastDominates(before, r);
        NewestIsMaximal(History(before), r.body);
      } else {
        assert History(rs) == History(before);
      }
    }
  }

  // ----- the labels of one record -----

  lemma CommonFlagsIff(scope: Scope, r: Record)
    ensures CommonFlags(scope, r) == {} <==>
      && r.recordId != "" && r.sequence > 0
      && (r.body.OfOperation() ==> r.body.operationId == scope.operationId && r.body.provider == scope.provider)
  {
    hide Body.OfOperation;
  }

  lemma EventFits(scope: Scope, before: seq<Record>, r: Record)
    requires CleanRecords(scope, before) && r.body.RuntimeEvent?
    ensures RecordFlags(scope, before, r) == {} <==> Fits(scope, before, r)
  {
    hide CleanRecords, CommonFlags, IsSha256;
    CommonFlagsIff(scope, r);
    assert r.body.eventId != "" ==> (r.body.eventId in EventIds(before) <==>
      exists a :: a in before && a.body.RuntimeEvent? && a.body.eventId == r.body.eventId);
  }

  lemma CheckpointFits(scope: Scope, before: seq<Record>, r: Record)
    requires CleanRecords(scope, before) && r.body.Checkpoint?
    ensures RecordFlags(scope, before, r) == {} <==> Fits(scope, before, r)
  {
    hide CleanRecords, CommonFlags, IsSha256;
    CommonFlagsIff(scope, r);
  }

  /** The expected fingerprint is compared exactly when an approval or effect came before. */
  lemma DiffersIff(scope: Scope, before: seq<Record>, effect: Digest)
    requires CleanRecords(scope, before)
    ensures !Differs(Expected(scope, BindingOf(before)), effect) <==>
      forall a | a in before && a.body.Binds() :: effect == EffectFingerprint(scope, a.body.tool, a.body.payload)
  {
    hide CleanRecords, BindingOf;
    BindingIsCommon(scope, before);
  }

  lemma IndexIff(scope: Scope, before: seq<Record>, id: string)
    requires CleanRecords(scope, before)
    ensures id !in EvidenceById(before) <==> forall a | a in before && a.body.Evidence? :: a.body.evidenceId != id
  {
    hide CleanRecords, EvidenceById;
    EvidenceIsIndexed(scope, before);
  }

  /** Comparing with the last evidence is comparing with all of it. */
  lemma PreviousIff(scope: Scope, before: seq<Record>, e: Body)
    requires CleanRecords(scope, before) && e.Evidence?
    requires forall h | h in History(before) :: h.Evidence?
    ensures
      (match Last(History(before))
       case None => true
       case Some(last) =>
         last.revision <= e.revision
             && (e.revision == last.revision ==> last.readback == e.readback && last.effect == e.effect))
      <==>
      forall a | a in before && a.body.Evidence? ::
        && a.body.revision <= e.revision
        && (a.body.revision == e.revision ==> a.body.readback == e.readback && a.body.effect == e.effect)
  {
    hide CleanRecords, History;
    LastEvidenceDominates(scope, before);
    HistoryIsTheEvidence(before);
    if History(before) != [] {
      var last := History(before)[|History(before)| - 1];
      assert last in History(before);
    }
  }

  lemma EvidenceFits(scope: Scope, before: seq<Record>, r: Record)
    requires CleanRecords(scope, before) && r.body.Evidence?
    ensures RecordFlags(scope, before, r) == {} <==> Fits(scope, before, r)
  {
    hide CleanRecords, CommonFlags, IsSha256, BindingOf, EvidenceById, History, Differs, Expected, EffectFingerprint,
      Body.Decides, Raise;
    CommonFlagsIff(scope, r);
    DiffersIff(scope, before, r.body.effect);
    IndexIff(scope, before, r.body.evidenceId);
    HistoryIsTheEvidence(before);
    PreviousIff(scope, before, r.body);
  }

  lemma CompletionFits(scope: Scope, before: seq<Record>, r: Record)
    requires CleanRecords(scope, before) && r.body.Completion?
    ensures RecordFlags(scope, before, r) == {} <==> Fits(scope, before, r)
  {
    hide CleanRecords, CommonFlags, IsSha256, BindingOf, History, MaxRevision, Differs, Expected, EffectFingerprint,
      Body.Decides;
    CommonFlagsIff(scope, r);
    DiffersIff(scope, before, r.body.effect);
    EvidenceIsIndexed(scope, before);
    LastEvidenceDominates(scope, before);
    HistoryIsTheEvidence(before);
    CountedCompletions(before);
  }

  /** The pass binds at the first approval or effect, and compares every later one with it. */
  lemma BindingIff(scope: Scope, before: seq<Record>, o: Body)
    requires CleanRecords(scope, before) && o.Binds()
    ensures BindingFlags(BindingOf(before), o) == {} <==>
      && o.tool != "" && IsSha256(o.payload)
      && forall a | a in before && a.body.Binds() :: a.body.tool == o.tool && a.body.payload == o.payload
    ensures BindingFlags(BindingOf(before), o) == {} ==>
      Expected(scope, Bound(BindingOf(before), o.tool, o.payload)) == Some(EffectFingerprint(scope, o.tool, o.payload))
  {
    hide CleanRecords, BindingOf, EffectFingerprint;
    BindingIsCommon(scope, before);
  }

  lemma ApprovalFits(scope: Scope, before: seq<Record>, r: Record)
    requires CleanRecords(scope, before) && r.body.Approval?
    ensures RecordFlags(scope, before, r) == {} <==> Fits(scope, before, r)
  {
    hide CleanRecords, CommonFlags, IsSha256, BindingOf, BindingFlags, Expected, Bound, EffectFingerprint;
    CommonFlagsIff(scope, r);
    BindingIff(scope, before, r.body);
  }

  lemma EffectFits(scope: Scope, before: seq<Record>, r: Record)
    requires CleanRecords(scope, before) && r.body.Effect?
    requires forall a | a in before :: a.sequence < r.sequence
    ensures RecordFlags(scope, before, r) == {} <==> Fits(scope, before, r)
  {
    hide CleanRecords, CommonFlags, IsSha256, BindingOf, BindingFlags, Expected, Bound, EffectFingerprint, LastDecided;
    CommonFlagsIff(scope, r);
    BindingIff(scope, before, r.body);
    LastDecidedExists(before, Approved);
    LastDecidedExists(before, Denied);
  }

  lemma RecordFlagsIffFits(scope: Scope, before: seq<Record>, r: Record)
    requires CleanRecords(scope, before)
    requires forall a | a in before :: a.sequence < r.sequence
    ensures RecordFlags(scope, before, r) == {} <==> Fits(scope, before, r)
  {
    hide CleanRecords, Fits, CommonFlags, PassOf;
    match r.body {
      case UnknownKind => FittingAreWellFormed(scope, before, r);
      case RuntimeEvent(_, _, _, _, _) => EventFits(scope, before, r);
      case Checkpoint(_, _, _, _, _, _) => CheckpointFits(scope, before, r);
      case Approval(_, _, _, _, _, _) => ApprovalFits(scope, before, r);
      case Effect(_, _, _, _, _) => EffectFits(scope, before, r);
      case Evidence(_, _, _, _, _, _) => EvidenceFits(scope, before, r);
      case Completion(_, _, _, _, _) => CompletionFits(scope, before, r);
    }
  }

  lemma FittingAreWellFormed(scope: Scope, before: seq<Record>, r: Record)
    ensures Fits(scope, before, r) ==> WellFormed(scope, r)
  {
  }

  lemma RecordsFlagsStep(scope: Scope, before: seq<Record>, r: Record)
    ensures RecordsFlags(scope, before + [r]) == {}
        <==> RecordsFlags(scope, before) == {} && RecordFlags(scope, before, r) == {}
  {
    hide RecordFlags, RecordsFlags;
    FlagsAdvance(scope, before, r);
  }

  lemma {:induction false} RecordsFlagsIffClean(scope: Scope, rs: seq<Record>)
    requires forall i, j | 0 <= i < j < |rs| :: rs[i].sequence < rs[j].sequence
    ensures RecordsFlags(scope, rs) == {} <==> CleanRecords(scope, rs)
  {
    hide RecordFlags, Fits, WellFormed, Agrees, Supported;
    if rs != [] {
      var before, r := rs[..|rs| - 1], rs[|rs| - 1];
      assert rs == before + [r];
      CleanRecordsStep(scope, before, r);
      RecordsFlagsStep(scope, before, r);
      RecordsFlagsIffClean(scope, before);
      if CleanRecords(scope, before) {
        RecordFlagsIffFits(scope, before, r);
      }
    }
  }

  // ----- the checks after the pass -----

  predicate Identified(rs: seq<Record>) {
    forall r | r in rs :: r.sequence > 0 && r.recordId != ""
  }

  lemma {:induction false} UnflaggedAreIdentified(scope: Scope, rs: seq<Record>)
    requires RecordsFlags(scope, rs) == {}
    ensures Identified(rs)
  {
    if rs != [] {
      hide KindFlags, PassOf;
      var before, r := rs[..|rs| - 1], rs[|rs| - 1];
      assert rs == before + [r];
      RecordsFlagsStep(scope, before, r);
      UnflaggedAreIdentified(scope, before);
      CommonFlagsIff(scope, r);
    }
  }

  lemma {:induction false} IdentifiedOrder(rs: seq<Record>)
    requires Identified(rs)
    ensures |SequencesOf(rs)| == |rs| && forall i | 0 <= i < |rs| :: SequencesOf(rs)[i] == rs[i].sequence
    ensures |RecordIdsOf(rs)| == |rs| && forall i | 0 <= i < |rs| :: RecordIdsOf(rs)[i] == rs[i].recordId
  {
    if rs != [] {
      var before, r := rs[..|rs| - 1], rs[|rs| - 1];
      assert rs == before + [r];
      assert r in rs;
      IdentifiedOrder(before);
    }
  }

  lemma OrderFlagsIffOrdered(rs: seq<Record>)
    requires Identified(rs)
    ensures OrderFlags(SequencesOf(rs), RecordIdsOf(rs)) == {} <==> Ordered(rs)
  {
    IdentifiedOrder(rs);
    InOrderIffStrictlyIncreasing(SequencesOf(rs));
    CardinalityIffDistinct(RecordIdsOf(rs));
    hide InOrder, Identified, Elements, SequencesOf, RecordIdsOf;
    if Ordered(rs) {
      assert StrictlyIncreasing(SequencesOf(rs)) && Distinct(RecordIdsOf(rs));
    }
    if StrictlyIncreasing(SequencesOf(rs)) && Distinct(RecordIdsOf(rs)) {
      forall i, j | 0 <= i < j < |rs| ensures rs[i].sequence < rs[j].sequence && rs[i].recordId != rs[j].recordId {
        assert SequencesOf(rs)[i] < SequencesOf(rs)[j] && RecordIdsOf(rs)[i] != RecordIdsOf(rs)[j];
      }
    }
  }

  /** What the pass asks of a checkpoint after the chain `cs`. */
  predicate Continues(cs: seq<Body>, c: Body)
    requires c.Checkpoint? && forall x | x in cs :: x.Checkpoint?
  {
    && c.checkpointId != "" && c.checkpointSequence >= 0 && c.completedCount >= 0 && IsSha256(c.plan)
    && match Last(cs)
       case None => c.parent.None? && c.checkpointSequence == 0
       case Some(p) =>
         && c.parent == Some(p.checkpointId) && c.checkpointSequence == p.checkpointSequence + 1
         && c.plan == p.plan && p.completedCount <= c.completedCount
  }

  lemma LinearStep(cs: seq<Body>, c: Body)
    requires c.Checkpoint? && forall x | x in cs :: x.Checkpoint?
    ensures Linear(cs + [c]) <==> Linear(cs) && Continues(cs, c)
  {
    var all := cs + [c];
    assert forall k | 0 <= k < |cs| :: all[k] == cs[k];
    assert all[|cs|] == c;
    if Linear(all) {
      forall k | 0 <= k < |cs| ensures Linked(cs, k) { assert Linked(all, k); }
      forall j, k | 0 <= j < k < |cs| ensures cs[j].plan == cs[k].plan && cs[j].completedCount <= cs[k].completedCount {
        assert all[j].plan == all[k].plan && all[j].completedCount <= all[k].completedCount;
      }
      assert Linked(all, |cs|);
      if cs != [] {
        assert Linked(all, |cs| - 1);
        assert all[|cs| - 1].plan == all[|cs|].plan;
      }
    }
    if Linear(cs) && Continues(cs, c) {
      assert cs != [] ==> Linked(cs, |cs| - 1);
      forall k | 0 <= k < |all| ensures Linked(all, k) {
        if k < |cs| { assert Linked(cs, k); }
      }
    }
  }

  lemma FlagsIffContinues(found: set<Violation>, cs: seq<Body>, c: Body)
    requires c.Checkpoint? && forall x | x in cs :: x.Checkpoint?
    ensures CheckpointFlags(found, Last(cs), c) == {} <==> found == {} && Continues(cs, c)
  {
    hide IsSha256;
  }

  lemma {:induction false} LineageFlagsIffLinear(cs: seq<Body>)
    requires forall c | c in cs :: c.Checkpoint?
    ensures LineageFlags(cs) == {} <==> Linear(cs)
  {
    if cs == [] {
      assert Linear(cs);
    } else {
      hide Linear, Continues, CheckpointFlags;
      var before, c := cs[..|cs| - 1], cs[|cs| - 1];
      assert cs == before + [c];
      assert c in cs;
      LinearStep(before, c);
      LineageFlagsIffLinear(before);
      FlagsIffContinues(LineageFlags(before), before, c);
    }
  }

  /** The pass finds nothing exactly on the clean traces. */
  lemma ViolationsIffNotClean(scope: Scope, rs: seq<Record>)
    ensures Violations(scope, rs) == {} <==> Clean(scope, rs)
  {
    OnlyEvidence(rs);
    LineageFlagsIffLinear(Checkpoints(rs));
    if RecordsFlags(scope, rs) == {} {
      UnflaggedAreIdentified(scope, rs);
    }
    if CleanRecords(scope, rs) {
      CleanAreIdentified(scope, rs);
    }
    if Identified(rs) {
      OrderFlagsIffOrdered(rs);
    }
    if Ordered(rs) {
      OrderedSequences(rs);
      RecordsFlagsIffClean(scope, rs);
    }
    hide CleanRecords, RecordsFlags, OrderFlags, LineageFlags, Linear, Ordered, Checkpoints, Identified, SequencesOf,
      RecordIdsOf, EvidenceById, History, BindingOf, Expected, EventIds, LastDecided, CompletionCount;
  }

  lemma CleanAreIdentified(scope: Scope, rs: seq<Record>)
    requires CleanRecords(scope, rs)
    ensures Identified(rs)
  {
    hide Agrees, Supported;
  }

  lemma OrderedSequences(rs: seq<Record>)
    requires Ordered(rs)
    ensures forall i, j | 0 <= i < j < |rs| :: rs[i].sequence < rs[j].sequence
  {
  }

  /** The detector. It raises exactly the labels of the defects that the trace has, and none exactly on a clean one. */
  method ValidateTrace(scope: Scope, records: seq<Record>) returns (violations: set<Violation>)
    ensures forall v :: v in violations <==> Defect(scope, records, v)
    ensures violations == {} <==> Clean(scope, records)
    ensures violations == Violations(scope, records)
  {
    hide Clean, Defect, ScopeFlags, RecordsFlags, OrderFlags, LineageFlags, CheckpointFlags, Advanced, InOrder, History,
      EvidenceById, Checkpoints, SequencesOf, RecordIdsOf, BindingOf, EventIds, LastDecided, CompletionCount;
    ViolationsIffNotClean(scope, records);
    forall v ensures v in Violations(scope, records) <==> Defect(scope, records, v) {
      LabelIffDefect(scope, records, v);
    }
    violations := CheckScope(scope);
    var found, pass := CheckRecords(scope, records);
    violations := violations + found;
    found := CheckOrder(pass.sequences, pass.recordIds);
    violations := violations + found;
    found := CheckLineage(pass.checkpoints);
    violations := violations + found;
  }
}
