/** Replacing one field of one record of a clean trace: when the detector notices. Where a replaced value can
    leave the trace clean, the lemma says exactly when. */
module TraceMutations {
  import opened Common
  import opened TraceIntegrity
  import opened TraceClean

  function WithBody(rs: seq<Record>, i: nat, b: Body): seq<Record>
    requires i < |rs|
  {
    rs[i := rs[i].(body := b)]
  }

  // ----- one record of a clean trace -----

  lemma CleanAt(scope: Scope, rs: seq<Record>, i: nat)
    requires Clean(scope, rs) && i < |rs|
    ensures WellFormed(scope, rs[i]) && Supported(rs[..i], rs[i].body)
    ensures forall k | 0 <= k < i :: Agrees(scope, rs[k].body, rs[i].body)
    ensures forall k | i < k < |rs| :: Agrees(scope, rs[i].body, rs[k].body)
  {
    hide WellFormed, Agrees, Supported, Linear;
    assert rs[i] in rs;
  }

  lemma WellFormedAt(scope: Scope, rs: seq<Record>, i: nat)
    requires CleanRecords(scope, rs) && i < |rs|
    ensures WellFormed(scope, rs[i])
  {
    assert rs[i] in rs;
  }

  // ----- what one replaced record leaves as it was -----

  lemma CheckpointsEndWith(rs: seq<Record>, r: Record)
    ensures Checkpoints(rs + [r]) == Checkpoints(rs) + (if r.body.Checkpoint? then [r.body] else [])
  {
    assert (rs + [r])[..|rs|] == rs;
  }

  /** The checkpoints are untouched when no checkpoint is put in or taken out. */
  lemma {:induction false} CheckpointsUntouched(rs: seq<Record>, i: nat, r: Record)
    requires i < |rs| && (r.body == rs[i].body || (!rs[i].body.Checkpoint? && !r.body.Checkpoint?))
    ensures Checkpoints(rs[i := r]) == Checkpoints(rs)
  {
    hide Checkpoints;
    var n := |rs| - 1;
    assert rs == rs[..n] + [rs[n]];
    CheckpointsEndWith(rs[..n], rs[n]);
    if i == n {
      assert rs[i := r] == rs[..n] + [r];
      CheckpointsEndWith(rs[..n], r);
    } else {
      assert rs[i := r] == rs[..n][i := r] + [rs[n]];
      CheckpointsEndWith(rs[..n][i := r], rs[n]);
      CheckpointsUntouched(rs[..n], i, r);
    }
  }

  /** A checkpoint put in place of another takes its place in the chain. */
  lemma {:induction false} CheckpointReplaced(rs: seq<Record>, i: nat, b: Body)
    requires i < |rs| && rs[i].body.Checkpoint? && b.Checkpoint?
    ensures |Checkpoints(rs[..i])| < |Checkpoints(rs)|
    ensures Checkpoints(rs)[|Checkpoints(rs[..i])|] == rs[i].body
    ensures Checkpoints(WithBody(rs, i, b)) == Checkpoints(rs)[|Checkpoints(rs[..i])| := b]
  {
    hide Checkpoints;
    var n := |rs| - 1;
    assert rs == rs[..n] + [rs[n]];
    CheckpointsEndWith(rs[..n], rs[n]);
    if i == n {
      assert WithBody(rs, i, b) == rs[..n] + [rs[i].(body := b)];
      CheckpointsEndWith(rs[..n], rs[i].(body := b));
    } else {
      assert WithBody(rs, i, b) == WithBody(rs[..n], i, b) + [rs[n]];
      CheckpointsEndWith(WithBody(rs[..n], i, b), rs[n]);
      assert rs[..n][..i] == rs[..i];
      CheckpointReplaced(rs[..n], i, b);
    }
  }

  /** The clauses of `CleanRecords` that speak of record `i`. */
  ghost predicate FitsAt(scope: Scope, rs: seq<Record>, i: nat)
    requires i < |rs|
  {
    && WellFormed(scope, rs[i])
    && (forall k | 0 <= k < i :: Agrees(scope, rs[k].body, rs[i].body))
    && (forall k | i < k < |rs| :: Agrees(scope, rs[i].body, rs[k].body))
    && (forall k | i <= k < |rs| :: Supported(rs[..k], rs[k].body))
  }

  lemma CleanRecordsReplaced(scope: Scope, rs: seq<Record>, i: nat, r: Record)
    requires CleanRecords(scope, rs) && i < |rs|
    ensures CleanRecords(scope, rs[i := r]) <==> FitsAt(scope, rs[i := r], i)
  {
    hide WellFormed, Agrees, Supports, NeedsSupport, Supported;
    var changed := rs[i := r];
    if CleanRecords(scope, changed) {
      assert changed[i] in changed;
    }
    if FitsAt(scope, changed, i) {
      forall x | x in changed ensures WellFormed(scope, x) {
        var k :| 0 <= k < |changed| && changed[k] == x;
        if k != i { assert rs[k] == x && x in rs; }
      }
      forall a, b | 0 <= a < b < |changed| ensures Agrees(scope, changed[a].body, changed[b].body) {
        if a != i && b != i {
          assert Agrees(scope, rs[a].body, rs[b].body);
        }
      }
      forall k | 0 <= k < |changed| ensures Supported(changed[..k], changed[k].body) {
        if k < i {
          assert changed[..k] == rs[..k];
        }
      }
    }
  }

  /** Later records keep their support when the new record supports what the old one did. */
  lemma LaterSupportKept(scope: Scope, rs: seq<Record>, i: nat, r: Record)
    requires CleanRecords(scope, rs) && i < |rs|
    requires forall k | i < k < |rs| && NeedsSupport(rs[k].body) && Supports(rs[i].body, rs[k].body) ::
        Supports(r.body, rs[k].body)
    ensures forall k | i < k < |rs| :: Supported(rs[i := r][..k], rs[k].body)
  {
    hide WellFormed, Agrees, Supports, NeedsSupport;
    var changed := rs[i := r];
    forall k | i < k < |rs| ensures Supported(changed[..k], rs[k].body) {
      assert Supported(rs[..k], rs[k].body);
      if NeedsSupport(rs[k].body) {
        var a :| a in rs[..k] && Supports(a.body, rs[k].body);
        var n :| 0 <= n < k && rs[..k][n] == a;
        assert changed[..k][n] in changed[..k];
        assert Supports(changed[..k][n].body, rs[k].body);
      }
    }
  }

  /** For a record whose body supports nothing later, only its own clauses are in question. */
  predicate StandsAt(scope: Scope, rs: seq<Record>, i: nat, b: Body)
    requires i < |rs|
  {
    && WellFormed(scope, rs[i].(body := b))
    && (forall k | 0 <= k < i :: Agrees(scope, rs[k].body, b))
    && (forall k | i < k < |rs| :: Agrees(scope, b, rs[k].body))
  }

  lemma WithBodyIff(scope: Scope, rs: seq<Record>, i: nat, b: Body)
    requires Clean(scope, rs) && i < |rs| && !rs[i].body.Checkpoint? && !b.Checkpoint?
    requires forall k | i < k < |rs| && NeedsSupport(rs[k].body) && Supports(rs[i].body, rs[k].body) ::
        Supports(b, rs[k].body)
    ensures Violations(scope, WithBody(rs, i, b)) == {} <==> StandsAt(scope, rs, i, b) && Supported(rs[..i], b)
  {
    hide WellFormed, Agrees, Supports, NeedsSupport, Supported, Linear, Violations, CleanRecords, Checkpoints;
    var r := rs[i].(body := b);
    var changed := rs[i := r];
    ViolationsIffNotClean(scope, changed);
    CheckpointsUntouched(rs, i, r);
    CleanRecordsReplaced(scope, rs, i, r);
    LaterSupportKept(scope, rs, i, r);
    assert changed[..i] == rs[..i];
    assert forall k | i < k < |rs| :: changed[k] == rs[k];
    assert FitsAt(scope, changed, i) <==> StandsAt(scope, rs, i, b) && Supported(rs[..i], b) by {
      if StandsAt(scope, rs, i, b) && Supported(rs[..i], b) {
        assert forall k | i <= k < |rs| :: Supported(changed[..k], changed[k].body);
      }
      if FitsAt(scope, changed, i) {
        assert Supported(changed[..i], changed[i].body);
        forall k | 0 <= k < i ensures Agrees(scope, rs[k].body, b) {
          assert Agrees(scope, changed[k].body, changed[i].body);
        }
        forall k | i < k < |rs| ensures Agrees(scope, b, rs[k].body) {
          assert Agrees(scope, changed[i].body, changed[k].body);
        }
      }
    }
  }

  // ----- identity and order -----

  predicate Foreign(scope: Scope, b: Body) {
    || (b.RuntimeEvent? && (b.runId != scope.runId || b.turnId != scope.turnId))
    || (b.Checkpoint? && b.runId != scope.runId)
    || (b.OfOperation() && (b.provider != scope.provider || b.operationId != scope.operationId))
  }

  /** A record of another run, turn, provider or operation is flagged in any trace. */
  lemma ForeignRecordIsFlagged(scope: Scope, rs: seq<Record>, i: nat, b: Body)
    requires i < |rs| && Foreign(scope, b)
    ensures Violations(scope, WithBody(rs, i, b)) != {}
  {
    hide Violations, Agrees, Supported, Linear, Ordered;
    ViolationsIffNotClean(scope, WithBody(rs, i, b));
    assert WithBody(rs, i, b)[i] in WithBody(rs, i, b);
  }

  lemma EventIdIff(scope: Scope, rs: seq<Record>, i: nat, id: string)
    requires Clean(scope, rs) && i < |rs| && rs[i].body.RuntimeEvent?
    ensures Violations(scope, WithBody(rs, i, rs[i].body.(eventId := id))) == {} <==>
      id != "" && forall k | 0 <= k < |rs| && k != i && rs[k].body.RuntimeEvent? :: rs[k].body.eventId != id
  {
    hide Violations, Clean, IsSha256;
    var b := rs[i].body.(eventId := id);
    WithBodyIff(scope, rs, i, b);
    CleanAt(scope, rs, i);
  }

  lemma RenumberedIff(rs: seq<Record>, i: nat, n: int)
    requires Ordered(rs) && i < |rs|
    ensures Ordered(rs[i := rs[i].(sequence := n)]) <==>
      (i > 0 ==> rs[i - 1].sequence < n) && (i + 1 < |rs| ==> n < rs[i + 1].sequence)
  {
    var changed := rs[i := rs[i].(sequence := n)];
    assert i > 0 ==> changed[i - 1].sequence == rs[i - 1].sequence && changed[i].sequence == n;
    assert i + 1 < |rs| ==> changed[i + 1].sequence == rs[i + 1].sequence && changed[i].sequence == n;
    if (i > 0 ==> rs[i - 1].sequence < n) && (i + 1 < |rs| ==> n < rs[i + 1].sequence) {
      forall a, b | 0 <= a < b < |rs|
        ensures changed[a].sequence < changed[b].sequence && changed[a].recordId != changed[b].recordId
      {
        assert rs[a].sequence < rs[b].sequence && rs[a].recordId != rs[b].recordId;
        assert a < i - 1 ==> rs[a].sequence < rs[i - 1].sequence;
        assert i + 1 < b ==> rs[i + 1].sequence < rs[b].sequence;
      }
    }
  }

  /** A clean trace stays clean under exactly the renumberings that keep the record between its neighbours. */
  lemma SequenceIff(scope: Scope, rs: seq<Record>, i: nat, n: int)
    requires Clean(scope, rs) && i < |rs|
    ensures Violations(scope, rs[i := rs[i].(sequence := n)]) == {} <==>
      n > 0 && (i > 0 ==> rs[i - 1].sequence < n) && (i + 1 < |rs| ==> n < rs[i + 1].sequence)
  {
    HeaderIff(scope, rs, i, rs[i].(sequence := n));
    RenumberedIff(rs, i, n);
    CleanAt(scope, rs, i);
    hide Violations, CleanRecords, Agrees, Supported, Linear, Ordered;
  }

  lemma RenamedIff(rs: seq<Record>, i: nat, id: string)
    requires Ordered(rs) && i < |rs|
    ensures Ordered(rs[i := rs[i].(recordId := id)]) <==> forall k | 0 <= k < |rs| && k != i :: rs[k].recordId != id
  {
    var changed := rs[i := rs[i].(recordId := id)];
    if Ordered(changed) {
      forall k | 0 <= k < |rs| && k != i ensures rs[k].recordId != id {
        assert changed[k].recordId == rs[k].recordId && changed[i].recordId == id;
      }
    }
  }

  lemma RecordIdIff(scope: Scope, rs: seq<Record>, i: nat, id: string)
    requires Clean(scope, rs) && i < |rs|
    ensures Violations(scope, rs[i := rs[i].(recordId := id)]) == {} <==>
      id != "" && forall k | 0 <= k < |rs| && k != i :: rs[k].recordId != id
  {
    HeaderIff(scope, rs, i, rs[i].(recordId := id));
    RenamedIff(rs, i, id);
    CleanAt(scope, rs, i);
    hide Violations, CleanRecords, Agrees, Supported, Linear, Ordered;
  }

  /** Changing only the id or the sequence of a record changes nothing else that the detector looks at. */
  lemma HeaderIff(scope: Scope, rs: seq<Record>, i: nat, r: Record)
    requires Clean(scope, rs) && i < |rs| && r.body == rs[i].body
    ensures Violations(scope, rs[i := r]) == {} <==> r.recordId != "" && r.sequence > 0 && Ordered(rs[i := r])
  {
    hide Violations, Agrees, Supports, NeedsSupport, Linear, Ordered, Checkpoints;
    var changed := rs[i := r];
    ViolationsIffNotClean(scope, changed);
    CheckpointsUntouched(rs, i, r);
    CleanRecordsReplaced(scope, rs, i, r);
    assert rs[i] in rs && WellFormed(scope, rs[i]);
    assert WellFormed(scope, r) <==> r.recordId != "" && r.sequence > 0;
    LaterSupportKept(scope, rs, i, r);
    assert Supported(rs[..i], rs[i].body) && changed[..i] == rs[..i];
    assert forall k | 0 <= k < |rs| :: changed[k].body == rs[k].body;
    hide WellFormed;
  }

  // ----- approvals and effects -----

  /** Every field of an effect is determined by the rest of a clean trace. */
  lemma EffectIsDetermined(scope: Scope, rs: seq<Record>, i: nat, b: Body)
    requires Clean(scope, rs) && i < |rs| && rs[i].body.Effect? && b.Effect?
    ensures Violations(scope, WithBody(rs, i, b)) == {} <==> b == rs[i].body
  {
    hide Violations, Clean, IsSha256, EffectFingerprint;
    WithBodyIff(scope, rs, i, b);
    CleanAt(scope, rs, i);
    if StandsAt(scope, rs, i, b) && Supported(rs[..i], b) {
      var a :| a in rs[..i] && Supports(a.body, rs[i].body);
      var n :| 0 <= n < i && rs[..i][n] == a;
      assert Agrees(scope, rs[n].body, b) && Agrees(scope, rs[n].body, rs[i].body);
    }
  }

  /** Something else in the trace carries the effect that an approval approves. */
  ghost predicate Bears(rs: seq<Record>, i: nat)
    requires i < |rs|
  {
    || (exists k :: 0 <= k < |rs| && k != i && rs[k].body.Binds())
    || (exists k :: i < k < |rs| && (rs[k].body.Evidence? || rs[k].body.Completion?))
  }

  function Approves(a: Body, tool: string, payload: Digest, effect: Digest): Body
    requires a.Approval?
  {
    Approval(a.provider, a.operationId, tool, payload, effect, a.decision)
  }

  /** What an approval approves cannot be changed, unless nothing else in the trace carries it and the
      fingerprint is recomputed: then the trace is clean again, as one of another effect. */
  lemma ApprovedEffectIff(scope: Scope, rs: seq<Record>, i: nat, tool: string, payload: Digest, effect: Digest)
    requires Clean(scope, rs) && i < |rs| && rs[i].body.Approval?
    ensures
      var b := Approves(rs[i].body, tool, payload, effect);
      Violations(scope, WithBody(rs, i, b)) == {} <==>
        b == rs[i].body
        || (!Bears(rs, i) && tool != "" && IsSha256(payload) && effect == EffectFingerprint(scope, tool, payload))
  {
    hide Violations, Clean, IsSha256;
    var b := Approves(rs[i].body, tool, payload, effect);
    WithBodyIff(scope, rs, i, b);
    CleanAt(scope, rs, i);
  }

  /** A record whose body is ill formed is flagged. */
  lemma IllFormedIsFlagged(scope: Scope, rs: seq<Record>, i: nat)
    requires i < |rs| && !WellFormed(scope, rs[i])
    ensures Violations(scope, rs) != {}
  {
    hide Violations, WellFormed, Agrees, Supported, Linear, Ordered;
    ViolationsIffNotClean(scope, rs);
    assert rs[i] in rs;
  }

  /** An approval can be replaced by exactly the approvals and denials that are well formed and agree with the records
      around it. */
  lemma ApprovalIff(scope: Scope, rs: seq<Record>, i: nat, b: Body)
    requires Clean(scope, rs) && i < |rs| && rs[i].body.Approval? && b.Approval?
    ensures Violations(scope, WithBody(rs, i, b)) == {} <==> StandsAt(scope, rs, i, b)
  {
    hide Violations, Clean, IsSha256, EffectFingerprint;
    if b.decision.OtherDecision? {
      IllFormedIsFlagged(scope, WithBody(rs, i, b), i);
    } else if b.decision == Denied && exists k :: i < k < |rs| && rs[k].body.Effect? {
      var k :| i < k < |rs| && rs[k].body.Effect?;
      assert !Agrees(scope, b, rs[k].body);
      DisagreementIsFlagged(scope, WithBody(rs, i, b), i, k);
    } else {
      WithBodyIff(scope, rs, i, b);
    }
  }

  /** A runtime event can be replaced by exactly the events that are well formed and have an id of their own. */
  lemma EventIff(scope: Scope, rs: seq<Record>, i: nat, b: Body)
    requires Clean(scope, rs) && i < |rs| && rs[i].body.RuntimeEvent? && b.RuntimeEvent?
    ensures Violations(scope, WithBody(rs, i, b)) == {} <==>
      && WellFormed(scope, rs[i].(body := b))
      && forall k | 0 <= k < |rs| && k != i && rs[k].body.RuntimeEvent? :: rs[k].body.eventId != b.eventId
  {
    hide Violations, Clean, IsSha256, WellFormed;
    WithBodyIff(scope, rs, i, b);
  }

  /** An approval can be turned into a denial unnoticed exactly when no effect follows it. */
  lemma DenialIff(scope: Scope, rs: seq<Record>, i: nat)
    requires Clean(scope, rs) && i < |rs| && rs[i].body.Decides(Approved)
    ensures Violations(scope, WithBody(rs, i, rs[i].body.(decision := Denied))) == {} <==>
      forall k | i < k < |rs| :: !rs[k].body.Effect?
  {
    hide Violations, Clean, IsSha256, EffectFingerprint;
    var b := rs[i].body.(decision := Denied);
    CleanAt(scope, rs, i);
    if exists k :: i < k < |rs| && rs[k].body.Effect? {
      var k :| i < k < |rs| && rs[k].body.Effect?;
      assert !Agrees(scope, b, rs[k].body);
      DisagreementIsFlagged(scope, WithBody(rs, i, b), i, k);
    } else {
      WithBodyIff(scope, rs, i, b);
    }
  }

  lemma DisagreementIsFlagged(scope: Scope, rs: seq<Record>, i: nat, k: nat)
    requires i < k < |rs| && !Agrees(scope, rs[i].body, rs[k].body)
    ensures Violations(scope, rs) != {}
  {
    hide Violations, Agrees, Supported, Linear, Ordered, WellFormed;
    ViolationsIffNotClean(scope, rs);
  }

  // ----- checkpoints -----

  /** The checkpoint in place `k` of a linear chain may have another progress count between those of its neighbours;
      the last may have another id; the only one may have another plan. Nothing else about it can be changed. */
  predicate MayBecome(cs: seq<Body>, k: nat, c: Body)
    requires k < |cs| && c.Checkpoint? && forall x | x in cs :: x.Checkpoint?
  {
    var was := cs[k];
    && c.parent == was.parent && c.checkpointSequence == was.checkpointSequence
    && (c.checkpointId == was.checkpointId || (k + 1 == |cs| && c.checkpointId != ""))
    && (c.plan == was.plan || (|cs| == 1 && IsSha256(c.plan)))
    && c.completedCount >= 0
    && (k > 0 ==> cs[k - 1].completedCount <= c.completedCount)
    && (k + 1 < |cs| ==> c.completedCount <= cs[k + 1].completedCount)
  }

  lemma LinearReplacedOnly(cs: seq<Body>, k: nat, c: Body)
    requires Linear(cs) && k < |cs| && c.Checkpoint? && Linear(cs[k := c])
    ensures MayBecome(cs, k, c)
  {
    hide IsSha256;
    var changed := cs[k := c];
    assert Linked(cs, k) && Linked(changed, k);
    if k > 0 {
      assert changed[k - 1] == cs[k - 1] && changed[k - 1].plan == changed[k].plan;
    }
    if k + 1 < |cs| {
      assert Linked(cs, k + 1) && Linked(changed, k + 1);
      assert changed[k + 1] == cs[k + 1] && changed[k].plan == changed[k + 1].plan;
    }
  }

  lemma LinearReplaced(cs: seq<Body>, k: nat, c: Body)
    requires Linear(cs) && k < |cs| && c.Checkpoint? && MayBecome(cs, k, c)
    ensures Linear(cs[k := c])
  {
    hide IsSha256;
    var changed := cs[k := c];
    forall j | 0 <= j < |changed| ensures Linked(changed, j) {
      assert Linked(cs, j) && Linked(cs, k);
    }
    forall a, b | 0 <= a < b < |changed|
      ensures changed[a].plan == changed[b].plan && changed[a].completedCount <= changed[b].completedCount
    {
      assert cs[a].plan == cs[b].plan && cs[a].completedCount <= cs[b].completedCount;
      assert a < k - 1 ==> cs[a].completedCount <= cs[k - 1].completedCount;
      assert k + 1 < b ==> cs[k + 1].completedCount <= cs[b].completedCount;
    }
  }

  lemma OrderIgnoresBodies(rs: seq<Record>, i: nat, b: Body)
    requires i < |rs|
    ensures Ordered(WithBody(rs, i, b)) <==> Ordered(rs)
  {
    var changed := WithBody(rs, i, b);
    assert forall k | 0 <= k < |rs| :: changed[k].sequence == rs[k].sequence && changed[k].recordId == rs[k].recordId;
    if Ordered(changed) {
      forall a, b | 0 <= a < b < |rs| ensures rs[a].sequence < rs[b].sequence && rs[a].recordId != rs[b].recordId {
        assert changed[a].sequence < changed[b].sequence && changed[a].recordId != changed[b].recordId;
      }
    }
  }

  lemma CheckpointRecordIff(scope: Scope, rs: seq<Record>, i: nat, c: Body)
    requires CleanRecords(scope, rs) && i < |rs| && rs[i].body.Checkpoint? && c.Checkpoint?
    ensures CleanRecords(scope, WithBody(rs, i, c)) <==> c.runId == scope.runId
  {
    hide CleanRecords;
    var r := rs[i].(body := c);
    var changed := rs[i := r];
    CleanRecordsReplaced(scope, rs, i, r);
    LaterSupportKept(scope, rs, i, r);
    assert forall k | i < k < |rs| :: changed[k] == rs[k];
    assert r.recordId != "" && r.sequence > 0 by { WellFormedAt(scope, rs, i); }
    hide Supports, Supported;
  }

  lemma CheckpointIff(scope: Scope, rs: seq<Record>, i: nat, c: Body)
    requires Clean(scope, rs) && i < |rs| && rs[i].body.Checkpoint? && c.Checkpoint?
    ensures |Checkpoints(rs[..i])| < |Checkpoints(rs)|
    ensures Violations(scope, WithBody(rs, i, c)) == {} <==>
      c.runId == scope.runId && MayBecome(Checkpoints(rs), |Checkpoints(rs[..i])|, c)
  {
    hide Violations, CleanRecords, Ordered, Checkpoints, MayBecome, Linked;
    CheckpointReplaced(rs, i, c);
    var k := |Checkpoints(rs[..i])|;
    if MayBecome(Checkpoints(rs), k, c) {
      LinearReplaced(Checkpoints(rs), k, c);
    }
    if Linear(Checkpoints(rs)[k := c]) {
      LinearReplacedOnly(Checkpoints(rs), k, c);
    }
    ViolationsIffNotClean(scope, WithBody(rs, i, c));
    CheckpointRecordIff(scope, rs, i, c);
    OrderIgnoresBodies(rs, i, c);
    hide Linear;
  }

  const LONE_SCOPE := Scope("run", "turn", "provider", "operation")

  function LoneCheckpoint(plan: Digest): Body {
    Checkpoint("run", "cp-0", None, 0, plan, 0)
  }

  lemma LoneCheckpointIsClean(plan: Digest)
    requires IsSha256(plan)
    ensures Violations(LONE_SCOPE, [Record("r1", 1, LoneCheckpoint(plan))]) == {}
  {
    hide Violations;
    var rs := [Record("r1", 1, LoneCheckpoint(plan))];
    ViolationsIffNotClean(LONE_SCOPE, rs);
    assert rs[..0] == [];
    assert Checkpoints(rs) == [LoneCheckpoint(plan)];
  }

  /** Plans are compared between checkpoints only: the plan of a lone checkpoint can be changed unnoticed. */
  lemma LonePlanDriftsUnnoticed()
    ensures exists scope: Scope, rs: seq<Record>, c: Body ::
      && Violations(scope, rs) == {} && |rs| == 1 && rs[0].body.Checkpoint?
      && c.Checkpoint? && c.plan != rs[0].body.plan && Violations(scope, WithBody(rs, 0, c)) == {}
  {
    hide Violations;
    var a, b := OtherDigest("a"), OtherDigest("b");
    LoneCheckpointIsClean(a);
    LoneCheckpointIsClean(b);
    assert WithBody([Record("r1", 1, LoneCheckpoint(a))], 0, LoneCheckpoint(b)) == [Record("r1", 1, LoneCheckpoint(b))];
  }

  // ----- evidence and completions -----

  /** The revision of evidence can move only between those of the evidence around it, touching one only where the
      same was read; it stays at or below every later completion, and cannot move at all once a completion names it. */
  predicate MayMoveTo(rs: seq<Record>, i: nat, revision: int)
    requires i < |rs| && rs[i].body.Evidence?
  {
    var e := rs[i].body;
    && revision >= 0
    && (forall k | 0 <= k < |rs| && k != i && rs[k].body.Evidence? ::
          && (if k < i then rs[k].body.revision <= revision else revision <= rs[k].body.revision)
          && (revision == rs[k].body.revision ==> rs[k].body.readback == e.readback && rs[k].body.effect == e.effect))
    && (forall k | i < k < |rs| && rs[k].body.Completion? ::
          revision <= rs[k].body.revision && rs[k].body.evidenceId != e.evidenceId)
  }

  ghost predicate NamedLater(rs: seq<Record>, i: nat)
    requires i < |rs| && rs[i].body.Evidence?
  {
    exists k :: i < k < |rs| && rs[k].body.Completion? && rs[k].body.evidenceId == rs[i].body.evidenceId
  }

  /** Evidence that a later completion names can be replaced by no other evidence. Any other evidence can be replaced
      by whatever is well formed and agrees with the records around it. */
  lemma EvidenceIff(scope: Scope, rs: seq<Record>, i: nat, b: Body)
    requires Clean(scope, rs) && i < |rs| && rs[i].body.Evidence? && b.Evidence?
    ensures Violations(scope, WithBody(rs, i, b)) == {} <==>
      if NamedLater(rs, i) then b == rs[i].body else StandsAt(scope, rs, i, b)
  {
    hide Violations, Clean, EffectFingerprint, IsSha256, WellFormed, Agrees;
    if NamedLater(rs, i) {
      EvidenceOfACompletionIsDetermined(scope, rs, i, b);
    } else {
      WithBodyIff(scope, rs, i, b);
    }
  }

  function AtRevision(e: Body, revision: int): Body
    requires e.Evidence?
  {
    Evidence(e.provider, e.operationId, e.evidenceId, revision, e.readback, e.effect)
  }

  lemma RevisionIff(scope: Scope, rs: seq<Record>, i: nat, revision: int)
    requires Clean(scope, rs) && i < |rs| && rs[i].body.Evidence?
    ensures Violations(scope, WithBody(rs, i, AtRevision(rs[i].body, revision))) == {} <==>
      revision == rs[i].body.revision || MayMoveTo(rs, i, revision)
  {
    hide Violations, Clean, EffectFingerprint, IsSha256;
    CleanAt(scope, rs, i);
    EvidenceIff(scope, rs, i, AtRevision(rs[i].body, revision));
  }

  lemma EvidenceIdsAreUnique(scope: Scope, rs: seq<Record>, i: nat)
    requires CleanRecords(scope, rs) && i < |rs| && rs[i].body.Evidence?
    ensures forall n | 0 <= n < |rs| && n != i && rs[n].body.Evidence? :: rs[n].body.evidenceId != rs[i].body.evidenceId
  {
    hide WellFormed, Supported;
    forall n | 0 <= n < |rs| && n != i && rs[n].body.Evidence? ensures rs[n].body.evidenceId != rs[i].body.evidenceId {
      var first, second := if n < i then n else i, if n < i then i else n;
      assert Agrees(scope, rs[first].body, rs[second].body);
    }
  }

  /** The support of a completion is the evidence with the id it names. */
  lemma SupportExists(scope: Scope, rs: seq<Record>, k: nat) returns (n: nat)
    requires CleanRecords(scope, rs) && k < |rs| && NeedsSupport(rs[k].body)
    ensures n < k && Supports(rs[n].body, rs[k].body)
  {
    hide WellFormed, Agrees, Supports, NeedsSupport;
    assert Supported(rs[..k], rs[k].body);
    var a :| a in rs[..k] && Supports(a.body, rs[k].body);
    n :| 0 <= n < k && rs[..k][n] == a;
  }

  lemma NamedEvidenceIsDetermined(scope: Scope, rs: seq<Record>, i: nat, b: Body, k: nat)
    requires CleanRecords(scope, rs) && i < k < |rs| && rs[i].body.Evidence? && b.Evidence?
    requires rs[k].body.Completion? && rs[k].body.evidenceId == rs[i].body.evidenceId
    requires CleanRecords(scope, WithBody(rs, i, b))
    ensures b == rs[i].body
  {
    hide CleanRecords, Agrees, Supported, EffectFingerprint, IsSha256;
    EvidenceIdsAreUnique(scope, rs, i);
    var n := SupportExists(scope, rs, k);
    var m := SupportExists(scope, WithBody(rs, i, b), k);
    WellFormedAt(scope, rs, i);
    WellFormedAt(scope, WithBody(rs, i, b), i);
  }

  /** Evidence that a completion names cannot be replaced by any other evidence. */
  lemma EvidenceOfACompletionIsDetermined(scope: Scope, rs: seq<Record>, i: nat, b: Body)
    requires Clean(scope, rs) && i < |rs| && rs[i].body.Evidence? && b.Evidence?
    requires NamedLater(rs, i)
    ensures Violations(scope, WithBody(rs, i, b)) == {} <==> b == rs[i].body
  {
    hide Violations, Linear, Ordered, CleanRecords;
    ViolationsIffNotClean(scope, WithBody(rs, i, b));
    var k :| i < k < |rs| && rs[k].body.Completion? && rs[k].body.evidenceId == rs[i].body.evidenceId;
    if CleanRecords(scope, WithBody(rs, i, b)) {
      NamedEvidenceIsDetermined(scope, rs, i, b, k);
    }
    assert b == rs[i].body ==> WithBody(rs, i, b) == rs;
  }

  /** The revision and effect of a completion are determined; the evidence it names may be any of the earlier evidence
      at its revision, and nothing else. */
  lemma CompletionIff(scope: Scope, rs: seq<Record>, i: nat, c: Body)
    requires Clean(scope, rs) && i < |rs| && rs[i].body.Completion? && c.Completion?
    ensures Violations(scope, WithBody(rs, i, c)) == {} <==>
      && c == Completion(rs[i].body.provider, rs[i].body.operationId, c.evidenceId, rs[i].body.revision,
          rs[i].body.effect)
      && exists a :: a in rs[..i] && a.body.Evidence? && a.body.evidenceId == c.evidenceId
          && a.body.revision == rs[i].body.revision
  {
    hide Violations, Clean, EffectFingerprint, IsSha256;
    CleanAt(scope, rs, i);
    WithBodyIff(scope, rs, i, c);
    var a :| a in rs[..i] && Supports(a.body, rs[i].body);
    var n :| 0 <= n < i && rs[..i][n] == a;
    assert rs[n] == a;
    CleanAt(scope, rs, n);
    forall x | x in rs[..i] && x.body.Evidence? && x.body.revision == rs[i].body.revision
      ensures x.body.readback == Present && x.body.effect == rs[i].body.effect
    {
      var m :| 0 <= m < i && rs[..i][m] == x;
      assert rs[m] == x;
      assert m < n ==> Agrees(scope, rs[m].body, rs[n].body);
      assert n < m ==> Agrees(scope, rs[n].body, rs[m].body);
    }
    if StandsAt(scope, rs, i, c) && Supported(rs[..i], c) {
      var x :| x in rs[..i] && Supports(x.body, c);
      var m :| 0 <= m < i && rs[..i][m] == x;
      assert rs[m] == x && Agrees(scope, rs[m].body, rs[i].body) && Agrees(scope, rs[n].body, c);
    }
  }

  // ----- evidence after a completion -----

  /** A completion names the latest revision listed before it. In a clean trace that is the latest of all exactly when
      the evidence listed after it stays at its revision. */
  lemma CompletionIsLatestIff(scope: Scope, rs: seq<Record>, i: nat)
    requires Clean(scope, rs) && i < |rs| && rs[i].body.Completion?
    ensures (forall k | 0 <= k < |rs| && rs[k].body.Evidence? :: rs[k].body.revision <= rs[i].body.revision) <==>
      (forall k | i < k < |rs| && rs[k].body.Evidence? :: rs[k].body.revision == rs[i].body.revision)
  {
    hide WellFormed, Ordered, Linear, EffectFingerprint;
    CleanAt(scope, rs, i);
    var n := SupportExists(scope, rs, i);
    CleanAt(scope, rs, n);
  }

  const READ := Record("r1", 1, Evidence("provider", "operation", "e1", 0, Present, OtherDigest("effect")))
  const NAMES_READ := Record("r2", 2, Completion("provider", "operation", "e1", 0, OtherDigest("effect")))
  const NEWER_READ := Record("r3", 3, Evidence("provider", "operation", "e2", 1, Present, OtherDigest("effect")))

  lemma CompletionFitsRead()
    ensures Fits(LONE_SCOPE, [READ], NAMES_READ)
  {
    assert READ in [READ] && Supports(READ.body, NAMES_READ.body);
    hide EffectFingerprint, IsSha256;
  }

  lemma NewerReadFits()
    ensures Fits(LONE_SCOPE, [READ, NAMES_READ], NEWER_READ)
  {
    hide EffectFingerprint, IsSha256;
  }

  lemma NewerReadIsClean()
    ensures CleanRecords(LONE_SCOPE, [READ, NAMES_READ, NEWER_READ])
  {
    hide CleanRecords, Fits, WellFormed, Agrees, Supported;
    NoRecordsAreClean();
    CleanRecordsStep(LONE_SCOPE, [], READ);
    FirstReadFits();
    CleanRecordsStep(LONE_SCOPE, [READ], NAMES_READ);
    CompletionFitsRead();
    CleanRecordsStep(LONE_SCOPE, [READ, NAMES_READ], NEWER_READ);
    NewerReadFits();
    assert [] + [READ] == [READ] && [READ] + [NAMES_READ] == [READ, NAMES_READ];
    assert [READ, NAMES_READ] + [NEWER_READ] == [READ, NAMES_READ, NEWER_READ];
  }

  lemma NoRecordsAreClean()
    ensures CleanRecords(LONE_SCOPE, [])
  {
  }

  lemma FirstReadFits()
    ensures Fits(LONE_SCOPE, [], READ)
  {
  }

  /** A concrete trace with newer evidence after its completion, which is not found. */
  lemma NewerEvidenceGoesUnnoticed()
    ensures exists scope: Scope, rs: seq<Record> ::
      && Violations(scope, rs) == {} && |rs| == 3 && rs[1].body.Completion? && rs[2].body.Evidence?
      && rs[1].body.revision < rs[2].body.revision
  {
    hide Violations, CleanRecords, Checkpoints;
    var rs := [READ, NAMES_READ, NEWER_READ];
    ViolationsIffNotClean(LONE_SCOPE, rs);
    NewerReadIsClean();
    NoCheckpoints(rs);
  }

  lemma {:induction false} NoCheckpoints(rs: seq<Record>)
    requires forall r | r in rs :: !r.body.Checkpoint?
    ensures Checkpoints(rs) == []
    decreases |rs|
  {
    if rs != [] {
      NoCheckpoints(rs[..|rs| - 1]);
    }
  }

  // ----- taking a record out -----

  function Without(rs: seq<Record>, i: nat): seq<Record>
    requires i < |rs|
  {
    rs[..i] + rs[i + 1..]
  }

  /** Record `k` rests on a record other than `i`. */
  ghost predicate SupportedWithout(rs: seq<Record>, i: nat, k: nat)
    requires k < |rs|
  {
    NeedsSupport(rs[k].body) ==> exists n :: 0 <= n < k && n != i && Supports(rs[n].body, rs[k].body)
  }

  lemma WithoutAt(rs: seq<Record>, i: nat)
    requires i < |rs|
    ensures |Without(rs, i)| == |rs| - 1
    ensures forall n | 0 <= n < |rs| - 1 :: Without(rs, i)[n] == rs[if n < i then n else n + 1]
  {
  }

  lemma SupportedWithoutIff(rs: seq<Record>, i: nat, k: nat)
    requires i < k < |rs|
    ensures Supported(Without(rs, i)[..k - 1], rs[k].body) <==> SupportedWithout(rs, i, k)
  {
    hide Supports, NeedsSupport;
    WithoutAt(rs, i);
    var before := Without(rs, i)[..k - 1];
    if n :| 0 <= n < k && n != i && Supports(rs[n].body, rs[k].body) {
      var m := if n < i then n else n - 1;
      assert before[m] == rs[n] && before[m] in before;
    }
    if a :| a in before && Supports(a.body, rs[k].body) {
      var m :| 0 <= m < |before| && before[m] == a;
      assert before[m] == rs[if m < i then m else m + 1];
    }
  }

  lemma SupportBefore(rs: seq<Record>, i: nat, k: nat)
    requires k < i < |rs|
    ensures Without(rs, i)[..k] == rs[..k] && Without(rs, i)[k] == rs[k]
  {
  }

  lemma AllSupportedWithoutIff(rs: seq<Record>, i: nat)
    requires AllSupported(rs) && i < |rs|
    ensures AllSupported(Without(rs, i)) <==> forall k | i < k < |rs| :: SupportedWithout(rs, i, k)
  {
    hide Supported, SupportedWithout;
    WithoutAt(rs, i);
    var shorter := Without(rs, i);
    if AllSupported(shorter) {
      forall k | i < k < |rs| ensures SupportedWithout(rs, i, k) {
        SupportedWithoutIff(rs, i, k);
        assert Supported(shorter[..k - 1], shorter[k - 1].body);
      }
    }
    if forall k | i < k < |rs| :: SupportedWithout(rs, i, k) {
      forall n | 0 <= n < |shorter| ensures Supported(shorter[..n], shorter[n].body) {
        if n < i {
          SupportBefore(rs, i, n);
          assert Supported(rs[..n], rs[n].body);
        } else {
          SupportedWithoutIff(rs, i, n + 1);
        }
      }
    }
  }

  lemma RecordsWithoutIff(scope: Scope, rs: seq<Record>, i: nat)
    requires CleanRecords(scope, rs) && i < |rs|
    ensures CleanRecords(scope, Without(rs, i)) <==> forall k | i < k < |rs| :: SupportedWithout(rs, i, k)
  {
    hide WellFormed, Agrees, Supported, SupportedWithout, AllSupported;
    AllSupportedWithoutIff(rs, i);
    WithoutAt(rs, i);
    var shorter := Without(rs, i);
    forall a, b | 0 <= a < b < |shorter| ensures Agrees(scope, shorter[a].body, shorter[b].body) {
      assert Agrees(scope, rs[if a < i then a else a + 1].body, rs[if b < i then b else b + 1].body);
    }
    assert forall r | r in shorter :: r in rs;
  }

  lemma OrderedWithout(rs: seq<Record>, i: nat)
    requires Ordered(rs) && i < |rs|
    ensures Ordered(Without(rs, i))
  {
    WithoutAt(rs, i);
    var shorter := Without(rs, i);
    forall a, b | 0 <= a < b < |shorter|
      ensures shorter[a].sequence < shorter[b].sequence && shorter[a].recordId != shorter[b].recordId
    {
      var x, y := if a < i then a else a + 1, if b < i then b else b + 1;
      assert rs[x].sequence < rs[y].sequence && rs[x].recordId != rs[y].recordId;
    }
  }

  /** The checkpoints lose the removed one only. */
  lemma {:induction false} CheckpointRemoved(rs: seq<Record>, i: nat)
    requires i < |rs|
    ensures var cs, c := Checkpoints(rs), |Checkpoints(rs[..i])|;
            if rs[i].body.Checkpoint? then c < |cs| && Checkpoints(Without(rs, i)) == cs[..c] + cs[c + 1..]
            else Checkpoints(Without(rs, i)) == cs
    decreases |rs|
  {
    hide Checkpoints;
    var n := |rs| - 1;
    CheckpointsEndWith(rs[..n], rs[n]);
    assert rs[..n] + [rs[n]] == rs;
    if i == n {
      assert Without(rs, i) == rs[..n];
    } else {
      assert rs[..n][..i] == rs[..i];
      assert Without(rs, i) == Without(rs[..n], i) + [rs[n]];
      CheckpointsEndWith(Without(rs[..n], i), rs[n]);
      CheckpointRemoved(rs[..n], i);
    }
  }

  lemma {:induction false} LaterCheckpoints(rs: seq<Record>, i: nat)
    requires i <= |rs|
    ensures |Checkpoints(rs[..i])| <= |Checkpoints(rs)|
    ensures |Checkpoints(rs)| == |Checkpoints(rs[..i])| <==> forall k | i <= k < |rs| :: !rs[k].body.Checkpoint?
    decreases |rs|
  {
    hide Checkpoints;
    if i == |rs| {
      assert rs[..i] == rs;
    } else {
      var n := |rs| - 1;
      CheckpointsEndWith(rs[..n], rs[n]);
      assert rs[..n] + [rs[n]] == rs && rs[..n][..i] == rs[..i];
      LaterCheckpoints(rs[..n], i);
    }
  }

  lemma LinearWithoutIff(cs: seq<Body>, c: nat)
    requires Linear(cs) && c < |cs|
    ensures Linear(cs[..c] + cs[c + 1..]) <==> c + 1 == |cs|
  {
    hide IsSha256;
    var shorter := cs[..c] + cs[c + 1..];
    if c + 1 < |cs| {
      assert Linked(cs, c + 1);
      assert shorter[c] == cs[c + 1];
      assert Linear(shorter) ==> Linked(shorter, c);
    } else {
      forall k | 0 <= k < |shorter| ensures Linked(shorter, k) {
        assert Linked(cs, k);
      }
    }
  }

  /** A record can be taken out of a clean trace unnoticed exactly when every later effect and completion rests on
      another record too, and it is no checkpoint or the last one. */
  lemma RemovedRecordIff(scope: Scope, rs: seq<Record>, i: nat)
    requires Clean(scope, rs) && i < |rs|
    ensures Violations(scope, Without(rs, i)) == {} <==>
      && (forall k | i < k < |rs| :: SupportedWithout(rs, i, k))
      && (rs[i].body.Checkpoint? ==> forall k | i < k < |rs| :: !rs[k].body.Checkpoint?)
  {
    hide Violations, CleanRecords, Ordered, Checkpoints, SupportedWithout, Linear, Without;
    ViolationsIffNotClean(scope, Without(rs, i));
    RecordsWithoutIff(scope, rs, i);
    OrderedWithout(rs, i);
    CheckpointRemoved(rs, i);
    if rs[i].body.Checkpoint? {
      LinearWithoutIff(Checkpoints(rs), |Checkpoints(rs[..i])|);
      LaterCheckpoints(rs, i + 1);
      assert rs[..i + 1] == rs[..i] + [rs[i]];
      CheckpointsEndWith(rs[..i], rs[i]);
    }
  }
}
