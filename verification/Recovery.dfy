/** Durable checkpoint lineage: one linear chain of checkpoints for every run, bound to one plan. */
module Recovery {
  import opened Common

  datatype RecoveryOperation = RecoveryOperation(operationId: string, tool: string, payload: string)

  type Plan = seq<RecoveryOperation>

  datatype RecoveryCheckpoint = RecoveryCheckpoint(
    runId: string,
    checkpointId: string,
    sequence: int,
    parent: Option<string>,
    plan: Sha256<Plan>,
    completed: int)

  datatype RunRow = RunRow(plan: Plan, planHash: Sha256<Plan>, operationCount: nat, head: string)

  datatype Tables = Tables(
    runs: map<string, RunRow>,
    checkpoints: map<(string, string), RecoveryCheckpoint>)

  const EMPTY := Tables(map[], map[])

  /** One constructor a raising branch; `IntegrityError` is what the database itself would raise. */
  datatype RecoveryError =
    | BlankRunId
    | BlankCheckpointId
    | EmptyPlan
    | RepeatedOperationId
    | ConflictOtherPlan
    | ConflictInitial
    | ConflictUnknownRun
    | ConflictHeadMissing
    | ConflictCheckpoint
    | ConflictReusedId
    | StaleCheckpoint
    | ConflictPlanBinding
    | ConflictNoProgress
    | ConflictBeyondPlan
    | IntegrityError

  function OperationIds(plan: Plan): seq<string> {
    seq(|plan|, i requires 0 <= i < |plan| => plan[i].operationId)
  }

  function MaterializePlan(operations: Plan): Result<Plan, RecoveryError> {
    if operations == [] then Err(EmptyPlan)
    else if |OperationIds(operations)| != |Elements(OperationIds(operations))| then Err(RepeatedOperationId)
    else Ok(operations)
  }

  predicate Bound(row: RunRow, plan: Plan) {
    (row.plan, row.planHash, row.operationCount) == (plan, DigestOf(plan), |plan|)
  }

  function Load(t: Tables, runId: string, checkpointId: string): Option<RecoveryCheckpoint> {
    if (runId, checkpointId) in t.checkpoints then Some(t.checkpoints[(runId, checkpointId)]) else None
  }

  /** The insert under PRIMARY KEY (run_id, checkpoint_id) and UNIQUE (run_id, sequence). */
  function Insert(t: Tables, c: RecoveryCheckpoint): Result<Tables, RecoveryError> {
    if || (c.runId, c.checkpointId) in t.checkpoints
       || exists k | k in t.checkpoints :: k.0 == c.runId && t.checkpoints[k].sequence == c.sequence
    then Err(IntegrityError)
    else Ok(t.(checkpoints := t.checkpoints[(c.runId, c.checkpointId) := c]))
  }

  function StartOutcome(t: Tables, runId: string, operations: Plan, checkpointId: string)
    : Result<(Tables, RecoveryCheckpoint), RecoveryError>
  {
    if IsBlank(runId) then Err(BlankRunId)
    else if IsBlank(checkpointId) then Err(BlankCheckpointId)
    else match MaterializePlan(operations)
      case Err(e) => Err(e)
      case Ok(plan) =>
        var initial := RecoveryCheckpoint(runId, checkpointId, 0, None, DigestOf(plan), 0);
        if runId !in t.runs then
          match Insert(t.(runs := t.runs[runId := RunRow(plan, DigestOf(plan), |plan|, checkpointId)]), initial)
          case Err(e) => Err(e)
          case Ok(t') => Ok((t', initial))
        else if !Bound(t.runs[runId], plan) then Err(ConflictOtherPlan)
        else if Load(t, runId, checkpointId) != Some(initial) then Err(ConflictInitial)
        else Ok((t, initial))
  }

  function CurrentOutcome(t: Tables, runId: string): Result<RecoveryCheckpoint, RecoveryError> {
    if runId !in t.runs then Err(ConflictUnknownRun)
    else match Load(t, runId, t.runs[runId].head)
      case None => Err(ConflictHeadMissing)
      case Some(c) => Ok(c)
  }

  function AdvanceOutcome(t: Tables, parent: RecoveryCheckpoint, checkpointId: string, completed: int)
    : Result<(Tables, RecoveryCheckpoint), RecoveryError>
  {
    if IsBlank(checkpointId) then Err(BlankCheckpointId)
    else if parent.runId !in t.runs then Err(ConflictUnknownRun)
    else
      var run := t.runs[parent.runId];
      var candidate := RecoveryCheckpoint(parent.runId, checkpointId, parent.sequence + 1,
                                          Some(parent.checkpointId), run.planHash, completed);
      if Load(t, parent.runId, parent.checkpointId) != Some(parent) then Err(ConflictCheckpoint)
      else match Load(t, parent.runId, checkpointId)
        case Some(existing) =>
          if existing == candidate && run.head == checkpointId then Ok((t, existing))
          else Err(ConflictReusedId)
        case None =>
          if run.head != parent.checkpointId then Err(StaleCheckpoint)
          else if parent.plan != run.planHash then Err(ConflictPlanBinding)
          else if completed <= parent.completed then Err(ConflictNoProgress)
          else if completed > run.operationCount then Err(ConflictBeyondPlan)
          else match Insert(t, candidate)
            case Err(e) => Err(e)
            case Ok(t') => Ok((t'.(runs := t'.runs[parent.runId := run.(head := checkpointId)]), candidate))
  }

  /** `plan[k:]`, with Python's meaning of a negative or too large `k`. */
  function SliceFrom(plan: Plan, k: int): Plan {
    if k > |plan| then [] else if k >= 0 then plan[k..] else if -k <= |plan| then plan[|plan| + k..] else plan
  }

  function ResumeOutcome(t: Tables, checkpoint: RecoveryCheckpoint, operations: Plan): Result<Plan, RecoveryError> {
    match MaterializePlan(operations)
    case Err(e) => Err(e)
    case Ok(plan) =>
      if checkpoint.runId !in t.runs then Err(ConflictUnknownRun)
      else if !Bound(t.runs[checkpoint.runId], plan) then Err(ConflictOtherPlan)
      else if Load(t, checkpoint.runId, checkpoint.checkpointId) != Some(checkpoint) then Err(ConflictCheckpoint)
      else if t.runs[checkpoint.runId].head != checkpoint.checkpointId then Err(StaleCheckpoint)
      else Ok(SliceFrom(plan, checkpoint.completed))
  }

  // ----- the chain of a run -----

  /** The checkpoints of every run, in the order they were committed. History only. */
  type Chains = map<string, seq<RecoveryCheckpoint>>

  ghost predicate Follows(chain: seq<RecoveryCheckpoint>, i: nat)
    requires 0 < i < |chain|
  {
    chain[i].parent == Some(chain[i - 1].checkpointId) && chain[i - 1].completed < chain[i].completed
  }

  /** Numbered 0, 1, 2, ...; each names its predecessor; progress strictly grows within the plan. */
  ghost predicate Linear(runId: string, plan: Plan, chain: seq<RecoveryCheckpoint>) {
    && chain != []
    && chain[0].parent == None && chain[0].completed == 0
    && (forall i | 0 <= i < |chain| ::
          chain[i].runId == runId && chain[i].sequence == i && chain[i].plan == DigestOf(plan)
              && chain[i].completed <= |plan|)
    && (forall i | 0 < i < |chain| :: Follows(chain, i))
    && (forall i, j | 0 <= i < j < |chain| :: chain[i].checkpointId != chain[j].checkpointId)
  }

  ghost predicate IsRowOf(c: RecoveryCheckpoint, checkpointId: string, chain: seq<RecoveryCheckpoint>) {
    c.checkpointId == checkpointId && 0 <= c.sequence < |chain| && chain[c.sequence] == c
  }

  /** The run row is bound to its plan, its head is the last of the chain, its rows are the chain. */
  ghost predicate Chained(t: Tables, runId: string, chain: seq<RecoveryCheckpoint>)
    requires runId in t.runs
  {
    var run := t.runs[runId];
    && Bound(run, run.plan)
    && MaterializePlan(run.plan).Ok?
    && Linear(runId, run.plan, chain)
    && run.head == chain[|chain| - 1].checkpointId
    && (forall i | 0 <= i < |chain| :: Load(t, runId, chain[i].checkpointId) == Some(chain[i]))
    && (forall k | k in t.checkpoints && k.0 == runId :: IsRowOf(t.checkpoints[k], k.1, chain))
  }

  ghost predicate Lineage(t: Tables, chains: Chains) {
    && chains.Keys == t.runs.Keys
    && (forall k | k in t.checkpoints :: k.0 in t.runs)
    && (forall r | r in t.runs :: Chained(t, r, chains[r]))
  }

  /** Progress never lags behind the numbering. */
  lemma {:induction false} ProgressCoversSequence(runId: string, plan: Plan, chain: seq<RecoveryCheckpoint>, i: nat)
    requires Linear(runId, plan, chain) && i < |chain|
    ensures chain[i].sequence <= chain[i].completed <= |plan|
  {
    if i > 0 {
      assert Follows(chain, i);
      ProgressCoversSequence(runId, plan, chain, i - 1);
    }
  }

  lemma MaterializedIsThePlan(operations: Plan)
    ensures MaterializePlan(operations).Ok? ==> MaterializePlan(operations) == Ok(operations)
    ensures MaterializePlan(operations).Err? ==> MaterializePlan(operations).error in {EmptyPlan, RepeatedOperationId}
  {
  }

  lemma NewRunIsChained(t: Tables, t': Tables, runId: string, plan: Plan, c: RecoveryCheckpoint)
    requires runId !in t.runs && MaterializePlan(plan).Ok?
    requires forall k | k in t.checkpoints :: k.0 in t.runs
    requires c == RecoveryCheckpoint(runId, c.checkpointId, 0, None, DigestOf(plan), 0)
    requires t' == Tables(t.runs[runId := RunRow(plan, DigestOf(plan), |plan|, c.checkpointId)],
                          t.checkpoints[(runId, c.checkpointId) := c])
    ensures Chained(t', runId, [c])
  {
    hide MaterializePlan;
  }

  lemma KnownRunsHaveChains(t: Tables, chains: Chains)
    requires Lineage(t, chains)
    ensures chains.Keys == t.runs.Keys
    ensures forall r | r in chains :: chains[r] != []
  {
    hide MaterializePlan, IsRowOf, Follows;
    forall r | r in chains ensures chains[r] != [] {
      assert Chained(t, r, chains[r]);
    }
  }

  lemma LoadedIsOnChain(t: Tables, chains: Chains, c: RecoveryCheckpoint) returns (i: nat)
    requires Lineage(t, chains) && c.runId in t.runs
    requires Load(t, c.runId, c.checkpointId) == Some(c)
    ensures c.runId in chains && i == c.sequence && i < |chains[c.runId]| && chains[c.runId][i] == c
    ensures c.plan == t.runs[c.runId].planHash
    ensures t.runs[c.runId].head == c.checkpointId <==> i == |chains[c.runId]| - 1
  {
    hide MaterializePlan, Lineage, Follows;
    RunIsChained(t, chains, c.runId);
    var chain := chains[c.runId];
    assert IsRowOf(c, c.checkpointId, chain);
    i := c.sequence;
  }

  lemma RunIsChained(t: Tables, chains: Chains, runId: string)
    requires Lineage(t, chains) && runId in t.runs
    ensures runId in chains && Chained(t, runId, chains[runId])
  {
  }

  lemma RowsBelongToRuns(t: Tables, chains: Chains)
    requires Lineage(t, chains)
    ensures forall k | k in t.checkpoints :: k.0 in t.runs
  {
  }

  lemma StartKeepsLineage(t: Tables, chains: Chains, runId: string, operations: Plan, checkpointId: string)
    requires Lineage(t, chains)
    ensures var r := StartOutcome(t, runId, operations, checkpointId);
            && r != Err(IntegrityError)
            && (r.Ok? && runId in t.runs ==>
                runId in chains && chains[runId] != [] && r.value.0 == t && r.value.1 == chains[runId][0])
            && (r.Ok? && runId !in t.runs ==> Lineage(r.value.0, chains[runId := [r.value.1]]))
  {
    hide MaterializePlan, Lineage, Chained;
    MaterializedIsThePlan(operations);
    RowsBelongToRuns(t, chains);
    KnownRunsHaveChains(t, chains);
    var r := StartOutcome(t, runId, operations, checkpointId);
    if r.Ok? && runId in t.runs {
      var i := LoadedIsOnChain(t, chains, r.value.1);
    } else if r.Ok? {
      NewRunIsChained(t, r.value.0, runId, operations, r.value.1);
      LineageElsewhere(t, r.value.0, chains, runId, [r.value.1]);
    }
  }

  ghost predicate SameElsewhere(t: Tables, t': Tables, runId: string) {
    forall k: (string, string) | k.0 != runId ::
      && (k in t.checkpoints <==> k in t'.checkpoints)
      && (k in t.checkpoints ==> t'.checkpoints[k] == t.checkpoints[k])
  }

  /** A transaction on one run leaves the rows of every other run alone. */
  lemma OtherRunsStayChained(t: Tables, t': Tables, q: string, runId: string, chain: seq<RecoveryCheckpoint>)
    requires q in t.runs && q in t'.runs && q != runId && t'.runs[q] == t.runs[q]
    requires Chained(t, q, chain)
    requires SameElsewhere(t, t', runId)
    ensures Chained(t', q, chain)
  {
    hide MaterializePlan;
  }

  lemma RowsAreNumbered(t: Tables, chains: Chains, runId: string)
    requires Lineage(t, chains) && runId in t.runs
    ensures runId in chains
    ensures forall k | k in t.checkpoints && k.0 == runId :: t.checkpoints[k].sequence < |chains[runId]|
  {
    hide MaterializePlan, Linear;
    assert Chained(t, runId, chains[runId]);
    forall k | k in t.checkpoints && k.0 == runId ensures t.checkpoints[k].sequence < |chains[runId]| {
      assert IsRowOf(t.checkpoints[k], k.1, chains[runId]);
    }
  }

  lemma AdvanceKeepsLineage(t: Tables, chains: Chains, parent: RecoveryCheckpoint, checkpointId: string, completed: int)
    requires Lineage(t, chains)
    ensures var r := AdvanceOutcome(t, parent, checkpointId, completed);
            && r != Err(IntegrityError) && r != Err(ConflictPlanBinding)
            && (r.Ok? ==>
                  && parent.runId in t.runs && parent.runId in chains && chains[parent.runId] != []
                  && (r.value.0 == t ==> r.value.1 == chains[parent.runId][|chains[parent.runId]| - 1])
                  && (r.value.0 != t ==>
                        && parent == chains[parent.runId][|chains[parent.runId]| - 1]
                        && Lineage(r.value.0, chains[parent.runId := chains[parent.runId] + [r.value.1]])))
  {
    hide MaterializePlan, Lineage, Chained, Linear;
    var r := AdvanceOutcome(t, parent, checkpointId, completed);
    KnownRunsHaveChains(t, chains);
    if !IsBlank(checkpointId) && parent.runId in t.runs && Load(t, parent.runId, parent.checkpointId) == Some(parent) {
      var p := LoadedIsOnChain(t, chains, parent);
      RowsAreNumbered(t, chains, parent.runId);
      if Load(t, parent.runId, checkpointId).Some? {
        if r.Ok? {
          var q := LoadedIsOnChain(t, chains, r.value.1);
        }
      } else if r.Ok? {
        ExtendedChain(t, chains, parent, r.value.1, r.value.0);
      }
    }
  }

  lemma LinearExtends(runId: string, plan: Plan, chain: seq<RecoveryCheckpoint>, c: RecoveryCheckpoint)
    requires Linear(runId, plan, chain)
    requires forall i | 0 <= i < |chain| :: chain[i].checkpointId != c.checkpointId
    requires var last := chain[|chain| - 1];
             && c.runId == runId && c.sequence == last.sequence + 1 && c.parent == Some(last.checkpointId)
             && c.plan == DigestOf(plan) && last.completed < c.completed <= |plan|
    ensures Linear(runId, plan, chain + [c])
  {
    forall i | 0 < i < |chain + [c]| ensures Follows(chain + [c], i) {
      if i < |chain| { assert Follows(chain, i); }
    }
  }

  lemma ChainedExtends(t: Tables, t': Tables, chain: seq<RecoveryCheckpoint>, c: RecoveryCheckpoint)
    requires c.runId in t.runs && Chained(t, c.runId, chain)
    requires Linear(c.runId, t.runs[c.runId].plan, chain + [c])
    requires t' == Tables(t.runs[c.runId := t.runs[c.runId].(head := c.checkpointId)],
                          t.checkpoints[(c.runId, c.checkpointId) := c])
    ensures Chained(t', c.runId, chain + [c])
  {
    hide MaterializePlan, Follows;
    var longer := chain + [c];
    assert longer[|chain|] == c && c.sequence == |chain|;
    forall i | 0 <= i < |longer| ensures Load(t', c.runId, longer[i].checkpointId) == Some(longer[i]) {
      if i < |chain| {
        assert Load(t, c.runId, chain[i].checkpointId) == Some(chain[i]);
        assert longer[i].checkpointId != longer[|chain|].checkpointId;
      }
    }
    forall k | k in t'.checkpoints && k.0 == c.runId ensures IsRowOf(t'.checkpoints[k], k.1, longer) {
      if k != (c.runId, c.checkpointId) {
        assert IsRowOf(t.checkpoints[k], k.1, chain);
      }
    }
  }

  lemma CommittedAdvance(t: Tables, parent: RecoveryCheckpoint, c: RecoveryCheckpoint, t': Tables)
    requires parent.runId in t.runs && Load(t, parent.runId, c.checkpointId).None?
    requires AdvanceOutcome(t, parent, c.checkpointId, c.completed) == Ok((t', c))
    ensures var run := t.runs[parent.runId];
            && t' == Tables(t.runs[parent.runId := run.(head := c.checkpointId)],
                t.checkpoints[(c.runId, c.checkpointId) := c])
            && c == RecoveryCheckpoint(parent.runId, c.checkpointId, parent.sequence + 1, Some(parent.checkpointId),
                run.planHash, c.completed)
            && parent.completed < c.completed <= run.operationCount
  {
  }

  lemma ExtendedChain(t: Tables, chains: Chains, parent: RecoveryCheckpoint, c: RecoveryCheckpoint, t': Tables)
    requires Lineage(t, chains) && parent.runId in t.runs && parent.runId in chains && chains[parent.runId] != []
    requires parent == chains[parent.runId][|chains[parent.runId]| - 1]
    requires AdvanceOutcome(t, parent, c.checkpointId, c.completed) == Ok((t', c))
    requires Load(t, parent.runId, c.checkpointId).None?
    ensures Lineage(t', chains[parent.runId := chains[parent.runId] + [c]])
  {
    hide MaterializePlan, Follows, IsRowOf, AdvanceOutcome, Lineage;
    var id := parent.runId;
    KnownRunsHaveChains(t, chains);
    RunIsChained(t, chains, id);
    var chain := chains[id];
    CommittedAdvance(t, parent, c, t');
    forall i | 0 <= i < |chain| ensures chain[i].checkpointId != c.checkpointId {
      assert Load(t, id, chain[i].checkpointId) == Some(chain[i]);
    }
    LinearExtends(id, t.runs[id].plan, chain, c);
    hide Linear;
    ChainedExtends(t, t', chain, c);
    LineageElsewhere(t, t', chains, id, chain + [c]);
  }

  /** A transaction that leaves other runs alone keeps the lineage if its own run stays chained. */
  lemma LineageElsewhere(t: Tables, t': Tables, chains: Chains, runId: string, chain: seq<RecoveryCheckpoint>)
    requires Lineage(t, chains)
    requires t'.runs.Keys == t.runs.Keys + {runId}
    requires Chained(t', runId, chain)
    requires forall q | q in t.runs && q != runId :: t'.runs[q] == t.runs[q]
    requires SameElsewhere(t, t', runId)
    ensures Lineage(t', chains[runId := chain])
  {
    hide Chained;
    forall q | q in t'.runs && q != runId ensures Chained(t', q, chains[q]) {
      OtherRunsStayChained(t, t', q, runId, chains[q]);
    }
    forall k | k in t'.checkpoints ensures k.0 in t'.runs {
      if k.0 != runId { assert k in t.checkpoints; }
    }
  }

  // ----- every run of every caller -----

  // ----- what each call answers -----

  /** At least one operation, and no id twice. */
  ghost predicate ValidPlan(plan: Plan) {
    plan != [] && forall i, j | 0 <= i < j < |plan| :: plan[i].operationId != plan[j].operationId
  }

  lemma PlanIsExact(plan: Plan)
    ensures MaterializePlan(plan) == Ok(plan) <==> ValidPlan(plan)
    ensures MaterializePlan(plan) == Err(EmptyPlan) <==> plan == []
    ensures MaterializePlan(plan) == Err(RepeatedOperationId) <==> plan != [] && !ValidPlan(plan)
    ensures MaterializePlan(plan).Ok? ==> MaterializePlan(plan).value == plan
  {
    var ids := OperationIds(plan);
    CardinalityIffDistinct(ids);
    hide Elements;
    if Distinct(ids) {
      forall i, j | 0 <= i < j < |plan| ensures plan[i].operationId != plan[j].operationId {
        assert ids[i] != ids[j];
      }
    }
  }

  predicate IsAmong(c: RecoveryCheckpoint, id: string, chain: seq<RecoveryCheckpoint>) {
    c in chain && c.checkpointId == id
  }

  /** The checkpoints of a run are its chain. */
  lemma LoadedIffOnChain(t: Tables, chains: Chains, runId: string)
    requires Lineage(t, chains) && runId in t.runs
    ensures runId in chains && chains[runId] != []
    ensures forall c: RecoveryCheckpoint ::
      c in chains[runId] <==> c.runId == runId && Load(t, runId, c.checkpointId) == Some(c)
    ensures forall id | Load(t, runId, id).Some? :: IsAmong(Load(t, runId, id).value, id, chains[runId])
  {
    hide MaterializePlan, Follows, Lineage, Linear, Bound;
    RunIsChained(t, chains, runId);
    ChainIsNonempty(t, runId, chains[runId]);
    var chain := chains[runId];
    forall c | c in chain ensures c.runId == runId && Load(t, runId, c.checkpointId) == Some(c) {
      var i :| 0 <= i < |chain| && chain[i] == c;
      ChainOfRun(t, runId, chain, i);
    }
    forall id | Load(t, runId, id).Some? ensures IsAmong(Load(t, runId, id).value, id, chain) {
      assert (runId, id) in t.checkpoints && IsRowOf(t.checkpoints[(runId, id)], id, chain);
    }
  }

  lemma ChainIsNonempty(t: Tables, runId: string, chain: seq<RecoveryCheckpoint>)
    requires runId in t.runs && Chained(t, runId, chain)
    ensures chain != []
  {
  }

  lemma ChainOfRun(t: Tables, runId: string, chain: seq<RecoveryCheckpoint>, i: nat)
    requires runId in t.runs && Chained(t, runId, chain) && i < |chain|
    ensures chain[i].runId == runId
  {
  }

  ghost function Head(chains: Chains, runId: string): RecoveryCheckpoint
    requires runId in chains && chains[runId] != []
  {
    chains[runId][|chains[runId]| - 1]
  }

  ghost predicate UsesId(chain: seq<RecoveryCheckpoint>, id: string) {
    exists c :: c in chain && c.checkpointId == id
  }

  lemma HeadIsLoaded(t: Tables, chains: Chains, runId: string)
    requires Lineage(t, chains) && runId in t.runs
    ensures runId in chains && chains[runId] != []
    ensures t.runs[runId].head == Head(chains, runId).checkpointId
    ensures Head(chains, runId) in chains[runId]
    ensures forall c | c in chains[runId] && c.checkpointId == Head(chains, runId).checkpointId ::
        c == Head(chains, runId)
    ensures forall c | c in chains[runId] :: c.plan == t.runs[runId].planHash && c.runId == runId
    ensures t.runs[runId].operationCount == |t.runs[runId].plan|
        && t.runs[runId].planHash == DigestOf(t.runs[runId].plan)
  {
    hide MaterializePlan, Follows, IsRowOf;
    RunIsChained(t, chains, runId);
    hide Lineage;
  }

  /** What the constraints of the table and the last two checks would refuse, in rows that no run reaches. */
  lemma ConstraintsAreExact(t: Tables, c: RecoveryCheckpoint, runId: string, id: string, completed: int)
    ensures Insert(t, c) == Err(IntegrityError) <==>
      || (c.runId, c.checkpointId) in t.checkpoints
      || exists k :: k in t.checkpoints && k.0 == c.runId && t.checkpoints[k].sequence == c.sequence
    ensures Insert(t, c).Ok? <==> Insert(t, c) != Err(IntegrityError)
    ensures CurrentOutcome(t, runId) == Err(ConflictHeadMissing) <==>
      runId in t.runs && (runId, t.runs[runId].head) !in t.checkpoints
    ensures AdvanceOutcome(t, c, id, completed) == Err(ConflictPlanBinding) <==>
      && !IsBlank(id) && c.runId in t.runs
      && (c.runId, c.checkpointId) in t.checkpoints && t.checkpoints[(c.runId, c.checkpointId)] == c
      && (c.runId, id) !in t.checkpoints && t.runs[c.runId].head == c.checkpointId
      && c.plan != t.runs[c.runId].planHash
  {
  }

  /** The same advance was committed last. */
  ghost predicate RepeatsHead(chains: Chains, parent: RecoveryCheckpoint, id: string, completed: int)
    requires parent.runId in chains && chains[parent.runId] != []
  {
    && parent in chains[parent.runId]
    && var head := Head(chains, parent.runId);
       && head.checkpointId == id && head.completed == completed
       && head.sequence == parent.sequence + 1 && head.parent == Some(parent.checkpointId)
  }

  /** The head moves on: a new id, more progress, within the plan. */
  ghost predicate MovesHead(t: Tables, chains: Chains, parent: RecoveryCheckpoint, id: string, completed: int)
    requires parent.runId in t.runs && parent.runId in chains && chains[parent.runId] != []
  {
    && parent == Head(chains, parent.runId) && !UsesId(chains[parent.runId], id)
    && parent.completed < completed <= |t.runs[parent.runId].plan|
  }

  /** An advance succeeds exactly as a repetition of the last one, or if it moves the head on. */
  lemma AdvanceIsExact(t: Tables, chains: Chains, parent: RecoveryCheckpoint, id: string, completed: int)
    requires Lineage(t, chains) && parent.runId in t.runs && !IsBlank(id)
    ensures parent.runId in chains && chains[parent.runId] != []
    ensures var r := AdvanceOutcome(t, parent, id, completed);
            && (r.Ok? <==> RepeatsHead(chains, parent, id, completed) || MovesHead(t, chains, parent, id, completed))
            && (r.Ok? ==>
                  && r.value.1.runId == parent.runId && r.value.1.checkpointId == id && r.value.1.completed == completed
                  && r.value.1.sequence == parent.sequence + 1 && r.value.1.parent == Some(parent.checkpointId)
                  && r.value.1.plan == DigestOf(t.runs[parent.runId].plan)
                  && (r.value.0 == t <==> RepeatsHead(chains, parent, id, completed)))
  {
    hide MaterializePlan, Lineage, Follows;
    AdvanceKeepsLineage(t, chains, parent, id, completed);
    LoadedIffOnChain(t, chains, parent.runId);
    HeadIsLoaded(t, chains, parent.runId);
    hide Insert;
  }

  ghost predicate MayAdvance(t: Tables, chains: Chains, parent: RecoveryCheckpoint, id: string, completed: int) {
    && parent.runId in t.runs && parent.runId in chains && chains[parent.runId] != [] && !IsBlank(id)
    && (RepeatsHead(chains, parent, id, completed) || MovesHead(t, chains, parent, id, completed))
  }

  predicate IsAdvance(c: RecoveryCheckpoint, parent: RecoveryCheckpoint, id: string, completed: int) {
    && c.runId == parent.runId && c.checkpointId == id && c.completed == completed
    && c.sequence == parent.sequence + 1 && c.parent == Some(parent.checkpointId) && c.plan == parent.plan
  }

  ghost predicate IsHead(chains: Chains, c: RecoveryCheckpoint) {
    c.runId in chains && chains[c.runId] != [] && Head(chains, c.runId) == c
  }

  lemma AppendedIsHead(chains: Chains, c: RecoveryCheckpoint)
    requires c.runId in chains
    ensures IsHead(chains[c.runId := chains[c.runId] + [c]], c)
  {
  }

  lemma AdvanceAnswers(t: Tables, chains: Chains, parent: RecoveryCheckpoint, id: string, completed: int)
    requires Lineage(t, chains)
    ensures var r := AdvanceOutcome(t, parent, id, completed);
            && (r.Ok? <==> MayAdvance(t, chains, parent, id, completed))
            && (r.Ok? ==> IsAdvance(r.value.1, parent, id, completed))
            && (r.Ok? && r.value.0 == t ==> IsHead(chains, r.value.1))
  {
    hide Lineage, AdvanceOutcome, RepeatsHead, MovesHead, IsBlank;
    UnstartedRefusals(t, parent, id, completed);
    KnownRunsHaveChains(t, chains);
    if parent.runId in t.runs && !IsBlank(id) {
      AdvanceIsExact(t, chains, parent, id, completed);
      AdvanceKeepsLineage(t, chains, parent, id, completed);
      if AdvanceOutcome(t, parent, id, completed).Ok? {
        HeadIsLoaded(t, chains, parent.runId);
        ParentIsOnChain(t, chains, parent, id, completed);
      }
    }
  }

  lemma ParentIsOnChain(t: Tables, chains: Chains, parent: RecoveryCheckpoint, id: string, completed: int)
    requires parent.runId in t.runs && parent.runId in chains && chains[parent.runId] != []
    requires RepeatsHead(chains, parent, id, completed) || MovesHead(t, chains, parent, id, completed)
    ensures parent in chains[parent.runId]
  {
  }

  /** Which refusal each other advance meets, the first that applies. */
  lemma AdvanceRefusals(t: Tables, chains: Chains, parent: RecoveryCheckpoint, id: string, completed: int)
    requires Lineage(t, chains) && parent.runId in t.runs && !IsBlank(id)
    ensures parent.runId in chains && chains[parent.runId] != []
    ensures var r, chain := AdvanceOutcome(t, parent, id, completed), chains[parent.runId];
            var atHead := parent == Head(chains, parent.runId) && !UsesId(chain, id);
            && (r == Err(ConflictCheckpoint) <==> parent !in chain)
            && (r == Err(ConflictReusedId) <==>
                  parent in chain && UsesId(chain, id) && !RepeatsHead(chains, parent, id, completed))
            && (r == Err(StaleCheckpoint) <==>
                  parent in chain && !UsesId(chain, id) && parent != Head(chains, parent.runId))
            && (r == Err(ConflictNoProgress) <==> atHead && completed <= parent.completed)
            && (r == Err(ConflictBeyondPlan) <==>
                  atHead && parent.completed < completed && |t.runs[parent.runId].plan| < completed)
  {
    hide MaterializePlan, Lineage, Follows;
    AdvanceKeepsLineage(t, chains, parent, id, completed);
    LoadedIffOnChain(t, chains, parent.runId);
    HeadIsLoaded(t, chains, parent.runId);
    hide Insert;
  }

  lemma UnstartedRefusals(t: Tables, parent: RecoveryCheckpoint, id: string, completed: int)
    ensures AdvanceOutcome(t, parent, id, completed) == Err(BlankCheckpointId) <==> IsBlank(id)
    ensures AdvanceOutcome(t, parent, id, completed) == Err(ConflictUnknownRun)
        <==> !IsBlank(id) && parent.runId !in t.runs
  {
    hide IsBlank;
  }

  /** The run was started with this plan and this root. */
  ghost predicate StartedAs(t: Tables, chains: Chains, runId: string, plan: Plan, id: string)
    requires runId in t.runs && runId in chains && chains[runId] != []
  {
    t.runs[runId].plan == plan && chains[runId][0].checkpointId == id
  }

  lemma RootIsFirst(t: Tables, chains: Chains, runId: string)
    requires Lineage(t, chains) && runId in t.runs
    ensures runId in chains && chains[runId] != []
    ensures Bound(t.runs[runId], t.runs[runId].plan)
    ensures var root := chains[runId][0];
            && root == RecoveryCheckpoint(runId, root.checkpointId, 0, None, DigestOf(t.runs[runId].plan), 0)
            && root in chains[runId]
            && forall c | c in chains[runId] && c.sequence == 0 :: c == root
  {
    hide MaterializePlan, Follows, IsRowOf;
    RunIsChained(t, chains, runId);
    hide Lineage;
  }

  /** A start succeeds exactly for a new run, or as a repetition of the first start; it answers the root of the plan. */
  lemma StartIsExact(t: Tables, chains: Chains, runId: string, plan: Plan, id: string)
    requires Lineage(t, chains)
    ensures runId in t.runs ==> runId in chains && chains[runId] != []
    ensures var r := StartOutcome(t, runId, plan, id);
            var named := !IsBlank(runId) && !IsBlank(id);
            && (r.Ok? <==> named && ValidPlan(plan) && (runId in t.runs ==> StartedAs(t, chains, runId, plan, id)))
            && (r.Ok? ==> r.value.1 == RecoveryCheckpoint(runId, id, 0, None, DigestOf(plan), 0))
            && (r.Ok? && runId in t.runs ==> r.value.0 == t)
            && (r.Ok? && runId !in t.runs ==>
                  && r.value.0.runs == t.runs[runId := RunRow(plan, DigestOf(plan), |plan|, id)]
                  && r.value.0.checkpoints == t.checkpoints[(runId, id) := r.value.1])
            && (r == Err(BlankRunId) <==> IsBlank(runId))
            && (r == Err(BlankCheckpointId) <==> !IsBlank(runId) && IsBlank(id))
            && (r == Err(EmptyPlan) <==> named && plan == [])
            && (r == Err(RepeatedOperationId) <==> named && plan != [] && !ValidPlan(plan))
            && (r == Err(ConflictOtherPlan) <==>
                  named && ValidPlan(plan) && runId in t.runs && t.runs[runId].plan != plan)
            && (r == Err(ConflictInitial) <==>
                  && named && ValidPlan(plan) && runId in t.runs && t.runs[runId].plan == plan
                  && chains[runId][0].checkpointId != id)
  {
    hide MaterializePlan, Lineage, ValidPlan, IsBlank;
    PlanIsExact(plan);
    StartKeepsLineage(t, chains, runId, plan, id);
    if runId in t.runs {
      RootIsFirst(t, chains, runId);
      LoadedIffOnChain(t, chains, runId);
      var initial := RecoveryCheckpoint(runId, id, 0, None, DigestOf(plan), 0);
      assert initial in chains[runId] ==> initial == chains[runId][0];
      assert Load(t, runId, id) == Some(initial) <==> initial in chains[runId];
      assert Bound(t.runs[runId], plan) <==> t.runs[runId].plan == plan;
    }
  }

  /** Which refusal a resume meets, the first that applies. */
  lemma ResumeRefusals(t: Tables, chains: Chains, checkpoint: RecoveryCheckpoint, plan: Plan)
    requires Lineage(t, chains)
    ensures checkpoint.runId in t.runs ==> checkpoint.runId in chains && chains[checkpoint.runId] != []
    ensures var r, runId := ResumeOutcome(t, checkpoint, plan), checkpoint.runId;
            && (r == Err(EmptyPlan) <==> plan == [])
            && (r == Err(RepeatedOperationId) <==> plan != [] && !ValidPlan(plan))
            && (r == Err(ConflictUnknownRun) <==> ValidPlan(plan) && runId !in t.runs)
            && (r == Err(ConflictOtherPlan) <==> ValidPlan(plan) && runId in t.runs && t.runs[runId].plan != plan)
            && (r == Err(ConflictCheckpoint) <==>
                  ValidPlan(plan) && runId in t.runs && t.runs[runId].plan == plan && checkpoint !in chains[runId])
            && (r == Err(StaleCheckpoint) <==>
                  && ValidPlan(plan) && runId in t.runs && t.runs[runId].plan == plan
                  && checkpoint in chains[runId] && checkpoint != Head(chains, runId))
  {
    hide MaterializePlan, Lineage, ValidPlan;
    PlanIsExact(plan);
    if checkpoint.runId in t.runs {
      RootIsFirst(t, chains, checkpoint.runId);
      HeadIsLoaded(t, chains, checkpoint.runId);
      LoadedIffOnChain(t, chains, checkpoint.runId);
    }
  }

  /** `plan[k:]` of Python. */
  lemma SliceIsExact(plan: Plan, k: int)
    ensures 0 <= k <= |plan| ==> plan[..k] + SliceFrom(plan, k) == plan
    ensures k > |plan| ==> SliceFrom(plan, k) == []
    ensures -|plan| <= k < 0 ==> |SliceFrom(plan, k)| == -k && plan[..|plan| + k] + SliceFrom(plan, k) == plan
    ensures k < -|plan| ==> SliceFrom(plan, k) == plan
  {
  }

  datatype Call =
    | CallStart(runId: string, operations: Plan, checkpointId: string)
    | CallAdvance(parent: RecoveryCheckpoint, checkpointId: string, completed: int)

  datatype World = World(t: Tables, chains: Chains)

  const INITIAL := World(EMPTY, map[])

  ghost function ChainOf(w: World, runId: string): seq<RecoveryCheckpoint> {
    if runId in w.chains then w.chains[runId] else []
  }

  /** A call that commits a new checkpoint puts it at the end of its run's chain. */
  ghost function Next(w: World, call: Call): World {
    var r := match call
             case CallStart(runId, operations, id) => StartOutcome(w.t, runId, operations, id)
             case CallAdvance(parent, id, completed) => AdvanceOutcome(w.t, parent, id, completed);
    if r.Err? || r.value.0 == w.t then w
    else World(r.value.0, w.chains[r.value.1.runId := ChainOf(w, r.value.1.runId) + [r.value.1]])
  }

  ghost function Run(w: World, calls: seq<Call>): World
    decreases |calls|
  {
    if calls == [] then w else Run(Next(w, calls[0]), calls[1..])
  }

  lemma NextKeepsLineage(w: World, call: Call)
    requires Lineage(w.t, w.chains)
    ensures Lineage(Next(w, call).t, Next(w, call).chains)
    ensures forall r | r in w.t.runs ::
              && r in Next(w, call).t.runs
              && Next(w, call).t.runs[r].plan == w.t.runs[r].plan
              && IsPrefix(w.chains[r], Next(w, call).chains[r])
  {
    hide MaterializePlan, Lineage;
    KnownRunsHaveChains(w.t, w.chains);
    match call {
      case CallStart(runId, operations, id) =>
        StartKeepsLineage(w.t, w.chains, runId, operations, id);
        assert forall c: RecoveryCheckpoint :: [] + [c] == [c];
      case CallAdvance(parent, id, completed) =>
        AdvanceKeepsLineage(w.t, w.chains, parent, id, completed);
    }
  }

  lemma {:induction false} RunKeepsLineage(w: World, calls: seq<Call>)
    requires Lineage(w.t, w.chains)
    ensures Lineage(Run(w, calls).t, Run(w, calls).chains)
    ensures forall r | r in w.t.runs ::
              && r in Run(w, calls).t.runs
              && Run(w, calls).t.runs[r].plan == w.t.runs[r].plan
              && IsPrefix(w.chains[r], Run(w, calls).chains[r])
    decreases |calls|
  {
    hide Lineage;
    if calls != [] {
      NextKeepsLineage(w, calls[0]);
      RunKeepsLineage(Next(w, calls[0]), calls[1..]);
    }
  }

  /** In every reachable store each run is one linear chain ending in its head; numbering, progress
      and plan length are ordered; and no further call can hit the database's uniqueness
      constraints, miss the head row, or find the head bound to another plan. */
  lemma ChainsAreLinear(calls: seq<Call>, next: Call)
    ensures var w := Run(INITIAL, calls);
            && Lineage(w.t, w.chains)
            && (forall r | r in w.t.runs :: CurrentOutcome(w.t, r) == Ok(w.chains[r][|w.chains[r]| - 1]))
            && (forall r, i | r in w.t.runs && 0 <= i < |w.chains[r]| ::
                  w.chains[r][i].sequence <= w.chains[r][i].completed <= w.t.runs[r].operationCount)
            && (next.CallStart? ==>
                StartOutcome(w.t, next.runId, next.operations, next.checkpointId) != Err(IntegrityError))
            && (next.CallAdvance? ==>
                  var r := AdvanceOutcome(w.t, next.parent, next.checkpointId, next.completed);
                  r != Err(IntegrityError) && r != Err(ConflictPlanBinding))
  {
    hide MaterializePlan;
    RunKeepsLineage(INITIAL, calls);
    var w := Run(INITIAL, calls);
    forall r, i | r in w.t.runs && 0 <= i < |w.chains[r]|
      ensures w.chains[r][i].sequence <= w.chains[r][i].completed <= w.t.runs[r].operationCount
    {
      assert Chained(w.t, r, w.chains[r]);
      ProgressCoversSequence(r, w.t.runs[r].plan, w.chains[r], i);
    }
    forall r | r in w.t.runs ensures CurrentOutcome(w.t, r) == Ok(w.chains[r][|w.chains[r]| - 1]) {
      assert Chained(w.t, r, w.chains[r]);
    }
    match next {
      case CallStart(runId, operations, id) => StartKeepsLineage(w.t, w.chains, runId, operations, id);
      case CallAdvance(parent, id, completed) => AdvanceKeepsLineage(w.t, w.chains, parent, id, completed);
    }
  }

  /** How many of the calls committed a new checkpoint of the run by advancing it. */
  ghost function Advances(w: World, calls: seq<Call>, runId: string): nat
    decreases |calls|
  {
    if calls == [] then 0
    else (if calls[0].CallAdvance? && ChainOf(Next(w, calls[0]), runId) != ChainOf(w, runId) then 1 else 0)
         + Advances(Next(w, calls[0]), calls[1..], runId)
  }

  lemma NextGrowsChain(w: World, call: Call, runId: string)
    requires Lineage(w.t, w.chains)
    ensures var before, after := ChainOf(w, runId), ChainOf(Next(w, call), runId);
            && |after| == |before| + (if after != before then 1 else 0)
            && (before == [] && call.CallAdvance? ==> after == [])
            && (before != [] && call.CallStart? ==> after == before)
  {
    hide MaterializePlan, Lineage;
    KnownRunsHaveChains(w.t, w.chains);
    match call {
      case CallStart(r, operations, id) => StartKeepsLineage(w.t, w.chains, r, operations, id);
      case CallAdvance(parent, id, completed) => AdvanceKeepsLineage(w.t, w.chains, parent, id, completed);
    }
  }

  lemma {:induction false} ChainCountsAdvances(w: World, calls: seq<Call>, runId: string)
    requires Lineage(w.t, w.chains)
    ensures var before, after := ChainOf(w, runId), ChainOf(Run(w, calls), runId);
            |after| == |before| + Advances(w, calls, runId) + (if before == [] && after != [] then 1 else 0)
    decreases |calls|
  {
    hide Lineage, Next;
    if calls != [] {
      NextKeepsLineage(w, calls[0]);
      NextGrowsChain(w, calls[0], runId);
      ChainCountsAdvances(Next(w, calls[0]), calls[1..], runId);
    }
  }

  /** However often it is tried or replayed, a run is advanced at most once an operation of its plan. */
  lemma AdvancesAreBounded(calls: seq<Call>, runId: string)
    ensures var w := Run(INITIAL, calls);
            Advances(INITIAL, calls, runId) <= (if runId in w.t.runs then w.t.runs[runId].operationCount else 0)
  {
    hide MaterializePlan;
    RunKeepsLineage(INITIAL, calls);
    ChainCountsAdvances(INITIAL, calls, runId);
    var w := Run(INITIAL, calls);
    if runId in w.t.runs {
      assert Chained(w.t, runId, w.chains[runId]);
      ProgressCoversSequence(runId, w.t.runs[runId].plan, w.chains[runId], |w.chains[runId]| - 1);
    }
  }

  // ----- plan conservation -----

  /** The operations the chain accounts for: one slice of the plan for every advance. */
  ghost function DoneSlices(plan: Plan, chain: seq<RecoveryCheckpoint>): Plan
    decreases |chain|
  {
    if |chain| < 2 then []
    else
      var from, to := chain[|chain| - 2].completed, chain[|chain| - 1].completed;
      DoneSlices(plan, chain[..|chain| - 1]) + (if 0 <= from <= to <= |plan| then plan[from..to] else [])
  }

  lemma LinearInit(runId: string, plan: Plan, chain: seq<RecoveryCheckpoint>)
    requires Linear(runId, plan, chain) && |chain| > 1
    ensures Linear(runId, plan, chain[..|chain| - 1])
  {
    var shorter := chain[..|chain| - 1];
    forall i | 0 < i < |shorter| ensures Follows(shorter, i) {
      assert Follows(chain, i);
    }
  }

  lemma LastSlice(runId: string, plan: Plan, chain: seq<RecoveryCheckpoint>)
    requires Linear(runId, plan, chain) && |chain| > 1
    ensures chain[|chain| - 2].completed < chain[|chain| - 1].completed <= |plan|
  {
    assert Follows(chain, |chain| - 1);
  }

  lemma FirstSlice(runId: string, plan: Plan, chain: seq<RecoveryCheckpoint>)
    requires Linear(runId, plan, chain)
    ensures chain != [] && chain[0].completed == 0
  {
  }

  lemma PrefixGrows(plan: Plan, from: nat, to: nat)
    requires from <= to <= |plan|
    ensures plan[..from] + plan[from..to] == plan[..to]
  {
  }

  lemma {:induction false} SlicesAreThePrefix(runId: string, plan: Plan, chain: seq<RecoveryCheckpoint>)
    requires Linear(runId, plan, chain)
    ensures chain != [] && 0 <= chain[|chain| - 1].completed <= |plan|
    ensures DoneSlices(plan, chain) == plan[..chain[|chain| - 1].completed]
    decreases |chain|
  {
    hide Linear, Follows;
    FirstSlice(runId, plan, chain);
    if |chain| > 1 {
      LinearInit(runId, plan, chain);
      LastSlice(runId, plan, chain);
      SlicesAreThePrefix(runId, plan, chain[..|chain| - 1]);
      PrefixGrows(plan, chain[|chain| - 2].completed, chain[|chain| - 1].completed);
    } else {
      assert DoneSlices(plan, chain) == [];
    }
  }

  lemma EmptyIsLineage()
    ensures Lineage(INITIAL.t, INITIAL.chains)
  {
  }

  /** Only the last checkpoint of the chain resumes, and only with the bound plan. */
  lemma ResumedHead(w: World, checkpoint: RecoveryCheckpoint, operations: Plan)
    requires Lineage(w.t, w.chains)
    ensures var r := ResumeOutcome(w.t, checkpoint, operations);
            && (r.Ok? <==>
                  && checkpoint.runId in w.t.runs
                  && operations == w.t.runs[checkpoint.runId].plan
                  && CurrentOutcome(w.t, checkpoint.runId) == Ok(checkpoint))
            && (r.Ok? ==>
                  && checkpoint.runId in w.chains
                  && Linear(checkpoint.runId, operations, w.chains[checkpoint.runId])
                  && checkpoint == w.chains[checkpoint.runId][|w.chains[checkpoint.runId]| - 1]
                  && r.value == SliceFrom(operations, checkpoint.completed))
  {
    hide MaterializePlan, Follows, Lineage, IsRowOf;
    MaterializedIsThePlan(operations);
    KnownRunsHaveChains(w.t, w.chains);
    if checkpoint.runId in w.t.runs {
      RunIsChained(w.t, w.chains, checkpoint.runId);
      if Load(w.t, checkpoint.runId, checkpoint.checkpointId) == Some(checkpoint) {
        var i := LoadedIsOnChain(w.t, w.chains, checkpoint);
      }
    }
  }

  /** The last checkpoint of the chain is the current one, and the slices up to it are completed by what it resumes. */
  lemma ResumedRest(w: World, checkpoint: RecoveryCheckpoint, operations: Plan)
    requires Lineage(w.t, w.chains)
    ensures w.chains.Keys == w.t.runs.Keys && forall r | r in w.chains :: w.chains[r] != []
    ensures var r := ResumeOutcome(w.t, checkpoint, operations);
            && (r.Ok? <==>
                  && checkpoint.runId in w.t.runs
                  && operations == w.t.runs[checkpoint.runId].plan
                  && checkpoint == w.chains[checkpoint.runId][|w.chains[checkpoint.runId]| - 1])
            && (r.Ok? ==> DoneSlices(operations, ChainOf(w, checkpoint.runId)) + r.value == operations)
  {
    hide Lineage, ResumeOutcome, CurrentOutcome, Linear, DoneSlices;
    KnownRunsHaveChains(w.t, w.chains);
    ResumedHead(w, checkpoint, operations);
    if checkpoint.runId in w.t.runs {
      LastIsCurrent(w.t, w.chains, checkpoint.runId);
    }
    if ResumeOutcome(w.t, checkpoint, operations).Ok? {
      SlicesAreThePrefix(checkpoint.runId, operations, w.chains[checkpoint.runId]);
    }
  }

  lemma LastIsCurrent(t: Tables, chains: Chains, runId: string)
    requires Lineage(t, chains) && runId in t.runs
    ensures runId in chains && chains[runId] != []
    ensures CurrentOutcome(t, runId) == Ok(chains[runId][|chains[runId]| - 1])
  {
    hide Lineage, MaterializePlan, Follows, IsRowOf;
    RunIsChained(t, chains, runId);
  }

  /** `resume` answers exactly the current head of the run together with its exact plan, and what
      it hands back completes the slices of the chain to the plan: nothing is skipped, nothing done twice. */
  lemma ResumeConservesThePlan(calls: seq<Call>, checkpoint: RecoveryCheckpoint, operations: Plan)
    ensures var w := Run(INITIAL, calls);
            var r := ResumeOutcome(w.t, checkpoint, operations);
            && (r.Ok? <==>
                  && checkpoint.runId in w.t.runs
                  && operations == w.t.runs[checkpoint.runId].plan
                  && CurrentOutcome(w.t, checkpoint.runId) == Ok(checkpoint))
            && (r.Ok? ==> DoneSlices(operations, ChainOf(w, checkpoint.runId)) + r.value == operations)
  {
    hide Lineage, ResumeOutcome, CurrentOutcome, DoneSlices;
    EmptyIsLineage();
    RunKeepsLineage(INITIAL, calls);
    var w := Run(INITIAL, calls);
    ResumedRest(w, checkpoint, operations);
    ResumedHead(w, checkpoint, operations);
  }

  ghost predicate IsSuffix<T>(a: seq<T>, b: seq<T>) {
    |a| <= |b| && b[|b| - |a|..] == a
  }

  lemma {:induction false} ProgressGrows(runId: string, plan: Plan, chain: seq<RecoveryCheckpoint>, i: nat, j: nat)
    requires Linear(runId, plan, chain) && i <= j < |chain|
    ensures chain[i].completed <= chain[j].completed
  {
    if i < j {
      assert Follows(chain, j);
      ProgressGrows(runId, plan, chain, i, j - 1);
    }
  }

  lemma LaterRestIsSuffix(runId: string, plan: Plan, chain: seq<RecoveryCheckpoint>, i: nat, j: nat)
    requires Linear(runId, plan, chain) && i <= j < |chain|
    ensures IsSuffix(SliceFrom(plan, chain[j].completed), SliceFrom(plan, chain[i].completed))
  {
    ProgressGrows(runId, plan, chain, i, j);
    ProgressCoversSequence(runId, plan, chain, i);
    ProgressCoversSequence(runId, plan, chain, j);
    assert 0 <= chain[i].sequence;
    hide Linear;
  }

  /** Work only shrinks: a later successful resume of a run returns a suffix of an earlier one. */
  lemma ResumesShrink(calls: seq<Call>, more: seq<Call>, first: RecoveryCheckpoint, second: RecoveryCheckpoint,
                      plan1: Plan, plan2: Plan)
    requires first.runId == second.runId
    requires ResumeOutcome(Run(INITIAL, calls).t, first, plan1).Ok?
    requires ResumeOutcome(Run(Run(INITIAL, calls), more).t, second, plan2).Ok?
    ensures plan1 == plan2
    ensures IsSuffix(ResumeOutcome(Run(Run(INITIAL, calls), more).t, second, plan2).value,
                     ResumeOutcome(Run(INITIAL, calls).t, first, plan1).value)
  {
    hide Lineage, ResumeOutcome, CurrentOutcome, Linear, SliceFrom, IsSuffix, Run;
    EmptyIsLineage();
    RunKeepsLineage(INITIAL, calls);
    var w := Run(INITIAL, calls);
    RunKeepsLineage(w, more);
    var w' := Run(w, more);
    KnownRunsHaveChains(w.t, w.chains);
    KnownRunsHaveChains(w'.t, w'.chains);
    ResumedHead(w, first, plan1);
    ResumedHead(w', second, plan2);
    var id, i := first.runId, |w.chains[first.runId]| - 1;
    assert IsPrefix(w.chains[id], w'.chains[id]) && w'.chains[id][i] == first;
    LaterRestIsSuffix(id, plan1, w'.chains[id], i, |w'.chains[id]| - 1);
  }

  /** Persists a linear checkpoint head; each method is one transaction. */
  class CheckpointStore {
    var runs: map<string, RunRow>
    var checkpoints: map<(string, string), RecoveryCheckpoint>
    ghost var chains: Chains

    function Rows(): Tables
      reads this
    {
      Tables(runs, checkpoints)
    }

    ghost predicate Valid()
      reads this
    {
      Lineage(Rows(), chains)
    }

    constructor ()
      ensures Valid() && Rows() == EMPTY
    {
      runs, checkpoints, chains := map[], map[], map[];
    }

    method Start(runId: string, operations: Plan, checkpointId: string)
        returns (r: Result<RecoveryCheckpoint, RecoveryError>)
      requires Valid()
      modifies this
      ensures Valid()
      ensures var spec := StartOutcome(old(Rows()), runId, operations, checkpointId);
              if spec.Ok? then r == Ok(spec.value.1) && Rows() == spec.value.0
              else r == Err(spec.error) && Rows() == old(Rows())
    {
      hide Lineage, MaterializePlan;
      StartKeepsLineage(Rows(), chains, runId, operations, checkpointId);
      if IsBlank(runId) {
        return Err(BlankRunId);
      }
      if IsBlank(checkpointId) {
        return Err(BlankCheckpointId);
      }
      var plan := MaterializePlan(operations);
      if plan.Err? {
        return Err(plan.error);
      }
      var initial := RecoveryCheckpoint(runId, checkpointId, 0, None, DigestOf(plan.value), 0);
      if runId !in runs {
        runs := runs[runId := RunRow(plan.value, DigestOf(plan.value), |plan.value|, checkpointId)];
        checkpoints := checkpoints[(runId, checkpointId) := initial];
        chains := chains[runId := [initial]];
        return Ok(initial);
      }
      if !Bound(runs[runId], plan.value) {
        return Err(ConflictOtherPlan);
      }
      var existing := Load(Rows(), runId, checkpointId);
      if existing != Some(initial) {
        return Err(ConflictInitial);
      }
      r := Ok(existing.value);
    }

    method Current(runId: string) returns (r: Result<RecoveryCheckpoint, RecoveryError>)
      requires Valid()
      ensures r == CurrentOutcome(Rows(), runId)
      ensures r == if runId in runs then Ok(chains[runId][|chains[runId]| - 1]) else Err(ConflictUnknownRun)
    {
      if runId !in runs {
        return Err(ConflictUnknownRun);
      }
      assert Chained(Rows(), runId, chains[runId]);
      var checkpoint := Load(Rows(), runId, runs[runId].head);
      r := if checkpoint.None? then Err(ConflictHeadMissing) else Ok(checkpoint.value);
    }

    method Advance(parent: RecoveryCheckpoint, checkpointId: string, completed: int)
      returns (r: Result<RecoveryCheckpoint, RecoveryError>)
      requires Valid()
      modifies this
      ensures Valid()
      ensures var spec := AdvanceOutcome(old(Rows()), parent, checkpointId, completed);
              if spec.Ok? then r == Ok(spec.value.1) && Rows() == spec.value.0
              else r == Err(spec.error) && Rows() == old(Rows())
      ensures r.Ok? <==> MayAdvance(old(Rows()), old(chains), parent, checkpointId, completed)
      ensures r.Ok? ==> IsAdvance(r.value, parent, checkpointId, completed) && IsHead(chains, r.value)
    {
      hide Lineage, MaterializePlan, MayAdvance, IsAdvance, IsHead;
      AdvanceAnswers(Rows(), chains, parent, checkpointId, completed);
      AdvanceKeepsLineage(Rows(), chains, parent, checkpointId, completed);
      if IsBlank(checkpointId) {
        return Err(BlankCheckpointId);
      }
      if parent.runId !in runs {
        return Err(ConflictUnknownRun);
      }
      var run := runs[parent.runId];
      var persisted := Load(Rows(), parent.runId, parent.checkpointId);
      if persisted != Some(parent) {
        return Err(ConflictCheckpoint);
      }
      var candidate := RecoveryCheckpoint(parent.runId, checkpointId, parent.sequence + 1,
                                          Some(parent.checkpointId), run.planHash, completed);
      var existing := Load(Rows(), parent.runId, checkpointId);
      if existing.Some? {
        if existing.value == candidate && run.head == checkpointId {
          return Ok(existing.value);
        }
        return Err(ConflictReusedId);
      }
      if run.head != parent.checkpointId {
        return Err(StaleCheckpoint);
      }
      if parent.plan != run.planHash {
        return Err(ConflictPlanBinding);
      }
      if completed <= parent.completed {
        return Err(ConflictNoProgress);
      }
      if completed > run.operationCount {
        return Err(ConflictBeyondPlan);
      }
      checkpoints := checkpoints[(parent.runId, checkpointId) := candidate];
      runs := runs[parent.runId := run.(head := checkpointId)];
      assert (parent.runId, checkpointId) in checkpoints && Rows() != old(Rows());
      assert parent.runId in chains by { KnownRunsHaveChains(old(Rows()), chains); }
      AppendedIsHead(chains, candidate);
      chains := chains[parent.runId := chains[parent.runId] + [candidate]];
      r := Ok(candidate);
    }

    method Resume(checkpoint: RecoveryCheckpoint, operations: Plan) returns (r: Result<Plan, RecoveryError>)
      requires Valid()
      ensures r == ResumeOutcome(Rows(), checkpoint, operations)
      ensures r.Ok? <==>
                && checkpoint.runId in runs
                && operations == runs[checkpoint.runId].plan
                && checkpoint == chains[checkpoint.runId][|chains[checkpoint.runId]| - 1]
      ensures r.Ok? ==> DoneSlices(operations, chains[checkpoint.runId]) + r.value == operations
    {
      hide Lineage, DoneSlices;
      ResumedRest(World(Rows(), chains), checkpoint, operations);
      var plan := MaterializePlan(operations);
      if plan.Err? {
        return Err(plan.error);
      }
      if checkpoint.runId !in runs {
        return Err(ConflictUnknownRun);
      }
      var run := runs[checkpoint.runId];
      if !Bound(run, plan.value) {
        return Err(ConflictOtherPlan);
      }
      var persisted := Load(Rows(), checkpoint.runId, checkpoint.checkpointId);
      if persisted != Some(checkpoint) {
        return Err(ConflictCheckpoint);
      }
      if run.head != checkpoint.checkpointId {
        return Err(StaleCheckpoint);
      }
      r := Ok(SliceFrom(plan.value, checkpoint.completed));
    }
  }
}
