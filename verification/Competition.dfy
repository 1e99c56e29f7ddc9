/** Competing reconcilers: any number of workers load the same retry head, then race. Each applies
    the retry once, whatever comes of it reads the provider again, records the reading and
    completes. Their steps interleave in any order, also with work on other operations. */
module Competition {
  import opened Common
  import opened Reconciliation
  import opened EvidenceLineage
  import ClosedSystem

  /** How far a worker is. `committed` tells whether its own write went through; if not, it was
      refused with StaleProviderReadback. Any other raise of any call makes the worker `Failed`. */
  datatype Worker =
    | Loaded
    | Applied(committed: bool)
    | HasRead(committed: bool, evidence: ProviderEvidence)
    | HasRecorded(committed: bool, record: EvidenceRecord)
    | Finished(committed: bool, completion: CompletionRecord)
    | Failed

  datatype Race = Race(provider: ProviderTables, lineage: EvidenceTables, workers: seq<Worker>)

  /** The operation being retried and the head that every worker loaded. */
  datatype Contest = Contest(operation: ExternalOperation, head: EvidenceRecord)

  function Turn(s: Race, c: Contest, i: nat, evidenceId: string): Race
    requires i < |s.workers|
  {
    var o := c.operation;
    match s.workers[i]
    case Loaded =>
      (match ApplyOutcome(s.provider, o, c.head.decision)
       case Ok(t) => Race(t, s.lineage, s.workers[i := Applied(true)])
       case Err(StaleProviderReadback) => s.(workers := s.workers[i := Applied(false)])
       case Err(_) => s.(workers := s.workers[i := Failed]))
    case Applied(committed) =>
      (match ReadOutcome(s.provider, o)
       case Ok(e) => Race(Touched(s.provider, o.provider), s.lineage, s.workers[i := HasRead(committed, e)])
       case Err(_) => Race(Touched(s.provider, o.provider), s.lineage, s.workers[i := Failed]))
    case HasRead(committed, e) =>
      (match RecordOutcome(s.lineage, o, evidenceId, e)
       case Ok(r) => Race(s.provider, Recorded(s.lineage, o, evidenceId, e), s.workers[i := HasRecorded(committed, r)])
       case Err(_) => s.(workers := s.workers[i := Failed]))
    case HasRecorded(committed, r) =>
      (match MarkOutcome(s.lineage, o, r.evidenceId, r.decision)
       case Ok(k) => Race(s.provider, Marked(s.lineage, o, r.evidenceId, r.decision),
           s.workers[i := Finished(committed, k)])
       case Err(_) => s.(workers := s.workers[i := Failed]))
    case Finished(_, _) => s
    case Failed => s
  }

  ghost predicate SameEntry<K, V>(a: map<K, V>, b: map<K, V>, k: K) {
    (k in a <==> k in b) && (k in a ==> a[k] == b[k])
  }

  /** Work on other operations: this provider's revision and this identity's rows stay as they are. */
  ghost predicate Elsewhere(s: Race, s': Race, c: Contest) {
    && s'.workers == s.workers
    && RevisionOf(s'.provider, c.operation.provider) == RevisionOf(s.provider, c.operation.provider)
    && SameEntry(s.provider.effects, s'.provider.effects, c.operation.Key())
    && SameEntry(s.lineage.heads, s'.lineage.heads, c.operation.Key())
    && SameEntry(s.lineage.completions, s'.lineage.completions, c.operation.Key())
  }

  ghost predicate WorkerMoves(s: Race, s': Race, c: Contest, i: nat, evidenceId: string) {
    i < |s.workers| && !IsBlank(evidenceId) && s' == Turn(s, c, i, evidenceId)
  }

  ghost predicate Transition(s: Race, s': Race, c: Contest) {
    (exists i, evidenceId :: WorkerMoves(s, s', c, i, evidenceId)) || Elsewhere(s, s', c)
  }

  ghost predicate Start(s: Race, c: Contest) {
    var o, r0 := c.operation, c.head.revision;
    && c.head.decision == RetryDecision(o, r0)
    && c.head.effect == o.EffectSha256()
    && RevisionOf(s.provider, o.provider) == r0
    && o.Key() !in s.provider.effects
    && o.Key() in s.lineage.heads && s.lineage.heads[o.Key()] == c.head
    && o.Key() !in s.lineage.completions
    && forall i | 0 <= i < |s.workers| :: s.workers[i] == Loaded
  }

  /** Such a race starts in every reachable state whose current head is retry authority at the
      provider's own revision: that the identity is free and not completed is no extra condition. */
  lemma RaceStartsFromAnyReachableRetry(steps: seq<ClosedSystem.Step>, o: ExternalOperation, n: nat)
    requires ClosedSystem.Legal(ClosedSystem.INITIAL, steps)
    requires var w := ClosedSystem.Run(ClosedSystem.INITIAL, steps);
             && CurrentOutcome(w.lineage, o).Ok?
             && CurrentOutcome(w.lineage, o).value.decision.shouldRetry
             && CurrentOutcome(w.lineage, o).value.revision == RevisionOf(w.provider, o.provider)
    ensures var w := ClosedSystem.Run(ClosedSystem.INITIAL, steps);
            Start(Race(w.provider, w.lineage, seq(n, _ => Loaded)), Contest(o, CurrentOutcome(w.lineage, o).value))
  {
    ClosedSystem.MultiVersionTruth(steps);
    var w := ClosedSystem.Run(ClosedSystem.INITIAL, steps);
    var entries := LogOf(w.log, o.provider);
    assert ClosedSystem.TrueHead(w.log, o.Key(), w.lineage.heads[o.Key()]);
    assert RevisionOf(w.provider, o.provider) == |entries| && entries[..|entries|] == entries;
    KeyTakenIffLogged(w.provider, w.log, o);
  }

  ghost predicate IsRun(run: seq<Race>, c: Contest) {
    && run != []
    && Start(run[0], c)
    && forall k | 0 <= k < |run| - 1 :: Transition(run[k], run[k + 1], c)
  }

  predicate Won(w: Worker) {
    !w.Loaded? && !w.Failed? && w.committed
  }

  ghost predicate ConfirmedHead(h: EvidenceRecord, c: Contest) {
    && h.effect == c.operation.EffectSha256()
    && h.revision == c.head.revision + 1
    && h.decision == AcceptDecision()
  }

  ghost predicate OneWinner(workers: seq<Worker>) {
    exists i :: 0 <= i < |workers| && Won(workers[i]) && forall j | 0 <= j < |workers| && Won(workers[j]) :: j == i
  }

  /** What a worker that is past the race holds, while the one commit stands at r0 + 1. */
  ghost predicate Agrees(w: Worker, s: Race, c: Contest) {
    var key := c.operation.Key();
    match w
    case Loaded => true
    case Applied(_) => true
    case HasRead(_, e) => e == PresentEvidence(c.operation, c.head.revision + 1)
    case HasRecorded(_, r) => key in s.lineage.heads && s.lineage.heads[key] == r && ConfirmedHead(r, c)
    case Finished(_, k) => key in s.lineage.completions && s.lineage.completions[key] == k
    case Failed => false
  }

  ghost predicate Decided(s: Race, c: Contest) {
    var key := c.operation.Key();
    && c.head.decision == RetryDecision(c.operation, c.head.revision)
    && c.head.effect == c.operation.EffectSha256()
    && RevisionOf(s.provider, c.operation.provider) == c.head.revision + 1
    && Stores(s.provider, c.operation)
    && key in s.lineage.heads
    && (s.lineage.heads[key] == c.head || ConfirmedHead(s.lineage.heads[key], c))
    && (key in s.lineage.completions ==>
          && ConfirmedHead(s.lineage.heads[key], c)
          && s.lineage.completions[key].effect == c.operation.EffectSha256()
          && s.lineage.completions[key].revision == c.head.revision + 1)
    && OneWinner(s.workers)
    && forall i | 0 <= i < |s.workers| :: Agrees(s.workers[i], s, c)
  }

  lemma FirstTurnDecides(s: Race, c: Contest, i: nat, evidenceId: string)
    requires Start(s, c) && i < |s.workers|
    ensures Decided(Turn(s, c, i, evidenceId), c)
  {
    var s' := Turn(s, c, i, evidenceId);
    assert s'.workers == s.workers[i := Applied(true)];
    assert Won(s'.workers[i]);
    assert forall j | 0 <= j < |s'.workers| && Won(s'.workers[j]) :: j == i;
  }

  lemma SameWinner(a: seq<Worker>, b: seq<Worker>, i: nat)
    requires OneWinner(a) && |a| == |b| && i < |a| && b == a[i := b[i]] && Won(b[i]) == Won(a[i])
    ensures OneWinner(b)
  {
    var w :| 0 <= w < |a| && Won(a[w]) && forall j | 0 <= j < |a| && Won(a[j]) :: j == w;
    assert Won(b[w]) && forall j | 0 <= j < |b| && Won(b[j]) :: j == w;
  }

  /** After the commit a turn of any worker succeeds and brings it one stage further. */
  lemma TurnKeepsDecided(s: Race, c: Contest, i: nat, evidenceId: string)
    requires Decided(s, c) && i < |s.workers| && !IsBlank(evidenceId)
    ensures Decided(Turn(s, c, i, evidenceId), c)
    ensures Turn(s, c, i, evidenceId).workers == s.workers[i := Turn(s, c, i, evidenceId).workers[i]]
    ensures Stage(Turn(s, c, i, evidenceId).workers[i])
        == if Stage(s.workers[i]) == 4 then 4 else Stage(s.workers[i]) + 1
  {
    var s' := Turn(s, c, i, evidenceId);
    assert Agrees(s.workers[i], s, c);
    TurnAdvances(s, c, i, evidenceId);
    SameWinner(s.workers, s'.workers, i);
    forall j | 0 <= j < |s'.workers| ensures Agrees(s'.workers[j], s', c) {
      assert Agrees(s.workers[j], s, c);
    }
  }

  lemma TurnAdvances(s: Race, c: Contest, i: nat, evidenceId: string)
    requires Decided(s, c) && i < |s.workers| && !IsBlank(evidenceId)
    ensures var s' := Turn(s, c, i, evidenceId);
            var key := c.operation.Key();
            && s'.workers == s.workers[i := s'.workers[i]]
            && Won(s'.workers[i]) == Won(s.workers[i])
            && Stage(s'.workers[i]) == (if Stage(s.workers[i]) == 4 then 4 else Stage(s.workers[i]) + 1)
            && Agrees(s'.workers[i], s', c)
            && RevisionOf(s'.provider, c.operation.provider) == c.head.revision + 1
            && Stores(s'.provider, c.operation)
            && key in s'.lineage.heads
            && (s'.lineage.heads[key] == s.lineage.heads[key]
                || (s.lineage.heads[key] == c.head && ConfirmedHead(s'.lineage.heads[key], c)))
            && (key in s.lineage.completions ==>
                key in s'.lineage.completions && s'.lineage.completions[key] == s.lineage.completions[key])
            && (key in s'.lineage.completions ==>
                  && ConfirmedHead(s'.lineage.heads[key], c)
                  && s'.lineage.completions[key].effect == c.operation.EffectSha256()
                  && s'.lineage.completions[key].revision == c.head.revision + 1)
  {
    hide OneWinner;
    assert Agrees(s.workers[i], s, c);
  }

  lemma ElsewhereKeepsDecided(s: Race, s': Race, c: Contest)
    requires Elsewhere(s, s', c) && Decided(s, c)
    ensures Decided(s', c)
  {
    hide OneWinner;
    forall i | 0 <= i < |s'.workers| ensures Agrees(s'.workers[i], s', c) {
      assert Agrees(s.workers[i], s, c);
    }
  }

  lemma ElsewhereKeepsStart(s: Race, s': Race, c: Contest)
    requires Elsewhere(s, s', c) && Start(s, c)
    ensures Start(s', c)
  {
  }

  // ----- whole runs -----

  function Stage(w: Worker): nat {
    match w
    case Loaded => 0
    case Applied(_) => 1
    case HasRead(_, _) => 2
    case HasRecorded(_, _) => 3
    case Finished(_, _) => 4
    case Failed => 5
  }

  function Progress(workers: seq<Worker>): nat {
    if workers == [] then 0 else Stage(workers[0]) + Progress(workers[1..])
  }

  /** How many turns of a run moved a worker. */
  ghost function Turns(run: seq<Race>): nat
    decreases |run|
  {
    if |run| < 2 then 0
    else Turns(run[..|run| - 1]) + (if run[|run| - 1].workers != run[|run| - 2].workers then 1 else 0)
  }

  lemma {:induction false} ProgressAt(workers: seq<Worker>, i: nat, w: Worker)
    requires i < |workers|
    ensures Progress(workers[i := w]) == Progress(workers) - Stage(workers[i]) + Stage(w)
  {
    if i > 0 {
      assert workers[i := w][1..] == workers[1..][i - 1 := w];
      ProgressAt(workers[1..], i - 1, w);
    }
  }

  lemma {:induction false} ProgressBounds(workers: seq<Worker>)
    requires forall i | 0 <= i < |workers| :: Stage(workers[i]) <= 4
    ensures Progress(workers) <= 4 * |workers|
    ensures Progress(workers) == 4 * |workers| <==> forall i | 0 <= i < |workers| :: workers[i].Finished?
    ensures (forall i | 0 <= i < |workers| :: workers[i] == Loaded) ==> Progress(workers) == 0
  {
    if workers != [] {
      ProgressBounds(workers[1..]);
      if forall i | 0 <= i < |workers[1..]| :: workers[1..][i].Finished? {
        assert forall i | 1 <= i < |workers| :: workers[i] == workers[1..][i - 1];
      }
    }
  }

  lemma NoProgressYet(s: Race, c: Contest)
    requires Start(s, c)
    ensures Progress(s.workers) == 0
  {
    ProgressBounds(s.workers);
  }

  lemma {:induction false} RunIsDecided(run: seq<Race>, c: Contest)
    requires IsRun(run, c)
    ensures var s := run[|run| - 1];
            && |s.workers| == |run[0].workers|
            && (if Turns(run) == 0 then Start(s, c) else Decided(s, c))
            && Progress(s.workers) == Turns(run)
    decreases |run|
  {
    hide Start, Decided, Turn, Progress, Elsewhere;
    if |run| == 1 {
      NoProgressYet(run[0], c);
    } else {
      var prefix := run[..|run| - 1];
      assert forall k | 0 <= k < |prefix| - 1 :: Transition(prefix[k], prefix[k + 1], c);
      RunIsDecided(prefix, c);
      var s, s' := run[|run| - 2], run[|run| - 1];
      assert prefix[|prefix| - 1] == s && Transition(s, s', c);
      if Elsewhere(s, s', c) {
        WorkersElsewhere(s, s', c);
        if Turns(prefix) == 0 { ElsewhereKeepsStart(s, s', c); } else { ElsewhereKeepsDecided(s, s', c); }
      } else {
        var i, id :| WorkerMoves(s, s', c, i, id);
        LastTurn(s, s', c, i, id, Turns(prefix));
      }
    }
  }

  lemma WorkersElsewhere(s: Race, s': Race, c: Contest)
    requires Elsewhere(s, s', c)
    ensures s'.workers == s.workers
  {
  }

  lemma LastTurn(s: Race, s': Race, c: Contest, i: nat, id: string, turns: nat)
    requires WorkerMoves(s, s', c, i, id)
    requires if turns == 0 then Start(s, c) else Decided(s, c)
    requires Progress(s.workers) == turns
    ensures |s'.workers| == |s.workers|
    ensures if turns == 0 && s'.workers == s.workers then Start(s', c) else Decided(s', c)
    ensures Progress(s'.workers) == turns + (if s'.workers != s.workers then 1 else 0)
  {
    ProgressAt(s.workers, i, s'.workers[i]);
    if turns == 0 {
      FirstTurnDecides(s, c, i, id);
      assert s'.workers == s.workers[i := Applied(true)];
    } else {
      TurnKeepsDecided(s, c, i, id);
      if s.workers[i].Finished? {
        assert s' == s;
      } else {
        assert s'.workers[i] != s.workers[i];
      }
    }
  }

  /** In every interleaving, at every moment: no worker has failed; as soon as one has moved,
      exactly one write committed, the revision is r0 + 1 and the effect is stored; workers that
      finished hold the one stored completion, at revision r0 + 1. And every effective turn
      brings some worker one of its four stages further, so after exactly 4 N effective turns,
      and not before, all N workers have finished. */
  lemma RaceConverges(run: seq<Race>, c: Contest)
    requires IsRun(run, c)
    ensures var s := run[|run| - 1];
            var n := |run[0].workers|;
            && |s.workers| == n
            && (forall i | 0 <= i < n :: !s.workers[i].Failed?)
            && ((exists i | 0 <= i < n :: s.workers[i] != Loaded) ==>
                  && OneWinner(s.workers)
                  && RevisionOf(s.provider, c.operation.provider) == c.head.revision + 1
                  && Stores(s.provider, c.operation))
            && (forall i | 0 <= i < n && s.workers[i].Finished? ::
                  && CompletionOutcome(s.lineage, c.operation) == Ok(Some(s.workers[i].completion))
                  && s.workers[i].completion.revision == c.head.revision + 1)
            && Turns(run) <= 4 * n
            && (Turns(run) == 4 * n <==> forall i | 0 <= i < n :: s.workers[i].Finished?)
  {
    hide Turn, Elsewhere, Transition, Progress;
    RunIsDecided(run, c);
    var s := run[|run| - 1];
    if Turns(run) != 0 {
      assert forall i | 0 <= i < |s.workers| :: Agrees(s.workers[i], s, c);
    }
    ProgressBounds(s.workers);
  }
}
