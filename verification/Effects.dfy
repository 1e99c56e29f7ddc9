/** Replay of tool side effects with an idempotency ledger. */
module Effects {
  import opened Common

  datatype EffectRequest = EffectRequest(sequence: int, operationId: string, tool: string, payload: string)
  {
    function Identity(): (string, string) { (tool, payload) }
  }

  datatype ReplayMode = Naive | Idempotent

  datatype EffectReplayResult = EffectReplayResult(applied: seq<EffectRequest>, duplicates: seq<EffectRequest>)

  datatype EffectError = OrderInvalid | IdempotencyConflict

  function SequencesOf(requests: seq<EffectRequest>): seq<int> {
    seq(|requests|, i requires 0 <= i < |requests| => requests[i].sequence)
  }

  predicate Seen(requests: seq<EffectRequest>, operationId: string) {
    exists r | r in requests :: r.operationId == operationId
  }

  /** The requests that are (`first`), or are not, the first of their operation. */
  function Occurrences(requests: seq<EffectRequest>, first: bool): seq<EffectRequest> {
    if requests == [] then []
    else
      var before, last := requests[..|requests| - 1], requests[|requests| - 1];
      Occurrences(before, first) + (if Seen(before, last.operationId) != first then [last] else [])
  }

  /** Equal operation ids always carry the same effect. */
  ghost predicate Consistent(requests: seq<EffectRequest>) {
    forall i, j | 0 <= i < j < |requests| && requests[i].operationId == requests[j].operationId ::
      requests[i].Identity() == requests[j].Identity()
  }

  /** On ordered input the ledger replay succeeds exactly if no operation id is reused for another
      effect; it applies the first request of each operation, in order, and suppresses the others. */
  method ReplayEffects(requests: seq<EffectRequest>, mode: ReplayMode)
      returns (r: Result<EffectReplayResult, EffectError>)
    ensures !InOrder(SequencesOf(requests)) ==> r == Err(OrderInvalid)
    ensures InOrder(SequencesOf(requests)) && mode == Naive ==> r == Ok(EffectReplayResult(requests, []))
    ensures InOrder(SequencesOf(requests)) && mode == Idempotent ==>
              r == if Consistent(requests)
                   then Ok(EffectReplayResult(Occurrences(requests, true), Occurrences(requests, false)))
                   else Err(IdempotencyConflict)
  {
    if !InOrder(SequencesOf(requests)) {
      return Err(OrderInvalid);
    }
    hide InOrder, Filed, Consistent, Occurrences;
    NothingReplayed();
    var applied: seq<EffectRequest> := [];
    var duplicates: seq<EffectRequest> := [];
    var ledger: map<string, (string, string)> := map[];
    for i := 0 to |requests|
      invariant if mode == Naive then applied == requests[..i] && duplicates == []
                else Filed(applied, duplicates, ledger, requests[..i])
    {
      var request := requests[i];
      assert requests[..i + 1] == requests[..i] + [request];
      if mode == Naive {
        applied := applied + [request];
        continue;
      }
      FileRequest(applied, duplicates, ledger, requests[..i], request);
      if request.operationId !in ledger {
        ledger := ledger[request.operationId := request.Identity()];
        applied := applied + [request];
        continue;
      }
      if ledger[request.operationId] != request.Identity() {
        InconsistentPrefix(requests, i + 1);
        return Err(IdempotencyConflict);
      }
      duplicates := duplicates + [request];
    }
    assert requests[..|requests|] == requests;
    if mode == Idempotent { FiledAll(applied, duplicates, ledger, requests); }
    r := Ok(EffectReplayResult(applied, duplicates));
  }

  /** What the three variables of the replay hold after a prefix of the requests. */
  ghost predicate Filed(applied: seq<EffectRequest>, duplicates: seq<EffectRequest>,
                        ledger: map<string, (string, string)>, done: seq<EffectRequest>)
  {
    && applied == Occurrences(done, true)
    && duplicates == Occurrences(done, false)
    && LedgerOf(ledger, done)
  }

  lemma FileRequest(applied: seq<EffectRequest>, duplicates: seq<EffectRequest>,
                    ledger: map<string, (string, string)>, done: seq<EffectRequest>, request: EffectRequest)
    requires Filed(applied, duplicates, ledger, done)
    ensures if request.operationId !in ledger then
              Filed(applied + [request], duplicates, ledger[request.operationId := request.Identity()],
                  done + [request])
            else if ledger[request.operationId] == request.Identity() then
              Filed(applied, duplicates + [request], ledger, done + [request])
            else
              !Consistent(done + [request])
  {
    LedgerLookup(ledger, done, request);
    OccurrencesLast(done, request);
    hide LedgerOf, Consistent, Occurrences, Seen;
  }

  lemma FiledAll(applied: seq<EffectRequest>, duplicates: seq<EffectRequest>,
                 ledger: map<string, (string, string)>, requests: seq<EffectRequest>)
    requires Filed(applied, duplicates, ledger, requests)
    ensures Consistent(requests) && applied == Occurrences(requests, true) && duplicates == Occurrences(requests, false)
  {
  }

  lemma NothingReplayed()
    ensures Filed([], [], map[], [])
  {
  }

  lemma OccurrencesLast(before: seq<EffectRequest>, last: EffectRequest)
    ensures Occurrences(before + [last], true)
        == Occurrences(before, true) + (if Seen(before, last.operationId) then [] else [last])
    ensures Occurrences(before + [last], false)
        == Occurrences(before, false) + (if Seen(before, last.operationId) then [last] else [])
  {
    assert (before + [last])[..|before|] == before;
  }

  /** The ledger holds exactly the operations seen, each with the effect of every request for it. */
  ghost predicate LedgerOf(ledger: map<string, (string, string)>, requests: seq<EffectRequest>) {
    && (forall id :: id in ledger <==> Seen(requests, id))
    && (forall r | r in requests :: r.operationId in ledger && ledger[r.operationId] == r.Identity())
    && Consistent(requests)
  }

  lemma LedgerLookup(ledger: map<string, (string, string)>, before: seq<EffectRequest>, request: EffectRequest)
    requires LedgerOf(ledger, before)
    ensures request.operationId in ledger <==> Seen(before, request.operationId)
    ensures request.operationId !in ledger ==>
              LedgerOf(ledger[request.operationId := request.Identity()], before + [request])
    ensures request.operationId in ledger ==>
              (Consistent(before + [request]) <==> ledger[request.operationId] == request.Identity())
              && (ledger[request.operationId] == request.Identity() ==> LedgerOf(ledger, before + [request]))
  {
    var longer := before + [request];
    forall id ensures Seen(longer, id) <==> Seen(before, id) || id == request.operationId {
      SeenLast(before, request, id);
    }
    assert forall r | r in longer :: r in before || r == request;
    if request.operationId in ledger && ledger[request.operationId] != request.Identity() {
      var earlier :| earlier in before && earlier.operationId == request.operationId;
      var j :| 0 <= j < |before| && before[j] == earlier;
      assert longer[j].Identity() != longer[|before|].Identity();
    } else {
      forall i, j | 0 <= i < j < |longer| && longer[i].operationId == longer[j].operationId
        ensures longer[i].Identity() == longer[j].Identity()
      {
        assert longer[i] == before[i] && before[i] in before;
        if j < |before| { assert longer[j] == before[j]; }
      }
    }
  }

  lemma InconsistentPrefix(requests: seq<EffectRequest>, n: nat)
    requires n <= |requests| && !Consistent(requests[..n])
    ensures !Consistent(requests)
  {
    var i, j :| 0 <= i < j < n && requests[..n][i].operationId == requests[..n][j].operationId
                && requests[..n][i].Identity() != requests[..n][j].Identity();
    assert requests[i].Identity() != requests[j].Identity();
  }

  lemma SeenLast(requests: seq<EffectRequest>, last: EffectRequest, id: string)
    ensures Seen(requests + [last], id) <==> Seen(requests, id) || id == last.operationId
  {
    if Seen(requests, id) {
      var r :| r in requests && r.operationId == id;
      assert r in requests + [last];
    }
    assert last in requests + [last];
  }

  /** Applied and suppressed requests partition the input, and every operation is applied exactly once. */
  lemma {:induction false} OccurrencesPartition(requests: seq<EffectRequest>)
    ensures multiset(Occurrences(requests, true)) + multiset(Occurrences(requests, false)) == multiset(requests)
    ensures forall id :: Seen(Occurrences(requests, true), id) <==> Seen(requests, id)
    ensures DistinctOperations(Occurrences(requests, true))
    decreases |requests|
  {
    if requests != [] {
      var before, last := requests[..|requests| - 1], requests[|requests| - 1];
      OccurrencesPartition(before);
      OccurrencesLast(before, last);
      assert requests == before + [last];
      OneMoreIsFiled(before, last, Occurrences(before, true), Occurrences(before, false));
    }
  }

  lemma OneMoreIsFiled(before: seq<EffectRequest>, last: EffectRequest, firsts: seq<EffectRequest>,
      others: seq<EffectRequest>)
    requires multiset(firsts) + multiset(others) == multiset(before)
    requires forall id :: Seen(firsts, id) <==> Seen(before, id)
    requires DistinctOperations(firsts)
    ensures var firsts' := firsts + (if Seen(before, last.operationId) then [] else [last]);
            var others' := others + (if Seen(before, last.operationId) then [last] else []);
            && multiset(firsts') + multiset(others') == multiset(before + [last])
            && (forall id :: Seen(firsts', id) <==> Seen(before + [last], id))
            && DistinctOperations(firsts')
  {
    forall id
      ensures Seen(before + [last], id) <==> Seen(before, id) || id == last.operationId
      ensures Seen(firsts + [last], id) <==> Seen(firsts, id) || id == last.operationId
    {
      SeenLast(before, last, id);
      SeenLast(firsts, last, id);
    }
    if Seen(before, last.operationId) {
      assert firsts + [] == firsts && others + [last] == others + [last];
    } else {
      assert others + [] == others;
      forall i | 0 <= i < |firsts| ensures firsts[i].operationId != last.operationId {
        assert firsts[i] in firsts;
      }
    }
  }

  ghost predicate IsFirst(requests: seq<EffectRequest>, i: int) {
    0 <= i < |requests| && forall j | 0 <= j < i :: requests[j].operationId != requests[i].operationId
  }

  /** `r` is the request at `i`, and it is (`first`), or is not, the first of its operation. */
  ghost predicate StandsAt(requests: seq<EffectRequest>, i: int, r: EffectRequest, first: bool) {
    0 <= i < |requests| && requests[i] == r && (IsFirst(requests, i) <==> first)
  }

  /** Applied is what comes first of its operation, suppressed what repeats one. */
  lemma {:induction false} OccurrencesAreExact(requests: seq<EffectRequest>, first: bool)
    ensures forall r :: r in Occurrences(requests, first) <==> exists i :: StandsAt(requests, i, r, first)
    decreases |requests|
  {
    if requests != [] {
      var before, last := requests[..|requests| - 1], requests[|requests| - 1];
      OccurrencesAreExact(before, first);
      OccurrencesLast(before, last);
      assert requests == before + [last];
      SeenIffNotFirst(requests);
      hide Occurrences, Seen, IsFirst;
      forall r ensures r in Occurrences(requests, first) <==> exists i :: StandsAt(requests, i, r, first) {
        if i :| StandsAt(requests, i, r, first) {
          StandsOneMore(before, last, i, r, first);
        }
        if i :| StandsAt(before, i, r, first) {
          StandsOneMore(before, last, i, r, first);
        }
        StandsOneMore(before, last, |before|, r, first);
      }
    }
  }

  lemma StandsOneMore(before: seq<EffectRequest>, last: EffectRequest, i: int, r: EffectRequest, first: bool)
    ensures StandsAt(before + [last], i, r, first) <==>
      || StandsAt(before, i, r, first)
      || (i == |before| && r == last && (IsFirst(before + [last], i) <==> first))
  {
    var requests := before + [last];
    assert forall j | 0 <= j < |before| :: requests[j] == before[j];
    assert 0 <= i < |before| ==> (IsFirst(requests, i) <==> IsFirst(before, i));
  }

  lemma SeenIffNotFirst(requests: seq<EffectRequest>)
    requires requests != []
    ensures IsFirst(requests, |requests| - 1)
        <==> !Seen(requests[..|requests| - 1], requests[|requests| - 1].operationId)
  {
    var before, last := requests[..|requests| - 1], requests[|requests| - 1];
    if Seen(before, last.operationId) {
      var r :| r in before && r.operationId == last.operationId;
      var j :| 0 <= j < |before| && before[j] == r;
      assert requests[j].operationId == last.operationId;
    }
  }

  ghost predicate DistinctOperations(requests: seq<EffectRequest>) {
    forall i, j | 0 <= i < j < |requests| :: requests[i].operationId != requests[j].operationId
  }

  lemma {:induction false} UnrepeatedAreFirst(requests: seq<EffectRequest>)
    requires DistinctOperations(requests)
    ensures Occurrences(requests, true) == requests && Occurrences(requests, false) == []
    decreases |requests|
  {
    if requests != [] {
      var before, last := requests[..|requests| - 1], requests[|requests| - 1];
      UnrepeatedAreFirst(before);
      forall r | r in before ensures r.operationId != last.operationId {
        var i :| 0 <= i < |before| && before[i] == r;
        assert requests[i].operationId != requests[|requests| - 1].operationId;
      }
    }
  }

  /** Replaying what was applied applies exactly that again, with nothing to suppress. */
  lemma ReplayIsIdempotent(requests: seq<EffectRequest>)
    requires InOrder(SequencesOf(requests))
    ensures var applied := Occurrences(requests, true);
            && InOrder(SequencesOf(applied)) && Consistent(applied)
            && Occurrences(applied, true) == applied && Occurrences(applied, false) == []
  {
    var applied := Occurrences(requests, true);
    OccurrencesPartition(requests);
    UnrepeatedAreFirst(applied);
    InOrderIffStrictlyIncreasing(SequencesOf(requests));
    InOrderIffStrictlyIncreasing(SequencesOf(applied));
    hide InOrder;
    FirstsAreOrdered(requests);
  }

  lemma {:induction false} FirstsAreOrdered(requests: seq<EffectRequest>)
    requires StrictlyIncreasing(SequencesOf(requests))
    ensures StrictlyIncreasing(SequencesOf(Occurrences(requests, true)))
    ensures forall r | r in Occurrences(requests, true) :: r in requests
    decreases |requests|
  {
    if requests != [] {
      var before, last, n := requests[..|requests| - 1], requests[|requests| - 1], |requests| - 1;
      assert SequencesOf(before) == SequencesOf(requests)[..n];
      FirstsAreOrdered(before);
      var firsts := Occurrences(before, true);
      forall k | 0 <= k < |firsts| ensures firsts[k].sequence < last.sequence {
        assert firsts[k] in firsts && firsts[k] in before;
        var i :| 0 <= i < n && before[i] == firsts[k];
        assert SequencesOf(requests)[i] < SequencesOf(requests)[n];
      }
      if !Seen(before, last.operationId) {
        assert SequencesOf(firsts + [last]) == SequencesOf(firsts) + [last.sequence];
      } else {
        assert Occurrences(requests, true) == firsts;
      }
    }
  }
}
