/** Fencing tokens: authority epochs only grow, and a write needs the exact current authority. */
module Fencing {
  import opened Common

  datatype FencingToken = FencingToken(resource: string, operationId: string, epoch: int, generation: Option<string>)

  datatype FencedState = FencedState(resource: string, epoch: nat, operationId: Option<string>, value: Option<string>)

  datatype FencingError =
    | BlankName
    | ConflictOtherResource
    | ConflictOtherOperation
    | ConflictStoreReplaced
    | ConflictOtherGeneration
    | ConflictNoAuthority
    | StaleFencingToken

  // ----- the pure model of one resource -----

  function AcquireAuthority(state: FencedState, operationId: string)
    : Result<(FencedState, FencingToken), FencingError>
  {
    if IsBlank(operationId) then Err(BlankName)
    else
      var epoch := state.epoch + 1;
      Ok((FencedState(state.resource, epoch, Some(operationId), state.value),
          FencingToken(state.resource, operationId, epoch, None)))
  }

  function FencedWrite(state: FencedState, token: FencingToken, value: string): Result<FencedState, FencingError> {
    if token.resource != state.resource then Err(ConflictOtherResource)
    else if token.epoch != state.epoch then Err(StaleFencingToken)
    else if Some(token.operationId) != state.operationId then Err(ConflictOtherOperation)
    else Ok(state.(value := Some(value)))
  }

  /** Authority is the next epoch, held by the operation; the value stays. */
  lemma AuthorityIsExact(state: FencedState, operationId: string)
    ensures var r := AcquireAuthority(state, operationId);
            && (r.Ok? <==> !IsBlank(operationId)) && (r.Err? ==> r == Err(BlankName))
            && (r.Ok? ==>
                  && r.value.0.resource == state.resource && r.value.0.value == state.value
                  && r.value.0.epoch == state.epoch + 1 && r.value.0.operationId == Some(operationId)
                  && r.value.1.resource == state.resource && r.value.1.operationId == operationId
                  && r.value.1.epoch == state.epoch + 1 && r.value.1.generation == None)
  {
  }

  predicate HoldsAuthority(token: FencingToken, state: FencedState) {
    token.resource == state.resource && token.epoch == state.epoch && Some(token.operationId) == state.operationId
  }

  /** A write needs the exact authority; then the value is the one written and nothing else changes. */
  lemma WriteIsExact(state: FencedState, token: FencingToken, value: string)
    ensures var r := FencedWrite(state, token, value);
            && (r.Ok? <==> HoldsAuthority(token, state))
            && (r.Ok? ==>
                  && r.value.value == Some(value)
                  && r.value.resource == state.resource && r.value.epoch == state.epoch
                  && r.value.operationId == state.operationId)
            && (r == Err(ConflictOtherResource) <==> token.resource != state.resource)
            && (r == Err(StaleFencingToken) <==> token.resource == state.resource && token.epoch != state.epoch)
            && (r == Err(ConflictOtherOperation) <==>
                  && token.resource == state.resource && token.epoch == state.epoch
                  && Some(token.operationId) != state.operationId)
  {
  }

  // ----- the persistent store -----

  datatype Row = Row(epoch: nat, operationId: Option<string>, value: Option<string>)

  datatype Database = Database(generation: Option<string>, rows: map<string, Row>)

  function StateOf(db: Database, resource: string): FencedState {
    if resource in db.rows then
      FencedState(resource, db.rows[resource].epoch, db.rows[resource].operationId, db.rows[resource].value)
    else FencedState(resource, 0, None, None)
  }

  function AcquireOutcome(db: Database, handle: string, resource: string, operationId: string)
    : Result<(Database, FencingToken), FencingError>
  {
    if IsBlank(resource) || IsBlank(operationId) then Err(BlankName)
    else if db.generation != Some(handle) then Err(ConflictStoreReplaced)
    else
      var epoch := (if resource in db.rows then db.rows[resource].epoch else 0) + 1;
      var value := if resource in db.rows then db.rows[resource].value else None;
      Ok((db.(rows := db.rows[resource := Row(epoch, Some(operationId), value)]),
          FencingToken(resource, operationId, epoch, Some(handle))))
  }

  function WriteOutcome(db: Database, token: FencingToken, value: string): Result<Database, FencingError> {
    if db.generation.None? || token.generation != db.generation then Err(ConflictOtherGeneration)
    else if token.resource !in db.rows then Err(ConflictNoAuthority)
    else
      var row := db.rows[token.resource];
      if token.epoch != row.epoch then Err(StaleFencingToken)
      else if Some(token.operationId) != row.operationId then Err(ConflictOtherOperation)
      else Ok(db.(rows := db.rows[token.resource := row.(value := Some(value))]))
  }

  /** Acquiring is the pure model on the row of the resource, with the generation stamped on the
      token, and leaves every other resource alone. */
  lemma AcquireRefines(db: Database, handle: string, resource: string, operationId: string)
    ensures var store, pure := AcquireOutcome(db, handle, resource, operationId),
        AcquireAuthority(StateOf(db, resource), operationId);
            && (store.Ok? <==> pure.Ok? && !IsBlank(resource) && db.generation == Some(handle))
            && (store.Ok? ==>
                  && StateOf(store.value.0, resource) == pure.value.0
                  && store.value.1 == pure.value.1.(generation := Some(handle))
                  && forall other | other != resource :: StateOf(store.value.0, other) == StateOf(db, other))
  {
  }

  /** A write with a token of this generation is the pure model on the row of its resource, down to
      the error, except that a resource never acquired is a conflict and not a stale token. */
  lemma WriteRefines(db: Database, token: FencingToken, value: string)
    requires token.epoch > 0
    ensures var store, pure := WriteOutcome(db, token, value), FencedWrite(StateOf(db, token.resource), token, value);
            && (store.Ok? <==> pure.Ok? && db.generation.Some? && token.generation == db.generation)
            && (store.Ok? ==>
                  && StateOf(store.value, token.resource) == pure.value
                  && forall other | other != token.resource :: StateOf(store.value, other) == StateOf(db, other))
            && (store.Err? && db.generation.Some? && token.generation == db.generation ==>
                  if token.resource in db.rows then pure == Err(store.error)
                  else store.error == ConflictNoAuthority && pure == Err(StaleFencingToken))
  {
  }

  /** What an accepted write wrote is read, and a resource never acquired reads as untouched. */
  lemma WrittenIsRead(db: Database, token: FencingToken, value: string)
    ensures WriteOutcome(db, token, value).Ok? ==>
        StateOf(WriteOutcome(db, token, value).value, token.resource).value == Some(value)
    ensures forall r | r !in db.rows ::
      StateOf(db, r).resource == r && StateOf(db, r).epoch == 0 && StateOf(db, r).operationId == None
          && StateOf(db, r).value == None
    ensures forall r | r in db.rows ::
      && StateOf(db, r).resource == r && StateOf(db, r).epoch == db.rows[r].epoch
      && StateOf(db, r).operationId == db.rows[r].operationId && StateOf(db, r).value == db.rows[r].value
  {
  }

  /** Which refusals the store adds to the pure model. */
  lemma StoreRefusals(db: Database, handle: string, resource: string, operationId: string, token: FencingToken,
      value: string)
    ensures var r := AcquireOutcome(db, handle, resource, operationId);
            && (r == Err(BlankName) <==> IsBlank(resource) || IsBlank(operationId))
            && (r == Err(ConflictStoreReplaced) <==>
                  !IsBlank(resource) && !IsBlank(operationId) && db.generation != Some(handle))
            && (r.Err? ==> r.error == BlankName || r.error == ConflictStoreReplaced)
    ensures var r, current := WriteOutcome(db, token, value), db.generation.Some? && token.generation == db.generation;
            && (r == Err(ConflictOtherGeneration) <==> !current)
            && (r == Err(ConflictNoAuthority) <==> current && token.resource !in db.rows)
            && (r == Err(StaleFencingToken) <==>
                  current && token.resource in db.rows && token.epoch != db.rows[token.resource].epoch)
            && (r == Err(ConflictOtherOperation) <==>
                  && current && token.resource in db.rows && token.epoch == db.rows[token.resource].epoch
                  && Some(token.operationId) != db.rows[token.resource].operationId)
  {
    hide IsBlank;
  }

  // ----- every run, with any tokens, handles and store replacements -----

  /** `Replace` puts a new, empty store under the same path, with a generation never used before. */
  datatype Step =
    | Acquire(handle: string, resource: string, operationId: string)
    | Write(token: FencingToken, value: string)
    | Replace(generation: string)

  /** The store with its history: generations used, tokens issued and tokens of accepted writes. */
  datatype World = World(db: Database, generations: set<string>, issued: seq<FencingToken>, accepted: seq<FencingToken>)

  function Initial(generation: string): World {
    World(Database(Some(generation), map[]), {generation}, [], [])
  }

  predicate Enabled(w: World, s: Step) {
    s.Replace? ==> s.generation !in w.generations
  }

  function Next(w: World, s: Step): World {
    match s
    case Acquire(handle, resource, operationId) =>
      (match AcquireOutcome(w.db, handle, resource, operationId)
       case Err(_) => w
       case Ok((db, token)) => w.(db := db, issued := w.issued + [token]))
    case Write(token, value) =>
      (match WriteOutcome(w.db, token, value)
       case Err(_) => w
       case Ok(db) => w.(db := db, accepted := w.accepted + [token]))
    case Replace(generation) =>
      w.(db := Database(Some(generation), map[]), generations := w.generations + {generation})
  }

  function Run(w: World, steps: seq<Step>): World
    decreases |steps|
  {
    if steps == [] then w else Run(Next(w, steps[0]), steps[1..])
  }

  predicate Legal(w: World, steps: seq<Step>)
    decreases |steps|
  {
    steps != [] ==> Enabled(w, steps[0]) && Legal(Next(w, steps[0]), steps[1..])
  }

  predicate SameScope(a: FencingToken, b: FencingToken) {
    a.resource == b.resource && a.generation == b.generation
  }

  /** The newest token issued for a resource under a generation. */
  function LastIssued(issued: seq<FencingToken>, resource: string, generation: Option<string>): Option<FencingToken> {
    if issued == [] then None
    else
      var t := issued[|issued| - 1];
      if t.resource == resource && t.generation == generation then Some(t)
      else LastIssued(issued[..|issued| - 1], resource, generation)
  }

  ghost predicate Generated(w: World) {
    && w.db.generation.Some? && w.db.generation.value in w.generations
    && (forall t | t in w.issued || t in w.accepted :: t.generation.Some? && t.generation.value in w.generations)
  }

  ghost predicate RowsAreNewest(w: World) {
    forall r ::
      var last := LastIssued(w.issued, r, w.db.generation);
      && (r in w.db.rows <==> last.Some?)
      && (last.Some? ==>
            && last.value == FencingToken(r, last.value.operationId, w.db.rows[r].epoch, w.db.generation)
            && w.db.rows[r].operationId == Some(last.value.operationId))
  }

  /** A token of the current generation is not ahead of the row of its resource. */
  predicate NotAhead(db: Database, t: FencingToken) {
    t.generation == db.generation ==> t.resource in db.rows && 0 < t.epoch <= db.rows[t.resource].epoch
  }

  ghost predicate Bounded(w: World) {
    && (forall i | 0 <= i < |w.issued| :: NotAhead(w.db, w.issued[i]))
    && (forall i | 0 <= i < |w.accepted| :: NotAhead(w.db, w.accepted[i]))
  }

  ghost predicate Monotonic(w: World) {
    && (forall i, j | 0 <= i < j < |w.issued| && SameScope(w.issued[i], w.issued[j]) ::
        w.issued[i].epoch < w.issued[j].epoch)
    && (forall i, j | 0 <= i < j < |w.accepted| && SameScope(w.accepted[i], w.accepted[j]) ::
          w.accepted[i].epoch <= w.accepted[j].epoch)
  }

  /** Every row is the newest token of its resource in this generation; issued epochs strictly
      grow and accepted epochs never fall, for one resource in one generation. */
  ghost predicate Fenced(w: World) {
    Generated(w) && RowsAreNewest(w) && Bounded(w) && Monotonic(w)
  }

  lemma {:induction false} LastIssuedIsIssued(issued: seq<FencingToken>, resource: string, generation: Option<string>)
    ensures var last := LastIssued(issued, resource, generation);
            if last.Some? then last.value in issued && last.value.resource == resource
                && last.value.generation == generation
            else forall t | t in issued :: t.resource != resource || t.generation != generation
    decreases |issued|
  {
    if issued != [] {
      var init := issued[..|issued| - 1];
      LastIssuedIsIssued(init, resource, generation);
      assert forall t | t in issued :: t in init || t == issued[|issued| - 1];
    }
  }

  lemma AcquireKeepsRows(w: World, handle: string, resource: string, operationId: string)
    requires RowsAreNewest(w) && AcquireOutcome(w.db, handle, resource, operationId).Ok?
    ensures RowsAreNewest(Next(w, Acquire(handle, resource, operationId)))
  {
    var token, w' := AcquireOutcome(w.db, handle, resource, operationId).value.1,
        Next(w, Acquire(handle, resource, operationId));
    assert w'.issued[..|w'.issued| - 1] == w.issued;
    forall q
      ensures LastIssued(w'.issued, q, w.db.generation)
              == if q == resource then Some(token) else LastIssued(w.issued, q, w.db.generation)
    {
    }
  }

  lemma AcquireKeepsFenced(w: World, handle: string, resource: string, operationId: string)
    requires Fenced(w)
    ensures Fenced(Next(w, Acquire(handle, resource, operationId)))
  {
    hide RowsAreNewest;
    if AcquireOutcome(w.db, handle, resource, operationId).Ok? {
      AcquireKeepsRows(w, handle, resource, operationId);
    }
  }

  /** Only the newest token of the current generation is accepted. */
  lemma AcceptedMatchesRow(w: World, token: FencingToken, value: string)
    requires Generated(w) && RowsAreNewest(w)
    ensures var newest := LastIssued(w.issued, token.resource, w.db.generation);
            WriteOutcome(w.db, token, value).Ok? <==> newest == Some(token)
  {
    LastIssuedIsIssued(w.issued, token.resource, w.db.generation);
  }

  lemma WriteKeepsRows(w: World, token: FencingToken, value: string)
    requires RowsAreNewest(w)
    ensures RowsAreNewest(Next(w, Write(token, value)))
  {
    hide LastIssued;
  }

  lemma WriteKeepsFenced(w: World, token: FencingToken, value: string)
    requires Fenced(w)
    ensures Fenced(Next(w, Write(token, value)))
  {
    hide RowsAreNewest, LastIssued;
    WriteKeepsRows(w, token, value);
    if WriteOutcome(w.db, token, value).Ok? {
      AcceptedMatchesRow(w, token, value);
      LastIssuedIsIssued(w.issued, token.resource, w.db.generation);
      assert NotAhead(w.db, token);
    }
  }

  lemma ReplaceKeepsFenced(w: World, generation: string)
    requires Fenced(w) && generation !in w.generations
    ensures Fenced(Next(w, Replace(generation)))
  {
    forall r ensures LastIssued(w.issued, r, Some(generation)).None? {
      LastIssuedIsIssued(w.issued, r, Some(generation));
    }
  }

  lemma {:induction false} RunIsFenced(w: World, steps: seq<Step>)
    requires Fenced(w) && Legal(w, steps)
    ensures Fenced(Run(w, steps))
    decreases |steps|
  {
    hide Fenced;
    if steps != [] {
      match steps[0] {
        case Acquire(h, r, o) => AcquireKeepsFenced(w, h, r, o);
        case Write(t, v) => WriteKeepsFenced(w, t, v);
        case Replace(g) => ReplaceKeepsFenced(w, g);
      }
      RunIsFenced(Next(w, steps[0]), steps[1..]);
    }
  }

  /** A write is accepted only with the newest token issued for its resource in the current
      generation of the store, whoever forged or kept the token it presents. */
  lemma AcceptedIsNewest(generation: string, steps: seq<Step>, token: FencingToken, value: string)
    requires Legal(Initial(generation), steps)
    ensures var w := Run(Initial(generation), steps);
            var newest := LastIssued(w.issued, token.resource, w.db.generation);
            WriteOutcome(w.db, token, value).Ok? <==> newest == Some(token)
  {
    RunIsFenced(Initial(generation), steps);
    AcceptedMatchesRow(Run(Initial(generation), steps), token, value);
    hide RowsAreNewest, LastIssued;
  }

  /** Once newer authority over a resource was issued, or the store was replaced, an older token
      is refused for good; and the writes that were accepted never went back in epoch. */
  lemma SupersededIsRefused(generation: string, steps: seq<Step>, i: nat, j: nat, value: string)
    requires Legal(Initial(generation), steps)
    requires var issued := Run(Initial(generation), steps).issued;
             i < j < |issued| && issued[i].resource == issued[j].resource
    ensures var w := Run(Initial(generation), steps);
            && WriteOutcome(w.db, w.issued[i], value).Err?
            && forall a, b | 0 <= a < b < |w.accepted| && SameScope(w.accepted[a], w.accepted[b]) ::
                 w.accepted[a].epoch <= w.accepted[b].epoch
  {
    RunIsFenced(Initial(generation), steps);
    GenerationsAdvance(Initial(generation), steps);
    var w := Run(Initial(generation), steps);
    if w.issued[i].generation == w.db.generation {
      assert w.issued[j].generation == w.db.generation;
      assert SameScope(w.issued[i], w.issued[j]);
    }
  }

  /** Tokens of the current generation are the newest ones issued. */
  ghost predicate CurrentAreLast(w: World) {
    && w.db.generation.Some? && w.db.generation.value in w.generations
    && (forall t | t in w.issued :: t.generation.Some? && t.generation.value in w.generations)
    && forall i, j | 0 <= i < j < |w.issued| && w.issued[i].generation == w.db.generation ::
        w.issued[j].generation == w.db.generation
  }

  lemma {:induction false} GenerationsAdvance(w: World, steps: seq<Step>)
    requires CurrentAreLast(w) && Legal(w, steps)
    ensures CurrentAreLast(Run(w, steps))
    decreases |steps|
  {
    if steps != [] {
      var w' := Next(w, steps[0]);
      assert CurrentAreLast(w');
      GenerationsAdvance(w', steps[1..]);
    }
  }

  // ----- the stateful form -----

  /** The database file; several open stores may share it, and it may be replaced beneath them. */
  class FencingDatabase {
    var generation: Option<string>
    var rows: map<string, Row>

    function Rows(): Database
      reads this
    {
      Database(generation, rows)
    }

    constructor ()
      ensures Rows() == Database(None, map[])
    {
      generation, rows := None, map[];
    }
  }

  class PersistentFencingStore {
    const database: FencingDatabase
    const storeGeneration: string

    /** Opening keeps the generation of the file, or gives it the random one at hand. */
    constructor (database: FencingDatabase, random: string)
      modifies database`generation
      ensures this.database == database
      ensures database.Rows() == old(database.Rows()).(generation := Some(storeGeneration))
      ensures storeGeneration == if old(database.generation).Some? then old(database.generation).value else random
    {
      this.database := database;
      this.storeGeneration := if database.generation.Some? then database.generation.value else random;
      new;
      if database.generation.None? {
        database.generation := Some(random);
      }
    }

    method Acquire(resource: string, operationId: string) returns (r: Result<FencingToken, FencingError>)
      modifies database`rows
      ensures var spec := AcquireOutcome(old(database.Rows()), storeGeneration, resource, operationId);
              if spec.Ok? then r == Ok(spec.value.1) && database.Rows() == spec.value.0
              else r == Err(spec.error) && database.Rows() == old(database.Rows())
      ensures var before, after := StateOf(old(database.Rows()), resource), StateOf(database.Rows(), resource);
              && (r.Ok? ==>
                    && AcquireAuthority(before, operationId) == Ok((after, r.value.(generation := None)))
                    && before.epoch < r.value.epoch && after.value == before.value)
              && forall other | other != resource ::
                  StateOf(database.Rows(), other) == StateOf(old(database.Rows()), other)
    {
      AcquireRefines(database.Rows(), storeGeneration, resource, operationId);
      if IsBlank(resource) || IsBlank(operationId) {
        return Err(BlankName);
      }
      if database.generation.None? || storeGeneration != database.generation.value {
        return Err(ConflictStoreReplaced);
      }
      var epoch := 1;
      var value := None;
      if resource in database.rows {
        epoch := database.rows[resource].epoch + 1;
        value := database.rows[resource].value;
      }
      database.rows := database.rows[resource := Row(epoch, Some(operationId), value)];
      r := Ok(FencingToken(resource, operationId, epoch, Some(storeGeneration)));
    }

    method Write(token: FencingToken, value: string) returns (r: Result<(), FencingError>)
      modifies database`rows
      ensures var spec := WriteOutcome(old(database.Rows()), token, value);
              if spec.Ok? then r == Ok(()) && database.Rows() == spec.value
              else r == Err(spec.error) && database.Rows() == old(database.Rows())
      ensures var before, after := StateOf(old(database.Rows()), token.resource),
          StateOf(database.Rows(), token.resource);
              && (r.Ok? ==> FencedWrite(before, token, value) == Ok(after))
              && forall other | other != token.resource ::
                  StateOf(database.Rows(), other) == StateOf(old(database.Rows()), other)
    {
      if database.generation.None? || token.generation != database.generation {
        return Err(ConflictOtherGeneration);
      }
      if token.resource !in database.rows {
        return Err(ConflictNoAuthority);
      }
      var row := database.rows[token.resource];
      if token.epoch != row.epoch {
        return Err(StaleFencingToken);
      }
      if Some(token.operationId) != row.operationId {
        return Err(ConflictOtherOperation);
      }
      database.rows := database.rows[token.resource := row.(value := Some(value))];
      r := Ok(());
    }

    method State(resource: string) returns (s: FencedState)
      ensures s == StateOf(database.Rows(), resource)
    {
      if resource !in database.rows {
        return FencedState(resource, 0, None, None);
      }
      var row := database.rows[resource];
      s := FencedState(resource, row.epoch, row.operationId, row.value);
    }
  }
}
