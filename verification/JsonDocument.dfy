/** The mutation operator as it runs: a deep copy of the document, edited in place. */
module JsonDocument {
  import opened Common
  import opened JsonPointer

  /** A mutable value: what a slot of a list or of an object refers to. */
  class Cell {
    var node: Node

    constructor (node: Node)
      ensures this.node == node
    {
      this.node := node;
    }
  }

  datatype Node = Leaf(value: Json) | List(items: seq<Cell>) | Dict(fields: map<string, Cell>)

  datatype Slot = At(i: nat) | Named(key: string)

  /** Which cell stands where: the tree of the cells of a document. */
  datatype Layout = Layout(cell: Cell, kids: map<Slot, Layout>)

  ghost function Cells(l: Layout): set<Cell> {
    {l.cell} + set s, c | s in l.kids && c in Cells(l.kids[s]) :: c
  }

  ghost predicate Fits(node: Node, kids: map<Slot, Layout>) {
    match node
    case Leaf(v) => !v.Array? && !v.Object? && kids == map[]
    case List(items) =>
      && (forall s | s in kids :: s.At? && s.i < |items|)
      && (forall i | 0 <= i < |items| :: At(i) in kids && kids[At(i)].cell == items[i])
    case Dict(fields) =>
      && (forall s | s in kids :: s.Named? && s.key in fields)
      && (forall k | k in fields :: Named(k) in kids && kids[Named(k)].cell == fields[k])
  }

  ghost predicate Apart(l: Layout) {
    && (forall s | s in l.kids :: l.cell !in Cells(l.kids[s]))
    && (forall s, t | s in l.kids && t in l.kids && s != t :: Cells(l.kids[s]) !! Cells(l.kids[t]))
  }

  /** The cells form this tree, without sharing. */
  ghost predicate Stands(l: Layout)
    reads Cells(l)
    decreases l
  {
    && Fits(l.cell.node, l.kids)
    && Apart(l)
    && forall s | s in l.kids :: Stands(l.kids[s])
  }

  predicate Covers(slots: set<Slot>, node: Node) {
    match node
    case Leaf(_) => true
    case List(items) => forall i | 0 <= i < |items| :: At(i) in slots
    case Dict(fields) => forall k | k in fields :: Named(k) in slots
  }

  /** The value of a node from the values in its slots. */
  function Assembled(node: Node, values: map<Slot, Json>): Json
    requires Covers(values.Keys, node)
  {
    match node
    case Leaf(v) => v
    case List(items) => Array(seq(|items|, i requires 0 <= i < |items| => values[At(i)]))
    case Dict(fields) => Object(map k | k in fields :: values[Named(k)])
  }

  /** The document that a tree of cells holds. */
  ghost function Value(l: Layout): Json
    requires Stands(l)
    reads Cells(l)
    decreases l
  {
    var values := map s | s in l.kids :: Value(l.kids[s]);
    assert Covers(values.Keys, l.cell.node) by {
      assert values.Keys == l.kids.Keys;
    }
    Assembled(l.cell.node, values)
  }

  ghost function AllCells(kids: map<Slot, Layout>): set<Cell> {
    set s, c | s in kids && c in Cells(kids[s]) :: c
  }

  /** Trees that share nothing. */
  ghost predicate Forest(kids: map<Slot, Layout>)
    reads AllCells(kids)
  {
    && (forall s | s in kids :: Cells(kids[s]) <= AllCells(kids) && Stands(kids[s]))
    && (forall s, t | s in kids && t in kids && s != t :: Cells(kids[s]) !! Cells(kids[t]))
  }

  ghost function Values(kids: map<Slot, Layout>): map<Slot, Json>
    requires Forest(kids)
    reads AllCells(kids)
  {
    map s | s in kids :: Value(kids[s])
  }

  /** A tree over a forest. */
  lemma TreeStands(l: Layout)
    requires Forest(l.kids) && Fits(l.cell.node, l.kids) && l.cell !in AllCells(l.kids)
    ensures Stands(l) && Cells(l) == {l.cell} + AllCells(l.kids)
  {
    CellsOf(l);
    hide Cells, AllCells, Fits, Value;
  }

  lemma TreeValue(l: Layout)
    requires Stands(l) && Forest(l.kids)
    ensures Values(l.kids).Keys == l.kids.Keys && Covers(l.kids.Keys, l.cell.node)
    ensures Value(l) == Assembled(l.cell.node, Values(l.kids))
  {
    hide Cells, AllCells, Assembled, Stands;
    FitsCovers(l);
    assert Values(l.kids) == map s | s in l.kids :: Value(l.kids[s]);
  }

  lemma LeafValue(l: Layout)
    requires Stands(l) && l.cell.node.Leaf?
    ensures Value(l) == l.cell.node.value && !Value(l).Array? && !Value(l).Object?
  {
    hide Cells;
  }

  lemma FitsCovers(l: Layout)
    requires Stands(l)
    ensures Covers(l.kids.Keys, l.cell.node)
  {
    hide Cells;
  }

  /** The forest below a tree. */
  lemma ForestBelow(l: Layout)
    requires Stands(l)
    ensures Forest(l.kids) && Fits(l.cell.node, l.kids)
    ensures l.cell !in AllCells(l.kids) && Cells(l) == {l.cell} + AllCells(l.kids)
  {
    CellsOf(l);
    KidCells(l.kids);
    hide Cells, AllCells, Fits;
    assert forall s, t | s in l.kids && t in l.kids && s != t :: Cells(l.kids[s]) !! Cells(l.kids[t]);
    CellApart(l);
  }

  lemma KidCells(kids: map<Slot, Layout>)
    ensures forall s | s in kids :: Cells(kids[s]) <= AllCells(kids)
  {
    hide Cells;
  }

  lemma CellApart(l: Layout)
    requires Apart(l)
    ensures l.cell !in AllCells(l.kids)
  {
    hide Cells;
  }

  lemma CellsOf(l: Layout)
    ensures Cells(l) == {l.cell} + AllCells(l.kids)
  {
  }

  lemma EmptyForest()
    ensures AllCells(map[]) == {} && Forest(map[]) && Values(map[]) == map[]
  {
  }

  lemma Planted(kids: map<Slot, Layout>, s: Slot, kid: Layout)
    requires Forest(kids) && s !in kids && Stands(kid) && Cells(kid) !! AllCells(kids)
    ensures Forest(kids[s := kid]) && AllCells(kids[s := kid]) == AllCells(kids) + Cells(kid)
    ensures Values(kids[s := kid]) == Values(kids)[s := Value(kid)]
  {
    hide Cells, Stands, Value;
    var more := kids[s := kid];
    assert forall t | t in more :: if t == s then more[t] == kid else t in kids && more[t] == kids[t];
  }

  /** Some of the trees of a forest, under other slots. */
  lemma Replanted(kids: map<Slot, Layout>, kids': map<Slot, Layout>, from: map<Slot, Slot>)
    requires Forest(kids) && from.Keys == kids'.Keys
    requires forall s | s in from :: from[s] in kids && kids'[s] == kids[from[s]]
    requires forall s, t | s in from && t in from && s != t :: from[s] != from[t]
    ensures Forest(kids') && AllCells(kids') <= AllCells(kids)
    ensures Values(kids') == map s | s in from :: Values(kids)[from[s]]
  {
    hide Cells, Stands, Value;
    assert forall s | s in kids' :: Cells(kids'[s]) <= AllCells(kids');
  }

  lemma Regrown(kids: map<Slot, Layout>, s: Slot, kid: Layout)
    requires Forest(kids) && s in kids && Stands(kid) && Cells(kid) !! AllCells(kids)
    ensures Forest(kids[s := kid]) && AllCells(kids[s := kid]) <= AllCells(kids) + Cells(kid)
    ensures Values(kids[s := kid]) == Values(kids)[s := Value(kid)]
  {
    hide Cells, Stands, Value, AllCells, Forest, Values;
    Thinned(kids, s);
    Planted(kids - {s}, s, kid);
    assert (kids - {s})[s := kid] == kids[s := kid];
  }

  // ----- the copy -----

  /** `copy.deepcopy`: a fresh tree of cells that holds `doc`. */
  method DeepCopy(doc: Json) returns (c: Cell, ghost l: Layout)
    ensures l.cell == c && fresh(Cells(l)) && Stands(l) && Value(l) == doc
    decreases doc, 1
  {
    match doc {
      case Array(items) => c, l := CopyItems(doc);
      case Object(fields) => c, l := CopyFields(doc);
      case _ =>
        c := new Cell(Leaf(doc));
        l := Layout(c, map[]);
        EmptyForest();
        TreeStands(l);
        TreeValue(l);
    }
  }

  method CopyItems(doc: Json) returns (c: Cell, ghost l: Layout)
    requires doc.Array?
    ensures l.cell == c && fresh(Cells(l)) && Stands(l) && Value(l) == doc
    decreases doc, 0
  {
    hide Cells, Stands, Value, AllCells, Forest, Values, Fits, Assembled, Covers, CopiedItems;
    EmptyForest();
    NoItems(doc.items);
    var cells: seq<Cell> := [];
    ghost var kids: map<Slot, Layout> := map[];
    ghost var held: set<Cell> := {};
    ghost var values: map<Slot, Json> := map[];
    for i := 0 to |doc.items|
      invariant |cells| == i
      invariant Forest(kids) && held == AllCells(kids) && fresh(held) && Values(kids) == values
      invariant CopiedItems(doc.items, cells, kids, values)
    {
      var child, kid := DeepCopy(doc.items[i]);
      ItemCopied(doc.items, cells, kids, values, kid);
      Planted(kids, At(i), kid);
      cells := cells + [child];
      kids := kids[At(i) := kid];
      held := held + Cells(kid);
      values := values[At(i) := doc.items[i]];
    }
    c := new Cell(List(cells));
    l := Layout(c, kids);
    AllItemsCopied(doc.items, cells, kids, values);
    TreeStands(l);
    TreeValue(l);
  }

  ghost predicate CopiedItems(items: seq<Json>, cells: seq<Cell>, kids: map<Slot, Layout>, values: map<Slot, Json>) {
    && |cells| <= |items|
    && Fits(List(cells), kids) && values.Keys == kids.Keys
    && forall i | 0 <= i < |cells| :: At(i) in values && values[At(i)] == items[i]
  }

  lemma NoItems(items: seq<Json>)
    ensures CopiedItems(items, [], map[], map[])
  {
  }

  lemma ItemCopied(items: seq<Json>, cells: seq<Cell>, kids: map<Slot, Layout>, values: map<Slot, Json>, kid: Layout)
    requires CopiedItems(items, cells, kids, values) && |cells| < |items|
    ensures At(|cells|) !in kids
    ensures CopiedItems(items, cells + [kid.cell], kids[At(|cells|) := kid], values[At(|cells|) := items[|cells|]])
  {
  }

  lemma AllItemsCopied(items: seq<Json>, cells: seq<Cell>, kids: map<Slot, Layout>, values: map<Slot, Json>)
    requires CopiedItems(items, cells, kids, values) && |cells| == |items|
    ensures Fits(List(cells), kids) && Covers(values.Keys, List(cells))
        && Assembled(List(cells), values) == Array(items)
  {
  }

  method CopyFields(doc: Json) returns (c: Cell, ghost l: Layout)
    requires doc.Object?
    ensures l.cell == c && fresh(Cells(l)) && Stands(l) && Value(l) == doc
    decreases doc, 0
  {
    hide Cells, Stands, Value, AllCells, Forest, Values, Fits, Assembled, Covers;
    EmptyForest();
    var cells: map<string, Cell> := map[];
    ghost var kids: map<Slot, Layout> := map[];
    ghost var held: set<Cell> := {};
    ghost var values: map<Slot, Json> := map[];
    var pending := doc.fields.Keys;
    NoFields();
    while pending != {}
      invariant pending <= doc.fields.Keys && cells.Keys == doc.fields.Keys - pending
      invariant Forest(kids) && held == AllCells(kids) && fresh(held) && Values(kids) == values
      invariant Copied(doc.fields, cells, kids, values)
      decreases pending
    {
      var k :| k in pending;
      var child, kid := DeepCopy(doc.fields[k]);
      FieldCopied(doc.fields, cells, kids, values, k, kid);
      Planted(kids, Named(k), kid);
      cells := cells[k := child];
      kids := kids[Named(k) := kid];
      held := held + Cells(kid);
      values := values[Named(k) := doc.fields[k]];
      pending := pending - {k};
    }
    c := new Cell(Dict(cells));
    l := Layout(c, kids);
    AllCopied(doc.fields, cells, kids, values);
    TreeStands(l);
    TreeValue(l);
  }

  ghost predicate Copied(fields: map<string, Json>, cells: map<string, Cell>, kids: map<Slot, Layout>,
      values: map<Slot, Json>)
  {
    && cells.Keys <= fields.Keys
    && Fits(Dict(cells), kids) && values.Keys == kids.Keys
    && forall k | k in cells :: Named(k) in values && values[Named(k)] == fields[k]
  }

  lemma NoFields()
    ensures forall fields: map<string, Json> :: Copied(fields, map[], map[], map[])
  {
  }

  lemma FieldCopied(fields: map<string, Json>, cells: map<string, Cell>, kids: map<Slot, Layout>,
      values: map<Slot, Json>, k: string, kid: Layout)
    requires Copied(fields, cells, kids, values) && k in fields && k !in cells
    ensures Named(k) !in kids
    ensures Copied(fields, cells[k := kid.cell], kids[Named(k) := kid], values[Named(k) := fields[k]])
  {
  }

  lemma AllCopied(fields: map<string, Json>, cells: map<string, Cell>, kids: map<Slot, Layout>, values: map<Slot, Json>)
    requires Copied(fields, cells, kids, values) && cells.Keys == fields.Keys
    ensures Fits(Dict(cells), kids) && Covers(values.Keys, Dict(cells))
        && Assembled(Dict(cells), values) == Object(fields)
  {
  }

  // ----- walking down -----

  function SlotOf(node: Node, token: string): Result<Slot, Error> {
    match node
    case Leaf(_) => Err(TypeError)
    case List(items) => (match Place(token, |items|) case Ok(i) => Ok(At(i)) case Err(e) => Err(e))
    case Dict(fields) => if token in fields then Ok(Named(token)) else Err(KeyError)
  }

  lemma SlotIsStep(l: Layout, token: string)
    requires Stands(l)
    ensures match SlotOf(l.cell.node, token)
            case Err(e) => Step(Value(l), token) == Err(e)
            case Ok(s) => s in l.kids && Step(Value(l), token) == Ok(Value(l.kids[s]))
  {
    hide Cells, AllCells, Stands, Forest, Value, Place;
    ForestBelow(l);
    TreeValue(l);
  }

  ghost predicate Has(l: Layout, slots: seq<Slot>)
    decreases |slots|
  {
    slots != [] ==> slots[0] in l.kids && Has(l.kids[slots[0]], slots[1..])
  }

  ghost function Sub(l: Layout, slots: seq<Slot>): Layout
    requires Has(l, slots)
    decreases |slots|
  {
    if slots == [] then l else Sub(l.kids[slots[0]], slots[1..])
  }

  /** The walk along `path` goes through these slots. */
  ghost predicate Reaches(l: Layout, path: seq<string>, slots: seq<Slot>)
    requires Stands(l)
    reads Cells(l)
    decreases |path|
  {
    && |path| == |slots|
    && (path != [] ==>
          && slots[0] in l.kids && SlotOf(l.cell.node, path[0]) == Ok(slots[0])
          && Reaches(l.kids[slots[0]], path[1..], slots[1..]))
  }

  lemma KidStands(l: Layout, s: Slot)
    requires Stands(l) && s in l.kids
    ensures Stands(l.kids[s])
  {
    hide Cells;
  }

  lemma {:induction false} ReachedIsLookup(l: Layout, path: seq<string>, slots: seq<Slot>)
    requires Stands(l) && Reaches(l, path, slots)
    ensures Has(l, slots) && Stands(Sub(l, slots)) && Lookup(Value(l), path) == Ok(Value(Sub(l, slots)))
    decreases |path|
  {
    hide Cells, Value, Place, SlotOf, Step;
    if path != [] {
      SlotIsStep(l, path[0]);
      ReachedIsLookup(l.kids[slots[0]], path[1..], slots[1..]);
    }
  }

  lemma {:induction false} ReachesFurther(l: Layout, path: seq<string>, slots: seq<Slot>, token: string, s: Slot)
    requires Stands(l) && Reaches(l, path, slots) && Has(l, slots) && Stands(Sub(l, slots))
    requires s in Sub(l, slots).kids && SlotOf(Sub(l, slots).cell.node, token) == Ok(s)
    ensures Reaches(l, path + [token], slots + [s])
    ensures Has(l, slots + [s]) && Sub(l, slots + [s]) == Sub(l, slots).kids[s]
    decreases |path|
  {
    hide Cells, Stands, Value, Place, SlotOf;
    if path != [] {
      KidStands(l, slots[0]);
      ReachesFurther(l.kids[slots[0]], path[1..], slots[1..], token, s);
      assert (path + [token])[1..] == path[1..] + [token];
      assert (slots + [s])[1..] == slots[1..] + [s];
    }
  }

  lemma WalkStarts(l: Layout)
    requires Stands(l)
    ensures Has(l, []) && Reaches(l, [], []) && Sub(l, []) == l
  {
  }

  lemma SlotHoldsCell(l: Layout, token: string)
    requires Stands(l) && SlotOf(l.cell.node, token).Ok?
    ensures var s := SlotOf(l.cell.node, token).value;
            && s in l.kids
            && l.kids[s].cell == match l.cell.node case List(items) => items[s.i] case Dict(fields) => fields[s.key]
  {
    hide Cells, Place;
  }

  /** One step of the walk: it fails as the lookup does, or goes on to the child. */
  lemma WalkStep(l: Layout, path: seq<string>, i: nat, slots: seq<Slot>) returns (s: Slot)
    requires Stands(l) && i < |path| && Reaches(l, path[..i], slots)
    ensures Has(l, slots) && Stands(Sub(l, slots))
    ensures match SlotOf(Sub(l, slots).cell.node, path[i])
            case Err(e) => Lookup(Value(l), path) == Err(e)
            case Ok(t) =>
              && s == t && s in Sub(l, slots).kids
              && Reaches(l, path[..i] + [path[i]], slots + [s])
              && Has(l, slots + [s]) && Sub(l, slots + [s]) == Sub(l, slots).kids[s]
  {
    hide Cells, Stands, Value, Place, SlotOf, Reaches, Has, Sub, Step;
    ReachedIsLookup(l, path[..i], slots);
    var sub := Sub(l, slots);
    SlotIsStep(sub, path[i]);
    var found := SlotOf(sub.cell.node, path[i]);
    s := if found.Ok? then found.value else At(0);
    if found.Ok? {
      ReachesFurther(l, path[..i], slots, path[i], s);
    } else {
      assert path == path[..i] + path[i..];
      LookupConcat(Value(l), path[..i], path[i..]);
    }
  }

  method PointerParent(root: Cell, pointer: string, ghost l: Layout, ghost owned: set<Cell>)
    returns (r: Result<(Cell, string), Error>, ghost slots: seq<Slot>)
    requires l.cell == root && Stands(l) && owned == Cells(l)
    ensures match Tokens(pointer)
            case Err(e) => r == Err(e)
            case Ok(tokens) =>
              var above, last := tokens[..|tokens| - 1], tokens[|tokens| - 1];
              match Lookup(Value(l), above)
              case Err(e) => r == Err(e)
              case Ok(_) => Reaches(l, above, slots) && Has(l, slots) && r == Ok((Sub(l, slots).cell, last))
  {
    hide Cells, Value, Split, Unescape, Stands, Reaches, Sub, Has, Place;
    slots := [];
    if pointer == "" || pointer[0] != '/' {
      return Err(ValueError), slots;
    }
    var tokens := UnescapeAll(Split(pointer[1..]));
    if tokens == [""] {
      return Err(ValueError), slots;
    }
    var current := root;
    ghost var above, sub := tokens[..|tokens| - 1], l;
    WalkStarts(l);
    for i := 0 to |tokens| - 1
      invariant Reaches(l, above[..i], slots) && Has(l, slots) && sub == Sub(l, slots) && sub.cell == current
    {
      assert above[..i + 1] == above[..i] + [tokens[i]];
      ghost var s := WalkStep(l, above, i, slots);
      if SlotOf(current.node, tokens[i]).Ok? { SlotHoldsCell(sub, tokens[i]); }
      match current.node {
        case List(items) =>
          var place := Place(tokens[i], |items|);
          if place.Err? {
            return Err(place.error), slots;
          }
          current := items[place.value];
        case Dict(fields) =>
          if tokens[i] !in fields {
            return Err(KeyError), slots;
          }
          current := fields[tokens[i]];
        case Leaf(_) =>
          return Err(TypeError), slots;
      }
      slots, sub := slots + [s], sub.kids[s];
    }
    assert above[..|above|] == above;
    ReachedIsLookup(l, above, slots);
    return Ok((current, tokens[|tokens| - 1])), slots;
  }

  // ----- the edit -----

  function Later(s: Slot, i: nat): Slot
    requires s.At?
  {
    if s.i < i then s else At(s.i + 1)
  }

  ghost predicate Items<T>(slots: map<Slot, T>, n: nat) {
    forall s: Slot :: s.At? && s.i < n ==> s in slots
  }

  /** What the slots hold after item `i` is taken out. */
  ghost function Shifted<T>(slots: map<Slot, T>, i: nat, n: nat): map<Slot, T>
    requires i < n && Items(slots, n)
  {
    map s | s in slots && s.At? && s.i < n - 1 :: slots[Later(s, i)]
  }

  lemma ShiftedStands(kids: map<Slot, Layout>, i: nat, n: nat)
    requires Forest(kids) && i < n && Items(kids, n)
    ensures Forest(Shifted(kids, i, n)) && AllCells(Shifted(kids, i, n)) <= AllCells(kids)
    ensures Values(Shifted(kids, i, n)) == Shifted(Values(kids), i, n)
  {
    hide Cells, Stands, AllCells, Value, Forest;
    Replanted(kids, Shifted(kids, i, n), map s | s in kids && s.At? && s.i < n - 1 :: Later(s, i));
  }

  lemma ItemReplaced(items: seq<Cell>, kids: map<Slot, Layout>, values: map<Slot, Json>, i: nat, kid: Layout, v: Json)
    requires i < |items| && Fits(List(items), kids) && values.Keys == kids.Keys && Covers(values.Keys, List(items))
    ensures Fits(List(items[i := kid.cell]), kids[At(i) := kid])
    ensures At(i) in kids && Covers(values[At(i) := v].Keys, List(items[i := kid.cell]))
    ensures Assembled(List(items[i := kid.cell]), values[At(i) := v])
        == Array(Assembled(List(items), values).items[i := v])
  {
  }

  lemma ItemRemoved(items: seq<Cell>, kids: map<Slot, Layout>, values: map<Slot, Json>, i: nat)
    requires i < |items| && Fits(List(items), kids) && values.Keys == kids.Keys
    ensures Items(kids, |items|) && Items(values, |items|)
    ensures Fits(List(items[..i] + items[i + 1..]), Shifted(kids, i, |items|))
  {
    forall s: Slot | s.At? && s.i < |items| ensures s in kids { assert s == At(s.i); }
  }

  lemma ShiftedAt(values: map<Slot, Json>, i: nat, n: nat, s: Slot)
    requires i < n && Items(values, n) && s.At? && s.i < n - 1
    ensures s in Shifted(values, i, n) && Later(s, i) in values && Shifted(values, i, n)[s] == values[Later(s, i)]
  {
    assert s in values && Later(s, i) in values;
  }

  lemma ValueRemoved(items: seq<Cell>, values: map<Slot, Json>, i: nat)
    requires i < |items| && Items(values, |items|) && Covers(values.Keys, List(items))
    ensures Covers(Shifted(values, i, |items|).Keys, List(items[..i] + items[i + 1..]))
    ensures var before := Assembled(List(items), values).items;
            Assembled(List(items[..i] + items[i + 1..]), Shifted(values, i, |items|))
            == Array(before[..i] + before[i + 1..])
  {
    hide Shifted, Items;
    forall j | 0 <= j < |items| - 1
      ensures At(j) in Shifted(values, i, |items|) && Later(At(j), i) in values
      ensures Shifted(values, i, |items|)[At(j)] == values[Later(At(j), i)]
    {
      ShiftedAt(values, i, |items|, At(j));
    }
    var before := Assembled(List(items), values).items;
    var after := Assembled(List(items[..i] + items[i + 1..]), Shifted(values, i, |items|)).items;
    WithoutItem(before, i);
    assert after == before[..i] + before[i + 1..];
  }

  lemma FieldFits(fields: map<string, Cell>, kids: map<Slot, Layout>, k: string, kid: Layout)
    requires k in fields && Fits(Dict(fields), kids)
    ensures Named(k) in kids && Fits(Dict(fields[k := kid.cell]), kids[Named(k) := kid])
  {
  }

  lemma FieldReplaced(fields: map<string, Cell>, kids: map<Slot, Layout>, values: map<Slot, Json>, k: string,
      kid: Layout, v: Json)
    requires k in fields && Fits(Dict(fields), kids) && values.Keys == kids.Keys && Covers(values.Keys, Dict(fields))
    ensures Fits(Dict(fields[k := kid.cell]), kids[Named(k) := kid])
    ensures Named(k) in kids && Covers(values[Named(k) := v].Keys, Dict(fields[k := kid.cell]))
    ensures Assembled(Dict(fields[k := kid.cell]), values[Named(k) := v])
            == Object(Assembled(Dict(fields), values).fields[k := v])
  {
    hide Fits;
    FieldFits(fields, kids, k, kid);
  }

  lemma FieldRemoved(fields: map<string, Cell>, kids: map<Slot, Layout>, values: map<Slot, Json>, k: string)
    requires k in fields && Fits(Dict(fields), kids) && values.Keys == kids.Keys && Covers(values.Keys, Dict(fields))
    ensures Fits(Dict(fields - {k}), kids - {Named(k)})
    ensures Covers((values - {Named(k)}).Keys, Dict(fields - {k}))
    ensures Assembled(Dict(fields - {k}), values - {Named(k)}) == Object(Assembled(Dict(fields), values).fields - {k})
  {
  }

  lemma Thinned(kids: map<Slot, Layout>, s: Slot)
    requires Forest(kids)
    ensures Forest(kids - {s}) && AllCells(kids - {s}) <= AllCells(kids) && Values(kids - {s}) == Values(kids) - {s}
  {
    hide Cells, Stands, AllCells, Value, Forest;
    Replanted(kids, kids - {s}, map t | t in kids - {s} :: t);
  }

  method SetItem(parent: Cell, i: nat, value: Json, ghost l: Layout, ghost owned: set<Cell>) returns (ghost l': Layout)
    requires l.cell == parent && Stands(l) && owned == Cells(l) && parent.node.List? && i < |parent.node.items|
    modifies parent
    ensures old(Value(l)).Array? && i < |old(Value(l)).items|
    ensures l'.cell == parent && Stands(l') && fresh(Cells(l') - owned)
    ensures Value(l') == Array(old(Value(l)).items[i := value])
  {
    hide Cells, Stands, Value, AllCells, Forest, Values, Fits, Covers;
    ForestBelow(l);
    TreeValue(l);
    ghost var values := Values(l.kids);
    var items := parent.node.items;
    var child, kid := DeepCopy(value);
    ItemReplaced(items, l.kids, values, i, kid, value);
    parent.node := List(items[i := child]);
    assert Forest(l.kids) && Values(l.kids) == values;
    Regrown(l.kids, At(i), kid);
    l' := Layout(parent, l.kids[At(i) := kid]);
    TreeStands(l');
    TreeValue(l');
  }

  method DeleteItem(parent: Cell, i: nat, ghost l: Layout, ghost owned: set<Cell>) returns (ghost l': Layout)
    requires l.cell == parent && Stands(l) && owned == Cells(l) && parent.node.List? && i < |parent.node.items|
    modifies parent
    ensures old(Value(l)).Array? && i < |old(Value(l)).items|
    ensures l'.cell == parent && Stands(l') && fresh(Cells(l') - owned)
    ensures Value(l') == Array(old(Value(l)).items[..i] + old(Value(l)).items[i + 1..])
  {
    hide Cells, Stands, Value, AllCells, Forest, Values, Fits, Covers;
    ForestBelow(l);
    TreeValue(l);
    ghost var values := Values(l.kids);
    var items := parent.node.items;
    ItemRemoved(items, l.kids, values, i);
    ValueRemoved(items, values, i);
    parent.node := List(items[..i] + items[i + 1..]);
    assert Forest(l.kids) && Values(l.kids) == values;
    ShiftedStands(l.kids, i, |items|);
    l' := Layout(parent, Shifted(l.kids, i, |items|));
    TreeStands(l');
    TreeValue(l');
  }

  method EditItems(parent: Cell, token: string, edit: Edit, ghost l: Layout, ghost owned: set<Cell>)
    returns (error: Option<Error>, ghost l': Layout)
    requires l.cell == parent && Stands(l) && owned == Cells(l) && parent.node.List? && !edit.Unsupported?
    modifies parent
    ensures match EditNode(old(Value(l)), token, edit)
            case Err(e) => error == Some(e) && parent.node == old(parent.node)
            case Ok(node) =>
              error == None && l'.cell == parent && Stands(l') && Value(l') == node && fresh(Cells(l') - owned)
  {
    hide Cells, Stands, Value, Place;
    ItemsValue(l);
    l' := l;
    var place := Place(token, |parent.node.items|);
    if place.Err? {
      return Some(place.error), l';
    }
    if edit.Replace? {
      l' := SetItem(parent, place.value, edit.value, l, owned);
    } else {
      l' := DeleteItem(parent, place.value, l, owned);
    }
    error := None;
  }

  lemma ItemsValue(l: Layout)
    requires Stands(l) && l.cell.node.List?
    ensures Value(l).Array? && |Value(l).items| == |l.cell.node.items|
  {
    ForestBelow(l);
    TreeValue(l);
    hide Cells, Stands, Value;
  }

  method SetField(parent: Cell, k: string, value: Json, ghost l: Layout, ghost owned: set<Cell>)
      returns (ghost l': Layout)
    requires l.cell == parent && Stands(l) && owned == Cells(l) && parent.node.Dict? && k in parent.node.fields
    modifies parent
    ensures old(Value(l)).Object?
    ensures l'.cell == parent && Stands(l') && fresh(Cells(l') - owned)
    ensures Value(l') == Object(old(Value(l)).fields[k := value])
  {
    hide Cells, Stands, Value, AllCells, Forest, Values, Fits, Covers;
    ForestBelow(l);
    TreeValue(l);
    ghost var values := Values(l.kids);
    var fields := parent.node.fields;
    var child, kid := DeepCopy(value);
    FieldReplaced(fields, l.kids, values, k, kid, value);
    parent.node := Dict(fields[k := child]);
    assert Forest(l.kids) && Values(l.kids) == values;
    Regrown(l.kids, Named(k), kid);
    l' := Layout(parent, l.kids[Named(k) := kid]);
    TreeStands(l');
    TreeValue(l');
  }

  method DeleteField(parent: Cell, k: string, ghost l: Layout, ghost owned: set<Cell>) returns (ghost l': Layout)
    requires l.cell == parent && Stands(l) && owned == Cells(l) && parent.node.Dict? && k in parent.node.fields
    modifies parent
    ensures old(Value(l)).Object?
    ensures l'.cell == parent && Stands(l') && fresh(Cells(l') - owned)
    ensures Value(l') == Object(old(Value(l)).fields - {k})
  {
    hide Cells, Stands, Value, AllCells, Forest, Values, Fits, Covers;
    ForestBelow(l);
    TreeValue(l);
    ghost var values := Values(l.kids);
    var fields := parent.node.fields;
    FieldRemoved(fields, l.kids, values, k);
    parent.node := Dict(fields - {k});
    assert Forest(l.kids) && Values(l.kids) == values;
    Thinned(l.kids, Named(k));
    l' := Layout(parent, l.kids - {Named(k)});
    TreeStands(l');
    TreeValue(l');
  }

  method EditFields(parent: Cell, token: string, edit: Edit, ghost l: Layout, ghost owned: set<Cell>)
    returns (error: Option<Error>, ghost l': Layout)
    requires l.cell == parent && Stands(l) && owned == Cells(l) && parent.node.Dict? && !edit.Unsupported?
    modifies parent
    ensures match EditNode(old(Value(l)), token, edit)
            case Err(e) => error == Some(e) && parent.node == old(parent.node)
            case Ok(node) =>
              error == None && l'.cell == parent && Stands(l') && Value(l') == node && fresh(Cells(l') - owned)
  {
    hide Cells, Stands, Value;
    FieldsValue(l);
    l' := l;
    if token !in parent.node.fields {
      return Some(KeyError), l';
    }
    if edit.Replace? {
      l' := SetField(parent, token, edit.value, l, owned);
    } else {
      l' := DeleteField(parent, token, l, owned);
    }
    error := None;
  }

  lemma FieldsValue(l: Layout)
    requires Stands(l) && l.cell.node.Dict?
    ensures Value(l).Object? && Value(l).fields.Keys == l.cell.node.fields.Keys
  {
    ForestBelow(l);
    TreeValue(l);
    hide Cells, Stands, Value;
  }

  /** One assignment to the parent makes it hold what `EditNode` says. */
  method EditInPlace(parent: Cell, token: string, edit: Edit, ghost l: Layout, ghost owned: set<Cell>)
    returns (error: Option<Error>, ghost l': Layout)
    requires l.cell == parent && Stands(l) && owned == Cells(l)
    modifies parent
    ensures match EditNode(old(Value(l)), token, edit)
            case Err(e) => error == Some(e) && parent.node == old(parent.node)
            case Ok(node) =>
              error == None && l'.cell == parent && Stands(l') && Value(l') == node && fresh(Cells(l') - owned)
  {
    hide Cells, Stands, Value;
    error, l' := Some(ValueError), l;
    if !edit.Unsupported? {
      match parent.node {
        case List(items) => error, l' := EditItems(parent, token, edit, l, owned);
        case Dict(fields) => error, l' := EditFields(parent, token, edit, l, owned);
        case Leaf(_) => LeafValue(l);
      }
    }
  }

  // ----- the whole document after the edit -----

  /** The tree with another subtree in a place. */
  ghost function Graft(l: Layout, slots: seq<Slot>, sub: Layout): Layout
    requires Has(l, slots)
    decreases |slots|
  {
    if slots == [] then sub
    else Layout(l.cell, l.kids[slots[0] := Graft(l.kids[slots[0]], slots[1..], sub)])
  }

  lemma {:induction false} SubIsBelow(l: Layout, slots: seq<Slot>)
    requires Has(l, slots)
    ensures Cells(Sub(l, slots)) <= Cells(l) && Sub(l, slots).cell in Cells(l)
    decreases |slots|
  {
    if slots != [] {
      SubIsBelow(l.kids[slots[0]], slots[1..]);
      KidCells(l.kids);
      CellsOf(l);
    }
    CellsOf(Sub(l, slots));
    hide Cells;
  }

  lemma KidsApart(l: Layout, s: Slot)
    requires Apart(l) && s in l.kids
    ensures l.cell !in Cells(l.kids[s]) && l.cell !in AllCells(l.kids - {s})
    ensures AllCells(l.kids - {s}) !! Cells(l.kids[s])
    ensures Cells(l) == {l.cell} + Cells(l.kids[s]) + AllCells(l.kids - {s})
  {
    CellsOf(l);
    hide Cells;
    var rest := l.kids - {s};
    assert forall t | t in l.kids :: t == s || (t in rest && rest[t] == l.kids[t]);
    assert forall t | t in rest :: t in l.kids && rest[t] == l.kids[t];
    assert AllCells(l.kids) == Cells(l.kids[s]) + AllCells(rest);
  }

  /** A tree together with the set of its cells. */
  datatype Holding = Holding(l: Layout, owned: set<Cell>)

  twostate predicate OnlyChanged(owned: set<Cell>, new c: Cell)
    reads owned
  {
    unchanged(owned - {c})
  }

  twostate lemma ChangedBelow(owned: set<Cell>, new part: set<Cell>, new c: Cell)
    requires OnlyChanged(owned, c)
    ensures OnlyChanged(part * owned, c)
  {
  }

  /** A cell under slot `s` was assigned to: the rest of the tree did not move. */
  twostate lemma RestUnmoved(h: Holding, new s: Slot, new c: Cell)
    requires old(Stands(h.l)) && h.owned == Cells(h.l) && s in h.l.kids && c in Cells(h.l.kids[s])
    requires OnlyChanged(h.owned, c)
    ensures old(Stands(h.l.kids[s])) && Forest(h.l.kids - {s}) && Fits(h.l.cell.node, h.l.kids)
    ensures h.l.cell.node == old(h.l.cell.node)
    ensures old(Forest(h.l.kids - {s})) && Values(h.l.kids - {s}) == old(Values(h.l.kids - {s}))
  {
    hide Cells, AllCells, Value, Fits, Stands, Apart;
    var l, owned := h.l, h.owned;
    StandsApart(l);
    KidsApart(l, s);
    var rest := l.kids - {s};
    KidCells(rest);
    forall t | t in rest ensures Stands(rest[t]) && Value(rest[t]) == old(Value(rest[t])) {
      assert old(Stands(l.kids[t]));
      assert Cells(rest[t]) <= owned - {c};
    }
    DisjointRest(l.kids, s);
  }

  lemma Regrafted(l: Layout, s: Slot, kid: Layout)
    requires s in l.kids && Forest(l.kids - {s}) && Fits(l.cell.node, l.kids)
    requires Stands(kid) && kid.cell == l.kids[s].cell
    requires Cells(kid) !! AllCells(l.kids - {s}) && l.cell !in Cells(kid) && l.cell !in AllCells(l.kids - {s})
    ensures var l' := Layout(l.cell, l.kids[s := kid]);
            && Stands(l') && Cells(l') == {l.cell} + AllCells(l.kids - {s}) + Cells(kid)
            && var values := Values(l.kids - {s})[s := Value(kid)];
               Covers(values.Keys, l.cell.node) && Value(l') == Assembled(l.cell.node, values)
  {
    hide Cells, Stands, AllCells, Forest, Value, Fits, Assembled, Covers, Values;
    Planted(l.kids - {s}, s, kid);
    assert (l.kids - {s})[s := kid] == l.kids[s := kid];
    FitsRegrafted(l.cell.node, l.kids, s, kid);
    TreeStands(Layout(l.cell, l.kids[s := kid]));
    TreeValue(Layout(l.cell, l.kids[s := kid]));
  }

  lemma FitsRegrafted(node: Node, kids: map<Slot, Layout>, s: Slot, kid: Layout)
    requires s in kids && Fits(node, kids) && kid.cell == kids[s].cell
    ensures Fits(node, kids[s := kid])
  {
  }

  lemma DisjointRest(kids: map<Slot, Layout>, s: Slot)
    ensures forall t | t in kids - {s} :: t in kids && (kids - {s})[t] == kids[t]
  {
  }

  twostate lemma StandsApart(l: Layout)
    requires old(Stands(l))
    ensures Apart(l) && old(Fits(l.cell.node, l.kids))
    ensures forall s | s in l.kids :: old(Stands(l.kids[s]))
    ensures forall s, t | s in l.kids && t in l.kids && s != t :: Cells(l.kids[s]) !! Cells(l.kids[t])
  {
    hide Cells;
  }

  lemma AssembledPut(node: Node, values: map<Slot, Json>, s: Slot, token: string, v: Json)
    requires s in values && SlotOf(node, token) == Ok(s)
    requires Covers(values.Keys, node)
    ensures Covers(values[s := v].Keys, node)
    ensures Step(Assembled(node, values), token) == Ok(values[s])
        && Assembled(node, values[s := v]) == Put(Assembled(node, values), token, v)
  {
    hide Place;
  }

  twostate lemma OldForest(l: Layout)
    requires old(Stands(l))
    ensures old(Forest(l.kids))
  {
    StandsApart(l);
    KidCells(l.kids);
    hide Cells, AllCells, Stands, Fits;
  }

  twostate lemma OldValue(l: Layout)
    requires old(Stands(l)) && old(Forest(l.kids))
    ensures Covers(l.kids.Keys, old(l.cell.node))
    ensures old(Value(l)) == Assembled(old(l.cell.node), old(Values(l.kids)))
  {
    hide Cells, AllCells, Assembled, Stands, Fits, Covers, Apart, Forest;
    StandsApart(l);
    FitsCover(old(l.cell.node), l.kids);
    assert old(Values(l.kids)) == map s | s in l.kids :: old(Value(l.kids[s]));
  }

  lemma FitsCover(node: Node, kids: map<Slot, Layout>)
    requires Fits(node, kids)
    ensures Covers(kids.Keys, node)
  {
  }

  twostate lemma OldRest(kids: map<Slot, Layout>, new s: Slot)
    requires old(Forest(kids)) && old(Forest(kids - {s})) && s in kids
    ensures var values := old(Values(kids));
            && values.Keys == kids.Keys && old(Stands(kids[s])) && values[s] == old(Value(kids[s]))
            && old(Values(kids - {s})) == values - {s}
  {
    hide Cells, Value, Stands, AllCells;
  }

  /** What putting a value under a token of the old tree comes to. */
  twostate lemma OldPut(l: Layout, new s: Slot, new token: string, new v: Json)
    requires old(Stands(l)) && old(Forest(l.kids - {s})) && s in l.kids && SlotOf(old(l.cell.node), token) == Ok(s)
    ensures old(Stands(l.kids[s])) && old(Step(Value(l), token)) == Ok(old(Value(l.kids[s])))
    ensures var values := old(Values(l.kids - {s}))[s := v];
            Covers(values.Keys, old(l.cell.node)) && Assembled(old(l.cell.node), values) == Put(old(Value(l)), token, v)
  {
    hide Cells, AllCells, Stands, Forest, Value, Values, SlotOf, Covers, Assembled, Step, Put;
    StandsApart(l);
    OldForest(l);
    OldValue(l);
    var values := old(Values(l.kids));
    OldRest(l.kids, s);
    assert (values - {s})[s := v] == values[s := v];
    AssembledPut(old(l.cell.node), values, s, token, v);
  }

  /** A new subtree `kid` under slot `s` heads where the old one did: the tree stands, and holds the old document with
      the value of `kid` put there. */
  twostate lemma KidGrafted(h: Holding, new s: Slot, new token: string, new c: Cell, new kid: Layout)
    requires old(Stands(h.l)) && h.owned == Cells(h.l) && s in h.l.kids && SlotOf(old(h.l.cell.node), token) == Ok(s)
    requires c in Cells(h.l.kids[s]) && OnlyChanged(h.owned, c)
    requires Stands(kid) && kid.cell == h.l.kids[s].cell && Cells(kid) !! h.owned - Cells(h.l.kids[s])
    ensures var l' := Layout(h.l.cell, h.l.kids[s := kid]);
            && Stands(l') && Cells(l') <= h.owned + Cells(kid)
            && old(Step(Value(h.l), token)) == Ok(old(Value(h.l.kids[s])))
            && Value(l') == Put(old(Value(h.l)), token, Value(kid))
  {
    hide Cells, AllCells, Value, Values, Fits, Stands, Forest, Apart, OnlyChanged, Covers, Assembled, SlotOf, Step, Put;
    StandsApart(h.l);
    KidsApart(h.l, s);
    RestUnmoved(h, s, c);
    Regrafted(h.l, s, kid);
    OldPut(h.l, s, token, Value(kid));
  }

  lemma KidWithin(l: Layout, s: Slot)
    requires s in l.kids
    ensures Cells(l.kids[s]) <= Cells(l)
  {
    CellsOf(l);
    KidCells(l.kids);
    hide Cells;
  }

  lemma DisjointWithin(owned: set<Cell>, kid: set<Cell>, before: set<Cell>, after: set<Cell>)
    requires before <= kid <= owned && after !! owned - before
    ensures after !! kid - before
  {
  }

  lemma DisjointAround(owned: set<Cell>, kid: set<Cell>, before: set<Cell>, after: set<Cell>, grown: set<Cell>)
    requires before <= kid <= owned && after !! owned - before && grown <= kid + after
    ensures grown !! owned - kid && owned + grown <= owned + after
  {
  }

  lemma GraftUnrolls(l: Layout, slots: seq<Slot>, sub: Layout)
    requires slots != [] && Has(l, slots)
    ensures slots[0] in l.kids
    ensures var kid, rest := l.kids[slots[0]], slots[1..];
            && Has(kid, rest) && Sub(l, slots) == Sub(kid, rest)
            && Graft(l, slots, sub) == Layout(l.cell, l.kids[slots[0] := Graft(kid, rest, sub)])
  {
  }

  twostate lemma ReachesUnrolls(l: Layout, new path: seq<string>, new slots: seq<Slot>)
    requires old(Stands(l)) && old(Reaches(l, path, slots)) && slots != []
    ensures path != [] && slots[0] in l.kids && SlotOf(old(l.cell.node), path[0]) == Ok(slots[0])
    ensures old(Stands(l.kids[slots[0]])) && old(Reaches(l.kids[slots[0]], path[1..], slots[1..]))
  {
    hide Cells, SlotOf;
  }

  lemma PutAtUnrolls(doc: Json, path: seq<string>, child: Json, subtree: Json)
    requires path != [] && Step(doc, path[0]) == Ok(child) && Lookup(child, path[1..]).Ok?
    ensures Lookup(doc, path).Ok? && PutAt(doc, path, subtree) == Put(doc, path[0], PutAt(child, path[1..], subtree))
  {
  }

  /** The cell that heads `sub` was assigned to, and `sub` may stand in its place. */
  twostate predicate Grafts(h: Holding, new path: seq<string>, new slots: seq<Slot>, new sub: Layout)
    reads h.owned, Cells(sub)
  {
    && old(Stands(h.l)) && h.owned == Cells(h.l) && Has(h.l, slots) && old(Reaches(h.l, path, slots))
    && sub.cell == Sub(h.l, slots).cell && Stands(sub)
    && OnlyChanged(h.owned, sub.cell)
    && Cells(sub) !! h.owned - Cells(Sub(h.l, slots))
  }

  twostate lemma GraftsBelow(h: Holding, new path: seq<string>, new slots: seq<Slot>, new sub: Layout)
    requires Grafts(h, path, slots, sub) && slots != []
    ensures slots[0] in h.l.kids && path != []
    ensures var kid := h.l.kids[slots[0]];
            Cells(kid) * h.owned == Cells(kid) && Grafts(Holding(kid, Cells(kid) * h.owned), path[1..], slots[1..], sub)
  {
    hide Cells, Value, Stands, OnlyChanged, SlotOf, Reaches, Has, Sub;
    ReachesUnrolls(h.l, path, slots);
    GraftUnrolls(h.l, slots, sub);
    var kid := h.l.kids[slots[0]];
    KidWithin(h.l, slots[0]);
    SubIsBelow(kid, slots[1..]);
    assert Cells(kid) * h.owned == Cells(kid);
    DisjointWithin(h.owned, Cells(kid), Cells(Sub(kid, slots[1..])), Cells(sub));
    ChangedBelow(h.owned, Cells(kid), sub.cell);
  }

  /** One cell of a tree was assigned to and now heads `sub`: the tree with `sub` in its place stands, and holds the
      old document with that subtree put where the path points. */
  twostate lemma {:induction false} GraftStands(h: Holding, new path: seq<string>, new slots: seq<Slot>,
      new sub: Layout)
    requires Grafts(h, path, slots, sub)
    ensures var l' := Graft(h.l, slots, sub);
            && l'.cell == h.l.cell && Stands(l') && Cells(l') <= h.owned + Cells(sub)
            && Lookup(old(Value(h.l)), path).Ok? && Value(l') == PutAt(old(Value(h.l)), path, Value(sub))
    decreases |slots|
  {
    if slots != [] {
      GraftsBelow(h, path, slots, sub);
      GraftUnrolls(h.l, slots, sub);
      ReachesUnrolls(h.l, path, slots);
      hide Cells, Value, Stands, OnlyChanged, SlotOf, Reaches, Has, Sub, Graft, Step, Put, Lookup, PutAt;
      var kid := h.l.kids[slots[0]];
      var kid' := Graft(kid, slots[1..], sub);
      GraftStands(Holding(kid, Cells(kid) * h.owned), path[1..], slots[1..], sub);
      SubIsBelow(kid, slots[1..]);
      DisjointAround(h.owned, Cells(kid), Cells(Sub(kid, slots[1..])), Cells(sub), Cells(kid'));
      KidGrafted(h, slots[0], path[0], sub.cell, kid');
      PutAtUnrolls(old(Value(h.l)), path, old(Value(kid)), Value(sub));
    } else {
      assert path == [];
    }
  }

  // ----- the mutation -----

  /** The edit of a tree in place: only the parent of the last token is assigned to. */
  method Mutate(root: Cell, pointer: string, edit: Edit, ghost l: Layout, ghost owned: set<Cell>)
    returns (r: Result<(), Error>, ghost l': Layout)
    requires l.cell == root && Stands(l) && owned == Cells(l)
    modifies owned
    ensures match Tokens(pointer)
            case Err(e) => r == Err(e)
            case Ok(tokens) =>
              match Edited(old(Value(l)), tokens, edit)
              case Err(e) => r == Err(e)
              case Ok(d) => r.Ok? && l'.cell == root && Stands(l') && Value(l') == d && fresh(Cells(l') - owned)
  {
    hide Cells, Stands, Value, EditNode, Reaches, Has, Sub, Tokens, Lookup, PutAt;
    l' := l;
    var target;
    ghost var slots;
    target, slots := PointerParent(root, pointer, l, owned);
    if target.Err? {
      return Err(target.error), l';
    }
    ghost var tokens := Tokens(pointer).value;
    ghost var path := tokens[..|tokens| - 1];
    ReachedIsLookup(l, path, slots);
    SubIsBelow(l, slots);
    var error;
    ghost var sub;
    error, sub := EditInPlace(target.value.0, target.value.1, edit, Sub(l, slots), Cells(Sub(l, slots)));
    if error.Some? {
      return Err(error.value), l';
    }
    GraftStands(Holding(l, owned), path, slots, sub);
    l' := Graft(l, slots, sub);
    assert Cells(l') - owned <= Cells(sub) - Cells(Sub(l, slots));
    r := Ok(());
  }

  /** The operator: a deep copy of the document is edited in place and then holds what `Edited` says. The document given
      is a value and stays as it is. */
  method ApplyMutation(document: Json, pointer: string, edit: Edit) returns (r: Result<Cell, Error>, ghost l: Layout)
    ensures match Tokens(pointer)
            case Err(e) => r == Err(e)
            case Ok(tokens) =>
              match Edited(document, tokens, edit)
              case Err(e) => r == Err(e)
              case Ok(d) => r == Ok(l.cell) && fresh(Cells(l)) && Stands(l) && Value(l) == d
  {
    hide Cells, Stands, Value, Edited, Tokens;
    var mutated, applied;
    mutated, l := DeepCopy(document);
    ghost var owned := Cells(l);
    label copied:
    applied, l := Mutate(mutated, pointer, edit, l, owned);
    if applied.Err? {
      return Err(applied.error), l;
    }
    ghost var grown := Cells(l) - owned;
    assert fresh@copied(grown);
    assert Cells(l) <= owned + grown && fresh(owned) && fresh(grown);
    r := Ok(mutated);
  }
}
