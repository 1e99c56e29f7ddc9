/** JSON pointers, and what an edit where one points makes of a document; `JsonDocument` makes that edit in place. */
module JsonPointer {
  import opened Common

  datatype Json =
    | Null
    | Bool(b: bool)
    | Number(text: string)
    | String(s: string)
    | Array(items: seq<Json>)
    | Object(fields: map<string, Json>)

  datatype Error = ValueError | TypeError | KeyError | IndexError

  /** `Unsupported` is any other operator, and a replacement without a value. */
  datatype Edit = Replace(value: Json) | Remove | Unsupported

  // ----- pointer text -----

  /** `s.replace(a + b, c)`. */
  function ReplacePair(s: string, a: char, b: char, c: char): string {
    if |s| < 2 then s
    else if s[0] == a && s[1] == b then [c] + ReplacePair(s[2..], a, b, c)
    else [s[0]] + ReplacePair(s[1..], a, b, c)
  }

  function Unescape(token: string): string {
    ReplacePair(ReplacePair(token, '~', '1', '/'), '~', '0', '~')
  }

  /** `s.split("/")`. */
  function Split(s: string): (parts: seq<string>)
    ensures parts != []
  {
    if s == "" then [""]
    else
      var rest := Split(s[1..]);
      if s[0] == '/' then [""] + rest else [[s[0]] + rest[0]] + rest[1..]
  }

  function UnescapeAll(parts: seq<string>): seq<string> {
    seq(|parts|, i requires 0 <= i < |parts| => Unescape(parts[i]))
  }

  function Tokens(pointer: string): (r: Result<seq<string>, Error>)
    ensures r.Ok? ==> r.value != []
  {
    if pointer == "" || pointer[0] != '/' then Err(ValueError)
    else
      var tokens := UnescapeAll(Split(pointer[1..]));
      if tokens == [""] then Err(ValueError) else Ok(tokens)
  }

  /** The escape of section 4 of RFC 6901: `~0` for `~` and `~1` for `/`. */
  function EscapeChar(c: char): string {
    if c == '~' then "~0" else if c == '/' then "~1" else [c]
  }

  function Escape(token: string): string {
    if token == "" then "" else EscapeChar(token[0]) + Escape(token[1..])
  }

  function PointerTo(tokens: seq<string>): string {
    if tokens == [] then "" else "/" + Escape(tokens[0]) + PointerTo(tokens[1..])
  }

  /** `token` with only its tildes escaped, as the first of the two replacements leaves it. */
  function HalfEscape(token: string): string {
    if token == "" then "" else (if token[0] == '~' then "~0" else [token[0]]) + HalfEscape(token[1..])
  }

  lemma {:induction false} SlashesComeBack(token: string)
    ensures ReplacePair(Escape(token), '~', '1', '/') == HalfEscape(token)
  {
    if token != "" {
      var c, rest := token[0], Escape(token[1..]);
      SlashesComeBack(token[1..]);
      PairAtFront(EscapeChar(c), rest, '1', '/');
    }
  }

  /** One escaped character is replaced independently of what follows it. */
  lemma PairAtFront(e: string, rest: string, b: char, c: char)
    requires (|e| == 1 && e[0] != '~') || (|e| == 2 && e[0] == '~' && e[1] != '~')
    ensures ReplacePair(e + rest, '~', b, c)
        == (if |e| == 2 && e[1] == b then [c] else e) + ReplacePair(rest, '~', b, c)
  {
    var s := e + rest;
    if |e| == 1 {
      assert s[1..] == rest;
      if rest == "" { assert s == e; }
    } else {
      assert s[2..] == rest;
      if e[1] != b {
        assert s[1..] == [e[1]] + rest && s[1..][1..] == rest;
        assert ReplacePair(s[1..], '~', b, c) == [e[1]] + ReplacePair(rest, '~', b, c);
      }
    }
  }

  lemma {:induction false} TildesComeBack(token: string)
    ensures ReplacePair(HalfEscape(token), '~', '0', '~') == token
  {
    if token != "" {
      TildesComeBack(token[1..]);
      var e := if token[0] == '~' then "~0" else [token[0]];
      PairAtFront(e, HalfEscape(token[1..]), '0', '~');
      assert token == [token[0]] + token[1..];
    }
  }

  lemma UnescapeEscape(token: string)
    ensures Unescape(Escape(token)) == token
  {
    SlashesComeBack(token);
    TildesComeBack(token);
  }

  lemma {:induction false} EscapeHasNoSlash(token: string)
    ensures forall i | 0 <= i < |Escape(token)| :: Escape(token)[i] != '/'
  {
    if token != "" {
      EscapeHasNoSlash(token[1..]);
    }
  }

  lemma {:induction false} SplitAtSlash(part: string, rest: string)
    requires forall i | 0 <= i < |part| :: part[i] != '/'
    ensures Split(part) == [part]
    ensures Split(part + "/" + rest) == [part] + Split(rest)
  {
    if part == "" {
      assert part + "/" + rest == "/" + rest;
      assert ("/" + rest)[1..] == rest;
    } else {
      SplitAtSlash(part[1..], rest);
      assert (part + "/" + rest)[1..] == part[1..] + "/" + rest;
      assert part == [part[0]] + part[1..];
    }
  }

  lemma UnescapeAllParts(first: string, rest: seq<string>)
    ensures UnescapeAll([first] + rest) == [Unescape(first)] + UnescapeAll(rest)
  {
    hide Unescape;
  }

  lemma {:induction false} SplitPointer(tokens: seq<string>)
    requires tokens != []
    ensures UnescapeAll(Split(PointerTo(tokens)[1..])) == tokens
  {
    hide Split, Unescape, Escape, UnescapeAll;
    var first, rest := Escape(tokens[0]), PointerTo(tokens[1..]);
    EscapeHasNoSlash(tokens[0]);
    UnescapeEscape(tokens[0]);
    UnescapeAllParts(first, []);
    if |tokens| == 1 {
      assert rest == "" && PointerTo(tokens)[1..] == first;
      SplitAtSlash(first, "");
      assert [first] + [] == [first];
      NoParts();
    } else {
      SplitPointer(tokens[1..]);
      assert rest == "/" + rest[1..];
      assert PointerTo(tokens)[1..] == first + "/" + rest[1..];
      SplitAtSlash(first, rest[1..]);
      UnescapeAllParts(first, Split(rest[1..]));
      assert tokens == [tokens[0]] + tokens[1..];
    }
  }

  lemma NoParts()
    ensures UnescapeAll([]) == []
  {
  }

  /** Every token list is read back from its pointer, but the two that point at no child. */
  lemma TokensReadBackIff(tokens: seq<string>)
    ensures Tokens(PointerTo(tokens)) == Ok(tokens) <==> tokens != [] && tokens != [""]
  {
    if tokens != [] {
      SplitPointer(tokens);
    }
  }

  ghost predicate HasPair(s: string, a: char, b: char) {
    exists i :: PairAt(s, i, a, b)
  }

  predicate PairAt(s: string, i: int, a: char, b: char) {
    0 <= i < |s| - 1 && s[i] == a && s[i + 1] == b
  }

  lemma PairShifts(s: string, a: char, b: char)
    requires s != "" && !HasPair(s, a, b)
    ensures !HasPair(s[1..], a, b) && !PairAt(s, 0, a, b)
  {
    if i :| PairAt(s[1..], i, a, b) {
      assert PairAt(s, i + 1, a, b);
    }
  }

  /** Text without the pair stays as it is. */
  lemma {:induction false} NoPairStays(p: string, a: char, b: char, c: char)
    requires !HasPair(p, a, b)
    ensures ReplacePair(p, a, b, c) == p
    decreases |p|
  {
    if |p| > 1 {
      PairShifts(p, a, b);
      NoPairStays(p[1..], a, b, c);
      assert p == [p[0]] + p[1..];
    }
  }

  lemma ReplaceOneStep(s: string, a: char, b: char, c: char)
    requires |s| > 1 && !PairAt(s, 0, a, b)
    ensures ReplacePair(s, a, b, c) == [s[0]] + ReplacePair(s[1..], a, b, c)
  {
  }

  /** The first pair of a text is replaced, and the rest is treated alike. */
  lemma {:induction false} FirstPairIsReplaced(p: string, q: string, a: char, b: char, c: char)
    requires a != b && !HasPair(p, a, b)
    ensures ReplacePair(p + [a, b] + q, a, b, c) == p + [c] + ReplacePair(q, a, b, c)
    decreases |p|
  {
    var s := p + [a, b] + q;
    if p == "" {
      assert s[2..] == q && s[0] == a && s[1] == b;
    } else {
      hide ReplacePair;
      PairShifts(p, a, b);
      FirstPairIsReplaced(p[1..], q, a, b, c);
      assert s[1..] == p[1..] + [a, b] + q;
      assert p == [p[0]] + p[1..];
      assert s[1] == if |p| == 1 then a else p[1];
      ReplaceOneStep(s, a, b, c);
    }
  }

  lemma ReplacedIsNonempty(s: string, a: char, b: char, c: char)
    requires s != ""
    ensures ReplacePair(s, a, b, c) != ""
  {
  }

  lemma OnlyEmptyIsEmpty(parts: seq<string>)
    ensures UnescapeAll(parts) == [""] <==> parts == [""]
  {
    if |parts| == 1 && parts[0] != "" {
      ReplacedIsNonempty(parts[0], '~', '1', '/');
      ReplacedIsNonempty(ReplacePair(parts[0], '~', '1', '/'), '~', '0', '~');
      assert UnescapeAll(parts)[0] == Unescape(parts[0]);
    } else if parts == [""] {
      assert UnescapeAll(parts)[0] == Unescape("");
    }
  }

  lemma SplitIsNotEmpty(s: string)
    requires s != ""
    ensures Split(s) != [""]
  {
    var rest := Split(s[1..]);
    if s[0] == '/' {
      assert |[""] + rest| > 1;
    } else {
      assert ([[s[0]] + rest[0]] + rest[1..])[0] == [s[0]] + rest[0];
    }
  }

  /** A pointer is refused exactly if it is not absolute or points at no child. */
  lemma RefusedPointers(pointer: string)
    ensures Tokens(pointer).Err? <==> pointer == "" || pointer[0] != '/' || pointer == "/"
    ensures Tokens(pointer).Err? ==> Tokens(pointer) == Err(ValueError)
  {
    if pointer != "" && pointer[0] == '/' {
      OnlyEmptyIsEmpty(Split(pointer[1..]));
      assert pointer == "/" + pointer[1..];
      hide UnescapeAll;
      if pointer[1..] != "" {
        SplitIsNotEmpty(pointer[1..]);
      }
    }
  }

  // ----- list indices -----

  predicate AllDigits(s: string) {
    forall i | 0 <= i < |s| :: '0' <= s[i] <= '9'
  }

  predicate IsDigits(s: string) {
    s != "" && AllDigits(s)
  }

  function DigitsValue(s: string): nat
    requires AllDigits(s)
  {
    if s == "" then 0 else 10 * DigitsValue(s[..|s| - 1]) + (s[|s| - 1] as int - '0' as int)
  }

  /** `int(token)` for a decimal numeral with an optional sign. */
  function ParseInt(token: string): Option<int> {
    if IsDigits(token) then
      var v: int := DigitsValue(token);
      Some(v)
    else if token != "" && token[0] in "+-" && IsDigits(token[1..]) then
      var v: int := DigitsValue(token[1..]);
      Some(if token[0] == '-' then -v else v)
    else None
  }

  /** The place that `int(token)` denotes in a list of `n`; a negative index counts from the end. */
  function Place(token: string, n: nat): (r: Result<nat, Error>)
    ensures r.Ok? ==> r.value < n
  {
    match ParseInt(token)
    case None => Err(ValueError)
    case Some(v) => if 0 <= v < n then Ok(v) else if v < 0 <= v + n then Ok(v + n) else Err(IndexError)
  }

  /** Decimal digits with an optional sign denote their value; other text denotes nothing. */
  lemma ParseIntIsExact(token: string)
    ensures ParseInt(token).Some? <==>
      IsDigits(token) || (token != "" && (token[0] == '+' || token[0] == '-') && IsDigits(token[1..]))
    ensures IsDigits(token) ==> ParseInt(token).Some? && ParseInt(token).value == DigitsValue(token)
  {
    hide DigitsValue, IsDigits;
  }

  lemma SignedDigits(digits: string)
    requires IsDigits(digits)
    ensures ParseInt("+" + digits).Some? && ParseInt("+" + digits).value == DigitsValue(digits)
    ensures ParseInt("-" + digits).Some? && ParseInt("-" + digits).value + DigitsValue(digits) == 0
  {
    var plus, minus := "+" + digits, "-" + digits;
    assert plus[0] == '+' && plus[1..] == digits && minus[0] == '-' && minus[1..] == digits;
    SignIsNoDigit(plus);
    SignIsNoDigit(minus);
    hide DigitsValue, IsDigits;
  }

  lemma SignIsNoDigit(token: string)
    requires token != "" && (token[0] == '+' || token[0] == '-')
    ensures !IsDigits(token)
  {
    assert token[0] < '0';
  }

  lemma DigitsAreDecimal(s: string, d: char)
    requires AllDigits(s) && '0' <= d <= '9'
    ensures AllDigits(s + [d]) && DigitsValue(s + [d]) == 10 * DigitsValue(s) + (d as int - '0' as int)
    ensures DigitsValue("") == 0
  {
    assert (s + [d])[..|s|] == s;
  }

  /** A numeral names the item at it, or that many from the end. */
  lemma PlaceIsExact(token: string, n: nat)
    ensures var r, v := Place(token, n), ParseInt(token);
            && (r == Err(ValueError) <==> v.None?)
            && (r == Err(IndexError) <==> v.Some? && (v.value >= n || v.value + n < 0))
            && (r.Ok? <==> v.Some? && v.value < n && 0 <= v.value + n)
            && (r.Ok? ==> r.value == if v.value >= 0 then v.value else v.value + n)
  {
    hide ParseInt;
  }

  /** A numeral as RFC 6901 writes an index: no sign and no leading zero. */
  predicate Canonical(token: string) {
    IsDigits(token) && (token[0] == '0' ==> |token| == 1)
  }

  lemma {:induction false} CanonicalIsInjective(s: string, t: string)
    requires Canonical(s) && Canonical(t) && DigitsValue(s) == DigitsValue(t)
    ensures s == t
  {
    var a, b := s[..|s| - 1], t[..|t| - 1];
    assert s == a + [s[|s| - 1]] && t == b + [t[|t| - 1]];
    assert DigitsValue(a) == DigitsValue(b) && s[|s| - 1] == t[|t| - 1];
    if a != "" {
      assert a[0] == s[0] && AllDigits(a);
      CanonicalIsPositive(a);
    }
    if b != "" {
      assert b[0] == t[0] && AllDigits(b);
      CanonicalIsPositive(b);
    }
    if a != "" && b != "" {
      CanonicalIsInjective(a, b);
    }
  }

  lemma {:induction false} CanonicalIsPositive(s: string)
    requires IsDigits(s) && s[0] != '0'
    ensures DigitsValue(s) > 0
  {
    if |s| > 1 {
      var init := s[..|s| - 1];
      assert init[0] == s[0] && AllDigits(init);
      CanonicalIsPositive(init);
    }
  }

  // ----- reading and editing a tree -----

  function Step(doc: Json, token: string): (r: Result<Json, Error>) {
    match doc
    case Array(items) =>
      (match Place(token, |items|) case Ok(i) => Ok(items[i]) case Err(e) => Err(e))
    case Object(fields) => if token in fields then Ok(fields[token]) else Err(KeyError)
    case _ => Err(TypeError)
  }

  function Lookup(doc: Json, tokens: seq<string>): Result<Json, Error> {
    if tokens == [] then Ok(doc)
    else match Step(doc, tokens[0]) case Ok(child) => Lookup(child, tokens[1..]) case Err(e) => Err(e)
  }

  /** A step fails on a scalar, at a missing key, or where the token names no item. */
  lemma StepIsExact(doc: Json, token: string)
    ensures var r := Step(doc, token);
            && (r == Err(TypeError) <==> !doc.Array? && !doc.Object?)
            && (r == Err(KeyError) <==> doc.Object? && token !in doc.fields)
            && (r == Err(ValueError) <==> doc.Array? && Place(token, |doc.items|) == Err(ValueError))
            && (r == Err(IndexError) <==> doc.Array? && Place(token, |doc.items|) == Err(IndexError))
            && (doc.Object? && token in doc.fields ==> r == Ok(doc.fields[token]))
            && (doc.Array? && Place(token, |doc.items|).Ok? ==> r == Ok(doc.items[Place(token, |doc.items|).value]))
  {
    PlaceIsOneOf(token, if doc.Array? then |doc.items| else 0);
    hide Place;
  }

  lemma PlaceIsOneOf(token: string, n: nat)
    ensures Place(token, n).Ok? || Place(token, n) == Err(ValueError) || Place(token, n) == Err(IndexError)
  {
    hide ParseInt;
  }

  /** `doc` with its child under `token` replaced. */
  function Put(doc: Json, token: string, child: Json): Json
    requires Step(doc, token).Ok?
  {
    match doc
    case Array(items) => Array(items[Place(token, |items|).value := child])
    case Object(fields) => Object(fields[token := child])
  }

  /** The edit of the last token, made in its parent. */
  function EditNode(parent: Json, token: string, edit: Edit): Result<Json, Error> {
    if edit.Unsupported? then Err(ValueError)
    else match parent
      case Array(items) =>
        (match Place(token, |items|)
         case Err(e) => Err(e)
         case Ok(i) => Ok(Array(if edit.Replace? then items[i := edit.value] else items[..i] + items[i + 1..])))
      case Object(fields) =>
        if token !in fields then Err(KeyError)
        else Ok(Object(if edit.Replace? then fields[token := edit.value] else fields - {token}))
      case _ => Err(ValueError)
  }

  /** `doc` with its subtree at `tokens` replaced. */
  function PutAt(doc: Json, tokens: seq<string>, subtree: Json): Json
    requires Lookup(doc, tokens).Ok?
  {
    if tokens == [] then subtree
    else Put(doc, tokens[0], PutAt(Step(doc, tokens[0]).value, tokens[1..], subtree))
  }

  /** What an edit at `tokens` makes of a document: the parent is edited, the rest is kept. */
  function Edited(doc: Json, tokens: seq<string>, edit: Edit): Result<Json, Error>
    requires tokens != []
  {
    var above, last := tokens[..|tokens| - 1], tokens[|tokens| - 1];
    match Lookup(doc, above)
    case Err(e) => Err(e)
    case Ok(parent) =>
      match EditNode(parent, last, edit)
      case Err(e) => Err(e)
      case Ok(node) => Ok(PutAt(doc, above, node))
  }

  /** An edit of a parent fails on a scalar, for an unsupported operator, at a missing key, or where the token names
      no item. */
  lemma EditIsExact(parent: Json, token: string, edit: Edit)
    ensures var r := EditNode(parent, token, edit);
            && (r == Err(ValueError) <==>
                  || edit.Unsupported? || (!parent.Array? && !parent.Object?)
                  || (parent.Array? && Place(token, |parent.items|) == Err(ValueError)))
            && (r == Err(KeyError) <==> !edit.Unsupported? && parent.Object? && token !in parent.fields)
            && (r == Err(IndexError) <==>
                  !edit.Unsupported? && parent.Array? && Place(token, |parent.items|) == Err(IndexError))
            && r != Err(TypeError)
  {
    PlaceIsOneOf(token, if parent.Array? then |parent.items| else 0);
    hide Place;
  }

  /** A lookup fails as its first failing step does. */
  lemma LookupFailsAtFirst(doc: Json, path: seq<string>, k: nat, e: Error)
    requires k < |path| && Lookup(doc, path[..k]).Ok? && Step(Lookup(doc, path[..k]).value, path[k]) == Err(e)
    ensures Lookup(doc, path) == Err(e)
  {
    assert path == path[..k] + path[k..];
    LookupConcat(doc, path[..k], path[k..]);
  }

  /** An edit fails as the walk to the parent does, or as the edit of the parent does. */
  lemma EditedFails(doc: Json, path: seq<string>, edit: Edit)
    requires path != []
    ensures var above, last := path[..|path| - 1], path[|path| - 1];
            && (Lookup(doc, above).Err? ==> Edited(doc, path, edit) == Err(Lookup(doc, above).error))
            && (Lookup(doc, above).Ok? ==>
                  && (Edited(doc, path, edit).Ok? <==> EditNode(Lookup(doc, above).value, last, edit).Ok?)
                  && (Edited(doc, path, edit).Err? ==>
                        EditNode(Lookup(doc, above).value, last, edit) == Err(Edited(doc, path, edit).error)))
  {
    hide EditNode, Lookup;
  }

  // ----- laws -----

  lemma StepPut(doc: Json, token: string, child: Json)
    requires Step(doc, token).Ok?
    ensures Step(Put(doc, token, child), token) == Ok(child)
    ensures Put(doc, token, Step(doc, token).value) == doc
    ensures forall t | SameChild(doc, token, t) == false :: Step(Put(doc, token, child), t) == Step(doc, t)
    ensures forall t :: SameChild(Put(doc, token, child), token, t) == SameChild(doc, token, t)
  {
  }

  /** Two tokens name the same child of a node. */
  predicate SameChild(doc: Json, s: string, t: string) {
    match doc
    case Array(items) => Place(s, |items|).Ok? && Place(t, |items|) == Place(s, |items|)
    case _ => s == t
  }

  lemma {:induction false} LookupConcat(doc: Json, p: seq<string>, q: seq<string>)
    ensures Lookup(doc, p + q) == match Lookup(doc, p) case Ok(d) => Lookup(d, q) case Err(e) => Err(e)
  {
    if p == [] {
      assert p + q == q;
    } else {
      assert (p + q)[1..] == p[1..] + q;
      if Step(doc, p[0]).Ok? {
        LookupConcat(Step(doc, p[0]).value, p[1..], q);
      }
    }
  }

  lemma {:induction false} LookupPutAt(doc: Json, p: seq<string>, subtree: Json)
    requires Lookup(doc, p).Ok?
    ensures Lookup(PutAt(doc, p, subtree), p) == Ok(subtree)
    ensures PutAt(doc, p, Lookup(doc, p).value) == doc
  {
    if p != [] {
      var child := Step(doc, p[0]).value;
      LookupPutAt(child, p[1..], subtree);
      StepPut(doc, p[0], PutAt(child, p[1..], subtree));
      StepPut(doc, p[0], child);
    }
  }

  /** Replacing is putting a subtree where the pointer points. */
  lemma {:induction false} ReplaceIsPutAt(doc: Json, p: seq<string>, value: Json)
    requires p != []
    ensures Edited(doc, p, Replace(value)).Ok? <==> Lookup(doc, p).Ok?
    ensures Lookup(doc, p).Ok? ==> Edited(doc, p, Replace(value)) == Ok(PutAt(doc, p, value))
  {
    if |p| == 1 {
      assert p[..0] == [] && p[1..] == [];
    } else {
      var above := p[..|p| - 1];
      assert above[0] == p[0] && above[1..] == p[1..][..|p| - 2];
      if Step(doc, p[0]).Ok? {
        ReplaceIsPutAt(Step(doc, p[0]).value, p[1..], value);
      }
    }
  }

  /** A replaced path reads the new value, and every path below it reads what the new value holds. */
  lemma ReadAfterReplace(doc: Json, p: seq<string>, value: Json, below: seq<string>)
    requires p != [] && Edited(doc, p, Replace(value)).Ok?
    ensures Lookup(Edited(doc, p, Replace(value)).value, p + below) == Lookup(value, below)
  {
    ReplaceIsPutAt(doc, p, value);
    LookupPutAt(doc, p, value);
    LookupConcat(PutAt(doc, p, value), p, below);
  }

  /** The paths part at a node where they name different children. */
  predicate Part(doc: Json, p: seq<string>, q: seq<string>) {
    && p != [] && q != []
    && (SameChild(doc, p[0], q[0]) ==> Step(doc, p[0]).Ok? && Part(Step(doc, p[0]).value, p[1..], q[1..]))
  }

  lemma SameChildSteps(doc: Json, s: string, t: string)
    requires SameChild(doc, s, t)
    ensures Step(doc, s) == Step(doc, t)
  {
  }

  lemma {:induction false} PutAtElsewhere(doc: Json, p: seq<string>, subtree: Json, q: seq<string>)
    requires Lookup(doc, p).Ok? && Part(doc, p, q)
    ensures Lookup(PutAt(doc, p, subtree), q) == Lookup(doc, q)
  {
    var child := Step(doc, p[0]).value;
    var child' := PutAt(child, p[1..], subtree);
    StepPut(doc, p[0], child');
    if SameChild(doc, p[0], q[0]) {
      SameChildSteps(doc, p[0], q[0]);
      SameChildSteps(Put(doc, p[0], child'), p[0], q[0]);
      PutAtElsewhere(child, p[1..], subtree, q[1..]);
    }
  }

  /** Every path that parts from the replaced one reads what it read before, a missing one included. */
  lemma ReplaceElsewhere(doc: Json, p: seq<string>, value: Json, q: seq<string>)
    requires p != [] && Edited(doc, p, Replace(value)).Ok? && Part(doc, p, q)
    ensures Lookup(Edited(doc, p, Replace(value)).value, q) == Lookup(doc, q)
  {
    ReplaceIsPutAt(doc, p, value);
    PutAtElsewhere(doc, p, value, q);
  }

  predicate CanonicalPath(doc: Json, p: seq<string>) {
    p != [] && Step(doc, p[0]).Ok? ==>
      (doc.Array? ==> Canonical(p[0])) && CanonicalPath(Step(doc, p[0]).value, p[1..])
  }

  lemma PrefixOfRest(p: seq<string>, q: seq<string>)
    requires p != [] && q != [] && p[0] == q[0]
    ensures IsPrefix(p, q) <==> IsPrefix(p[1..], q[1..])
  {
    assert p == [p[0]] + p[1..] && q == [q[0]] + q[1..];
  }

  /** With canonical indices, two paths of which neither continues the other part. */
  lemma {:induction false} CanonicalPathsPart(doc: Json, p: seq<string>, q: seq<string>)
    requires CanonicalPath(doc, p) && CanonicalPath(doc, q) && Lookup(doc, p).Ok?
    requires !IsPrefix(p, q) && !IsPrefix(q, p)
    ensures Part(doc, p, q)
  {
    if SameChild(doc, p[0], q[0]) {
      SameChildSteps(doc, p[0], q[0]);
      if doc.Array? {
        CanonicalIsInjective(p[0], q[0]);
      }
      PrefixOfRest(p, q);
      PrefixOfRest(q, p);
      CanonicalPathsPart(Step(doc, p[0]).value, p[1..], q[1..]);
    }
  }

  lemma PutTwice(doc: Json, token: string, a: Json, b: Json)
    requires Step(doc, token).Ok?
    ensures Step(Put(doc, token, a), token) == Ok(a) && Put(Put(doc, token, a), token, b) == Put(doc, token, b)
  {
    hide Place;
  }

  lemma {:induction false} PutAtTwice(doc: Json, p: seq<string>, a: Json, b: Json)
    requires Lookup(doc, p).Ok?
    ensures Lookup(PutAt(doc, p, a), p).Ok? && PutAt(PutAt(doc, p, a), p, b) == PutAt(doc, p, b)
  {
    LookupPutAt(doc, p, a);
    if p != [] {
      hide Step, Put;
      var child := Step(doc, p[0]).value;
      PutTwice(doc, p[0], PutAt(child, p[1..], a), PutAt(child, p[1..], b));
      PutAtTwice(child, p[1..], a, b);
    }
  }

  /** Putting the old value back restores the document. */
  lemma ReplaceIsUndone(doc: Json, p: seq<string>, value: Json)
    requires p != [] && Edited(doc, p, Replace(value)).Ok?
    ensures Lookup(doc, p).Ok?
    ensures Edited(Edited(doc, p, Replace(value)).value, p, Replace(Lookup(doc, p).value)) == Ok(doc)
  {
    ReplaceIsPutAt(doc, p, value);
    PutAtTwice(doc, p, value, Lookup(doc, p).value);
    LookupPutAt(doc, p, value);
    ReplaceIsPutAt(PutAt(doc, p, value), p, Lookup(doc, p).value);
  }

  /** `after` is `before` without what `token` names: a missing key, or a list whose later items moved down by one. */
  ghost predicate LacksChild(before: Json, after: Json, token: string) {
    match before
    case Object(fields) =>
      && token in fields && after.Object?
      && after.fields.Keys == fields.Keys - {token}
      && forall k | k in after.fields :: after.fields[k] == fields[k]
    case Array(items) =>
      && Place(token, |items|).Ok? && after.Array?
      && |after.items| == |items| - 1
      && forall i | 0 <= i < |after.items| ::
          after.items[i] == items[if i < Place(token, |items|).value then i else i + 1]
    case _ => false
  }

  lemma RemovedNode(parent: Json, token: string)
    ensures EditNode(parent, token, Remove).Ok? <==> Step(parent, token).Ok?
    ensures EditNode(parent, token, Remove).Ok? ==> LacksChild(parent, EditNode(parent, token, Remove).value, token)
  {
    hide Place;
    match parent {
      case Array(items) =>
        if Place(token, |items|).Ok? { WithoutItem(items, Place(token, |items|).value); }
      case Object(fields) =>
        assert (fields - {token}).Keys == fields.Keys - {token};
      case _ =>
    }
  }

  lemma WithoutItem(items: seq<Json>, i: nat)
    requires i < |items|
    ensures var rest := items[..i] + items[i + 1..];
            |rest| == |items| - 1 && forall k | 0 <= k < |rest| :: rest[k] == items[if k < i then k else k + 1]
  {
  }

  /** A removal succeeds exactly where there is a value, and takes away that value only. */
  lemma ReadAfterRemove(doc: Json, p: seq<string>)
    requires p != []
    ensures Edited(doc, p, Remove).Ok? <==> Lookup(doc, p).Ok?
    ensures Edited(doc, p, Remove).Ok? ==>
      var above := p[..|p| - 1];
      && Lookup(doc, above).Ok?
      && Lookup(Edited(doc, p, Remove).value, above).Ok?
      && Edited(doc, p, Remove).value == PutAt(doc, above, Lookup(Edited(doc, p, Remove).value, above).value)
      && LacksChild(Lookup(doc, above).value, Lookup(Edited(doc, p, Remove).value, above).value, p[|p| - 1])
  {
    hide Step, EditNode, LacksChild;
    var above, last := p[..|p| - 1], p[|p| - 1];
    assert p == above + [last];
    LookupConcat(doc, above, [last]);
    if Lookup(doc, above).Ok? {
      var parent := Lookup(doc, above).value;
      RemovedNode(parent, last);
      OneStep(parent, last);
      if EditNode(parent, last, Remove).Ok? {
        LookupPutAt(doc, above, EditNode(parent, last, Remove).value);
      }
    }
  }

  lemma OneStep(doc: Json, token: string)
    ensures Lookup(doc, [token]) == Step(doc, token)
  {
  }
}
