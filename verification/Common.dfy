/** Vocabulary shared by the protocol models: optional values, results, digests, and the
    two list checks that several reducers of the lab share. */
module Common {

  datatype Option<+T> = None | Some(value: T)

  datatype Result<+T, +E> = Ok(value: T) | Err(error: E)

  /** The text of a field that should hold a SHA-256 digest. The lab hashes the canonical JSON
      of a tuple; the one assumption made about SHA-256 is that it is injective, and it is made
      here: a digest is known by its preimage. `OtherDigest` is a well-formed digest of anything
      else, and `NotHex` is text that the lab's hexadecimal check refuses. */
  datatype Sha256<+T> = DigestOf(preimage: T) | OtherDigest(text: string) | NotHex(text: string)

  predicate IsSpace(c: char) {
    || '\U{9}' <= c <= '\U{D}' || '\U{1C}' <= c <= ' ' || c == '\U{85}' || c == '\U{A0}'
    || c == '\U{1680}' || '\U{2000}' <= c <= '\U{200A}' || c == '\U{2028}' || c == '\U{2029}'
    || c == '\U{202F}' || c == '\U{205F}' || c == '\U{3000}'
  }

  /** `not value.strip()`. */
  predicate IsBlank(s: string) {
    forall i | 0 <= i < |s| :: IsSpace(s[i])
  }

  /** Text is blank if each of its characters is a space; letters, digits and punctuation are none. */
  lemma BlankIsExact(a: string, b: string, c: char)
    ensures IsBlank("")
    ensures IsBlank(a + b) <==> IsBlank(a) && IsBlank(b)
    ensures '!' <= c <= '~' ==> !IsBlank([c])
    ensures c == ' ' || c == '\t' || c == '\n' || c == '\r' ==> IsBlank([c])
  {
    if IsBlank(a + b) {
      assert forall i | 0 <= i < |a| :: (a + b)[i] == a[i];
      assert forall i | 0 <= i < |b| :: (a + b)[|a| + i] == b[i];
    }
    assert [c][0] == c;
    hide IsSpace;
  }

  ghost predicate Distinct<T>(s: seq<T>) {
    forall i, j | 0 <= i < j < |s| :: s[i] != s[j]
  }

  ghost predicate StrictlyIncreasing(s: seq<int>) {
    forall i, j | 0 <= i < j < |s| :: s[i] < s[j]
  }

  function Elements<T(==)>(s: seq<T>): set<T> {
    set x | x in s
  }

  /** `len(s) == len(set(s))` says exactly that no value occurs twice. */
  lemma {:induction false} CardinalityIffDistinct<T>(s: seq<T>)
    ensures |Elements(s)| <= |s|
    ensures |Elements(s)| == |s| <==> Distinct(s)
  {
    if |s| > 0 {
      var init, last := s[..|s| - 1], s[|s| - 1];
      CardinalityIffDistinct(init);
      assert s == init + [last];
      assert Elements(s) == Elements(init) + {last};
      if last in init {
        assert Elements(s) == Elements(init);
        var k :| 0 <= k < |init| && init[k] == last;
        assert s[k] == s[|s| - 1];
      } else {
        assert last !in Elements(init);
        if Distinct(s) {
          forall i, j | 0 <= i < j < |init| ensures init[i] != init[j] {
            assert s[i] != s[j];
          }
        }
      }
    }
  }

  /** The lab's order check: `s == sorted(s) and len(s) == len(set(s))`. */
  predicate InOrder(s: seq<int>) {
    && (forall i, j | 0 <= i < j < |s| :: s[i] <= s[j])
    && |Elements(s)| == |s|
  }

  lemma InOrderIffStrictlyIncreasing(s: seq<int>)
    ensures InOrder(s) <==> StrictlyIncreasing(s)
  {
    CardinalityIffDistinct(s);
    if InOrder(s) {
      forall i, j | 0 <= i < j < |s| ensures s[i] < s[j] {
        assert s[i] != s[j];
      }
    }
  }

  ghost predicate IsPrefix<T>(a: seq<T>, b: seq<T>) {
    |a| <= |b| && a == b[..|a|]
  }

  /** Distinct values drawn from a finite set are at most as many as the set has. */
  lemma DistinctBounded<T>(s: seq<T>, bound: set<T>)
    requires Distinct(s)
    requires forall x | x in s :: x in bound
    ensures |s| <= |bound|
  {
    CardinalityIffDistinct(s);
    SubsetCardinality(Elements(s), bound);
  }

  lemma {:induction false} SubsetCardinality<T>(a: set<T>, b: set<T>)
    requires a <= b
    ensures |a| <= |b|
  {
    if a != {} {
      var x :| x in a;
      SubsetCardinality(a - {x}, b - {x});
    }
  }

  // ----- the order of text -----

  /** Code-point order, which is the order of the UTF-8 bytes that `ORDER BY` compares. */
  predicate Precedes(a: string, b: string) {
    b != "" && (a == "" || a[0] < b[0] || (a[0] == b[0] && Precedes(a[1..], b[1..])))
  }

  lemma {:induction false} PrecedesIsTotal(a: string, b: string)
    ensures a == b || Precedes(a, b) || Precedes(b, a)
    ensures !(Precedes(a, b) && Precedes(b, a)) && !Precedes(a, a)
  {
    if a != "" {
      PrecedesIsTotal(a[1..], if b == "" then a[1..] else b[1..]);
      assert a == [a[0]] + a[1..];
      assert b != "" ==> b == [b[0]] + b[1..];
    }
  }

  lemma {:induction false} PrecedesIsTransitive(a: string, b: string, c: string)
    requires Precedes(a, b) && Precedes(b, c)
    ensures Precedes(a, c)
  {
    if a != "" && a[0] == b[0] == c[0] {
      PrecedesIsTransitive(a[1..], b[1..], c[1..]);
    }
  }

  predicate IsLeast(x: string, s: set<string>) {
    x in s && forall y | y in s :: y == x || Precedes(x, y)
  }

  lemma {:induction false} LeastExists(s: set<string>) returns (least: string)
    requires s != {}
    ensures IsLeast(least, s)
  {
    least :| least in s;
    var rest := s - {least};
    assert s == rest + {least};
    if rest != {} {
      var other := LeastExists(rest);
      PrecedesIsTotal(least, other);
      if Precedes(other, least) {
        least := other;
      } else {
        forall y | y in s ensures y == least || Precedes(least, y) {
          if y != least && y != other { PrecedesIsTransitive(least, other, y); }
        }
      }
    }
  }

  lemma LeastPrecedes(x: string, s: set<string>)
    requires IsLeast(x, s)
    ensures forall y | y in s - {x} :: Precedes(x, y)
  {
  }

  ghost predicate Ascending(s: seq<string>) {
    forall i, j | 0 <= i < j < |s| :: Precedes(s[i], s[j])
  }
}
