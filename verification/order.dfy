/** The two string orders the search library sorts codes by.

    `Array.prototype.sort()` without a comparator orders strings by code
    unit; for the Basic Multilingual Plane that is the order of the
    characters themselves, which is `CodeUnitLess` here.

    `a.localeCompare(b)` uses the runtime's collation. For the alphabet of
    licence-plate codes (A–Z, Ä, Ö, Ü) a German or root collation compares
    base letters first (Ä sorts with A, Ö with O, Ü with U) and only then the
    umlaut marks, left to right; `CollateLess` models exactly that, with code
    unit order as the last tie-break so that the relation stays total on all
    strings. */
module Ordering {

  /** Lexicographic order on strings: a proper prefix comes first. */
  predicate LexLess(a: string, b: string)
    decreases |a|
  {
    if |a| == 0 then |b| > 0
    else |b| > 0 && (a[0] < b[0] || (a[0] == b[0] && LexLess(a[1..], b[1..])))
  }

  lemma {:induction false} LexLessIrreflexive(a: string)
    ensures !LexLess(a, a)
    decreases |a|
  {
    if |a| > 0 {
      LexLessIrreflexive(a[1..]);
    }
  }

  lemma {:induction false} LexLessTransitive(a: string, b: string, c: string)
    requires LexLess(a, b) && LexLess(b, c)
    ensures LexLess(a, c)
    decreases |a|
  {
    if |a| > 0 && a[0] == b[0] && b[0] == c[0] {
      LexLessTransitive(a[1..], b[1..], c[1..]);
    }
  }

  lemma {:induction false} LexLessTotal(a: string, b: string)
    requires a != b
    ensures LexLess(a, b) || LexLess(b, a)
    decreases |a|
  {
    if |a| > 0 && |b| > 0 && a[0] == b[0] {
      LexLessTotal(a[1..], b[1..]);
    }
  }

  lemma LexLessAsymmetric(a: string, b: string)
    requires LexLess(a, b)
    ensures !LexLess(b, a)
  {
    if LexLess(b, a) {
      LexLessTransitive(a, b, a);
      LexLessIrreflexive(a);
    }
  }

  /** Default `sort()` order. */
  predicate CodeUnitLess(a: string, b: string) {
    LexLess(a, b)
  }

  predicate IsUmlaut(c: char) {
    c == '\U{C4}' || c == '\U{D6}' || c == '\U{DC}'
  }

  /** The base letter a collation compares first. */
  function BaseLetter(c: char): char {
    if c == '\U{C4}' then 'A'
    else if c == '\U{D6}' then 'O'
    else if c == '\U{DC}' then 'U'
    else c
  }

  function PrimaryKey(s: string): (p: string)
    ensures |p| == |s|
    ensures forall i :: 0 <= i < |s| ==> p[i] == BaseLetter(s[i])
  {
    seq(|s|, i requires 0 <= i < |s| => BaseLetter(s[i]))
  }

  /** Per position, whether the letter carries an umlaut mark. */
  function AccentKey(s: string): (k: string)
    ensures |k| == |s|
    ensures forall i :: 0 <= i < |s| ==> k[i] == if IsUmlaut(s[i]) then '1' else '0'
  {
    seq(|s|, i requires 0 <= i < |s| => if IsUmlaut(s[i]) then '1' else '0')
  }

  /** `a.localeCompare(b) < 0`. */
  predicate CollateLess(a: string, b: string) {
    LexLess(PrimaryKey(a), PrimaryKey(b))
    || (PrimaryKey(a) == PrimaryKey(b)
        && (LexLess(AccentKey(a), AccentKey(b))
            || (AccentKey(a) == AccentKey(b) && LexLess(a, b))))
  }

  lemma CollateLessIrreflexive(a: string)
    ensures !CollateLess(a, a)
  {
    LexLessIrreflexive(PrimaryKey(a));
    LexLessIrreflexive(AccentKey(a));
    LexLessIrreflexive(a);
  }

  lemma CollateLessTransitive(a: string, b: string, c: string)
    requires CollateLess(a, b) && CollateLess(b, c)
    ensures CollateLess(a, c)
  {
    var pa, pb, pc := PrimaryKey(a), PrimaryKey(b), PrimaryKey(c);
    var ka, kb, kc := AccentKey(a), AccentKey(b), AccentKey(c);
    if LexLess(pa, pb) && LexLess(pb, pc) {
      LexLessTransitive(pa, pb, pc);
    } else if pa == pb && pb == pc {
      if LexLess(ka, kb) && LexLess(kb, kc) {
        LexLessTransitive(ka, kb, kc);
      } else if ka == kb && kb == kc {
        LexLessTransitive(a, b, c);
      }
    }
  }

  lemma CollateLessTotal(a: string, b: string)
    requires a != b
    ensures CollateLess(a, b) || CollateLess(b, a)
  {
    var pa, pb := PrimaryKey(a), PrimaryKey(b);
    var ka, kb := AccentKey(a), AccentKey(b);
    if pa != pb {
      LexLessTotal(pa, pb);
    } else if ka != kb {
      LexLessTotal(ka, kb);
    } else {
      LexLessTotal(a, b);
    }
  }

  /** On the plate alphabet the umlaut sorts with its base letter: "BÜD"
      comes before "BUL", although 'Ü' is after 'U' by code unit. */
  lemma CollateExample()
    ensures CollateLess("B\U{DC}D", "BUL")
    ensures CodeUnitLess("BUL", "B\U{DC}D")
  {
    var a, b := "B\U{DC}D", "BUL";
    assert PrimaryKey(a) == "BUD" by {
      assert BaseLetter('B') == 'B' && BaseLetter('\U{DC}') == 'U' && BaseLetter('D') == 'D';
    }
    assert PrimaryKey(b) == "BUL" by {
      assert BaseLetter('B') == 'B' && BaseLetter('U') == 'U' && BaseLetter('L') == 'L';
    }
    assert LexLess("D", "L");
    assert LexLess("UD", "UL");
    assert LexLess("BUD", "BUL");
    assert LexLess("L", "D") == false;
    assert LexLess("UL", "\U{DC}D");
    assert LexLess(b, a);
  }

  /** The two sort orders used for code lists. */
  datatype Order =
    | ByCodeUnits    // `codes.sort()`
    | BySuggestion   // shorter first, then `localeCompare`

  predicate Less(o: Order, a: string, b: string) {
    match o
    case ByCodeUnits => CodeUnitLess(a, b)
    case BySuggestion => |a| < |b| || (|a| == |b| && CollateLess(a, b))
  }

  lemma LessIrreflexive(o: Order, a: string)
    ensures !Less(o, a, a)
  {
    LexLessIrreflexive(a);
    CollateLessIrreflexive(a);
  }

  lemma LessTransitive(o: Order, a: string, b: string, c: string)
    requires Less(o, a, b) && Less(o, b, c)
    ensures Less(o, a, c)
  {
    match o
    case ByCodeUnits => LexLessTransitive(a, b, c);
    case BySuggestion =>
      if |a| == |b| == |c| {
        CollateLessTransitive(a, b, c);
      }
  }

  lemma LessTotal(o: Order, a: string, b: string)
    requires a != b
    ensures Less(o, a, b) || Less(o, b, a)
  {
    match o
    case ByCodeUnits => LexLessTotal(a, b);
    case BySuggestion => CollateLessTotal(a, b);
  }

  predicate IsLeast(o: Order, m: string, s: set<string>) {
    m in s && forall x :: x in s && x != m ==> Less(o, m, x)
  }

  /** Every finite non-empty set of strings has a least element. */
  lemma {:induction false} LeastExists(o: Order, s: set<string>)
    requires s != {}
    ensures exists m :: IsLeast(o, m, s)
    decreases |s|
  {
    var y :| y in s;
    if s == {y} {
      assert IsLeast(o, y, s);
    } else {
      var rest := s - {y};
      LeastExists(o, rest);
      var m :| IsLeast(o, m, rest);
      if Less(o, y, m) {
        forall x | x in s && x != y
          ensures Less(o, y, x)
        {
          if x != m {
            LessTransitive(o, y, m, x);
          }
        }
        assert IsLeast(o, y, s);
      } else {
        LessTotal(o, y, m);
        assert IsLeast(o, m, s);
      }
    }
  }

  predicate Sorted(o: Order, r: seq<string>) {
    forall i, j :: 0 <= i < j < |r| ==> Less(o, r[i], r[j])
  }

  /** The elements of `keys` in ascending order, each exactly once. */
  method SortSet(o: Order, keys: set<string>) returns (r: seq<string>)
    ensures Sorted(o, r)
    ensures forall x :: x in r <==> x in keys
    ensures |r| == |keys|
  {
    r := [];
    var remaining := keys;
    while remaining != {}
      invariant remaining <= keys
      invariant forall x :: x in keys <==> x in r || x in remaining
      invariant forall x :: x in r ==> x !in remaining
      invariant Sorted(o, r)
      invariant forall i, x :: 0 <= i < |r| && x in remaining ==> Less(o, r[i], x)
      invariant |r| + |remaining| == |keys|
      decreases |remaining|
    {
      LeastExists(o, remaining);
      var m :| IsLeast(o, m, remaining);
      r := r + [m];
      remaining := remaining - {m};
    }
  }

  /** A strictly sorted sequence repeats nothing. */
  lemma SortedNoDup(o: Order, r: seq<string>, i: int, j: int)
    requires Sorted(o, r)
    requires 0 <= i < j < |r|
    ensures r[i] != r[j]
  {
    LessIrreflexive(o, r[i]);
  }
}
