/** Canonicalisation of licence-plate prefixes typed by the user
    (src/lib/normalize.ts): trim, uppercase, keep only A–Z and Ä/Ö/Ü, cut to
    three characters; parsing of whitespace-separated code lists; and the
    validity test built on normalisation. */
module Normalize {
  import opened Text
  import opened JsonValues

  /** The characters JavaScript's `\s` and `String.prototype.trim` treat as
      white space or line terminators. */
  predicate IsWhitespace(c: char) {
    c == ' ' || c == '\t' || c == '\n' || c == '\r' || c == '\U{0B}' || c == '\U{0C}'
    || c == '\U{A0}' || c == '\U{1680}' || ('\U{2000}' <= c <= '\U{200A}')
    || c == '\U{2028}' || c == '\U{2029}' || c == '\U{202F}' || c == '\U{205F}'
    || c == '\U{3000}' || c == '\U{FEFF}'
  }

  /** The letters a plate prefix may contain: A–Z, Ä, Ö, Ü. */
  predicate IsCodeLetter(c: char) {
    ('A' <= c <= 'Z') || c == '\U{C4}' || c == '\U{D6}' || c == '\U{DC}'
  }

  predicate AllCodeLetters(s: string) {
    forall i :: 0 <= i < |s| ==> IsCodeLetter(s[i])
  }

  /** A well-formed prefix: one to three allowed letters. */
  predicate IsCodeShape(s: string) {
    1 <= |s| <= 3 && AllCodeLetters(s)
  }

  function TrimStart(s: string): (r: string)
    ensures |r| <= |s|
    ensures r == s[|s| - |r|..]
    ensures |r| > 0 ==> !IsWhitespace(r[0])
    ensures forall j :: 0 <= j < |s| - |r| ==> IsWhitespace(s[j])
  {
    if |s| > 0 && IsWhitespace(s[0]) then TrimStart(s[1..]) else s
  }

  function TrimEnd(s: string): (r: string)
    ensures |r| <= |s|
    ensures r == s[..|r|]
    ensures |r| > 0 ==> !IsWhitespace(r[|r| - 1])
    ensures forall j :: |r| <= j < |s| ==> IsWhitespace(s[j])
  {
    if |s| > 0 && IsWhitespace(s[|s| - 1]) then TrimEnd(s[..|s| - 1]) else s
  }

  /** `String.prototype.trim`. */
  function Trim(s: string): string {
    TrimEnd(TrimStart(s))
  }

  /** `String.prototype.toUpperCase` on one character. Besides the ASCII
      letters and ä/ö/ü, the table lists every unconditional Unicode case
      mapping whose result contains a Latin letter (ß → SS, the ligatures,
      letters followed by a combining mark); any other character's uppercase
      form is neither an allowed letter nor white space, so it is kept as is. */
  function UpperChar(c: char): string {
    if 'a' <= c <= 'z' then [(c as int - 32) as char]
    else if c == '\U{E4}' then "\U{C4}"
    else if c == '\U{F6}' then "\U{D6}"
    else if c == '\U{FC}' then "\U{DC}"
    else if c == '\U{DF}' then "SS"
    else if c == '\U{131}' then "I"
    else if c == '\U{17F}' then "S"
    else if c == '\U{149}' then "\U{2BC}N"
    else if c == '\U{1F0}' then "J\U{30C}"
    else if c == '\U{1E96}' then "H\U{331}"
    else if c == '\U{1E97}' then "T\U{308}"
    else if c == '\U{1E98}' then "W\U{30A}"
    else if c == '\U{1E99}' then "Y\U{30A}"
    else if c == '\U{1E9A}' then "A\U{2BE}"
    else if c == '\U{FB00}' then "FF"
    else if c == '\U{FB01}' then "FI"
    else if c == '\U{FB02}' then "FL"
    else if c == '\U{FB03}' then "FFI"
    else if c == '\U{FB04}' then "FFL"
    else if c == '\U{FB05}' || c == '\U{FB06}' then "ST"
    else [c]
  }

  /** `String.prototype.toUpperCase`. */
  function Upper(s: string): string {
    if |s| == 0 then "" else UpperChar(s[0]) + Upper(s[1..])
  }

  /** The letter filter of `normalizeKfzCode`: every character outside
      A–Z, Ä, Ö and Ü is removed. The source writes the umlauts of this
      class in a mis-decoded form; the model uses the letters it names. */
  function KeepCodeLetters(s: string): (r: string)
    ensures AllCodeLetters(r)
    ensures |r| <= |s|
  {
    if |s| == 0 then ""
    else if IsCodeLetter(s[0]) then [s[0]] + KeepCodeLetters(s[1..])
    else KeepCodeLetters(s[1..])
  }

  /** Letter filtering works character by character: it distributes over
      concatenation ... */
  lemma {:induction false} KeepCodeLettersAppend(a: string, b: string)
    ensures KeepCodeLetters(a + b) == KeepCodeLetters(a) + KeepCodeLetters(b)
    decreases |a|
  {
    if |a| == 0 {
      assert a + b == b;
    } else {
      assert (a + b)[0] == a[0];
      assert (a + b)[1..] == a[1..] + b;
      KeepCodeLettersAppend(a[1..], b);
    }
  }

  /** ... and keeps a single character exactly when it is an allowed letter.
      Together: every allowed letter is kept, in order, and nothing else. */
  lemma KeepCodeLettersChar(c: char)
    ensures KeepCodeLetters([c]) == if IsCodeLetter(c) then [c] else ""
  {
    assert [c][1..] == "";
  }

  /** The normalised code is the first three (or fewer, when there are
      fewer) allowed letters of the trimmed, uppercased input. */
  lemma NormalizeIsFirstThreeLetters(input: string)
    ensures var letters := KeepCodeLetters(Upper(Trim(input)));
      |NormalizeKfzCode(input)| == (if |letters| < 3 then |letters| else 3)
      && IsPrefix(NormalizeKfzCode(input), letters)
  {
  }

  /** `normalizeKfzCode` on a string argument. */
  function NormalizeKfzCode(input: string): (r: string)
    ensures |r| <= 3
    ensures AllCodeLetters(r)
  {
    var letters := KeepCodeLetters(Upper(Trim(input)));
    letters[..if |letters| < 3 then |letters| else 3]
  }

  /** `normalizeKfzCode` on an arbitrary value: `null`, `undefined`, numbers
      and the empty string all give `''`. */
  function NormalizeValue(input: Json): (r: string)
    ensures !(input.JStr? && input.s != "") ==> r == ""
    ensures input.JStr? ==> r == NormalizeKfzCode(input.s)
  {
    if !Truthy(input) || !input.JStr? then "" else NormalizeKfzCode(input.s)
  }

  /** `isValidKfzCode`: a value is accepted exactly when it normalises to a
      non-empty prefix, so over-long input is valid because it is cut. */
  function IsValidKfzCode(code: Json): (r: bool)
    ensures r <==> code.JStr? && NormalizeKfzCode(code.s) != ""
  {
    if !Truthy(code) || !code.JStr? then false
    else
      var normalized := NormalizeKfzCode(code.s);
      1 <= |normalized| <= 3
  }

  // ---------------------------------------------------------------------
  // Idempotence and fixed points of normalisation

  /** Uppercasing leaves a string alone when it leaves each character alone. */
  lemma {:induction false} UpperIdentity(s: string)
    requires forall i :: 0 <= i < |s| ==> UpperChar(s[i]) == [s[i]]
    ensures Upper(s) == s
  {
    if |s| > 0 {
      assert forall i :: 0 <= i < |s[1..]| ==> UpperChar(s[1..][i]) == [s[1..][i]] by {
        forall i | 0 <= i < |s[1..]| ensures UpperChar(s[1..][i]) == [s[1..][i]] {
          assert s[1..][i] == s[i + 1];
        }
      }
      UpperIdentity(s[1..]);
    }
  }

  lemma UpperOfCodeLetters(s: string)
    requires AllCodeLetters(s)
    ensures Upper(s) == s
  {
    UpperIdentity(s);
  }

  lemma {:induction false} KeepCodeLettersOfCodeLetters(s: string)
    requires AllCodeLetters(s)
    ensures KeepCodeLetters(s) == s
  {
    if |s| > 0 {
      assert AllCodeLetters(s[1..]);
      KeepCodeLettersOfCodeLetters(s[1..]);
    }
  }

  lemma TrimOfCodeLetters(s: string)
    requires AllCodeLetters(s)
    ensures Trim(s) == s
  {
    assert TrimStart(s) == s;
  }

  /** A string is left unchanged by normalisation exactly when it is empty
      or already a well-formed prefix. */
  lemma NormalizeFixedPoints(s: string)
    ensures NormalizeKfzCode(s) == s <==> (s == "" || IsCodeShape(s))
  {
    if s == "" || IsCodeShape(s) {
      TrimOfCodeLetters(s);
      UpperOfCodeLetters(s);
      KeepCodeLettersOfCodeLetters(s);
    }
  }

  /** Normalising an already normalised code changes nothing. */
  lemma NormalizeIdempotent(s: string)
    ensures NormalizeKfzCode(NormalizeKfzCode(s)) == NormalizeKfzCode(s)
  {
    NormalizeFixedPoints(NormalizeKfzCode(s));
  }

  // ---------------------------------------------------------------------
  // Validity in terms of the input's characters

  predicate HasCodeLetter(s: string) {
    exists i :: 0 <= i < |s| && IsCodeLetter(s[i])
  }

  lemma {:induction false} KeepCodeLettersEmpty(s: string)
    ensures KeepCodeLetters(s) == "" <==> !HasCodeLetter(s)
  {
    if |s| > 0 {
      KeepCodeLettersEmpty(s[1..]);
      if IsCodeLetter(s[0]) {
        assert HasCodeLetter(s) by { assert IsCodeLetter(s[0]); }
      } else {
        if HasCodeLetter(s) {
          var i :| 0 <= i < |s| && IsCodeLetter(s[i]);
          assert IsCodeLetter(s[1..][i - 1]);
        }
        if HasCodeLetter(s[1..]) {
          var i :| 0 <= i < |s[1..]| && IsCodeLetter(s[1..][i]);
          assert IsCodeLetter(s[i + 1]);
        }
      }
    }
  }

  /** Some character of `s`, uppercased, yields an allowed letter. */
  predicate YieldsCodeLetter(s: string) {
    exists i :: 0 <= i < |s| && CharYieldsCodeLetter(s[i])
  }

  /** The uppercase form of `c` is, or contains, an allowed letter. */
  predicate CharYieldsCodeLetter(c: char) {
    HasCodeLetter(UpperChar(c))
  }

  lemma HasCodeLetterAppend(a: string, b: string)
    ensures HasCodeLetter(a + b) <==> HasCodeLetter(a) || HasCodeLetter(b)
  {
    if HasCodeLetter(a + b) {
      var i :| 0 <= i < |a + b| && IsCodeLetter((a + b)[i]);
      if i < |a| { assert IsCodeLetter(a[i]); } else { assert IsCodeLetter(b[i - |a|]); }
    }
    if HasCodeLetter(a) {
      var i :| 0 <= i < |a| && IsCodeLetter(a[i]);
      assert IsCodeLetter((a + b)[i]);
    }
    if HasCodeLetter(b) {
      var i :| 0 <= i < |b| && IsCodeLetter(b[i]);
      assert IsCodeLetter((a + b)[|a| + i]);
    }
  }

  lemma {:induction false} UpperHasCodeLetter(s: string)
    ensures HasCodeLetter(Upper(s)) <==> YieldsCodeLetter(s)
  {
    if |s| > 0 {
      UpperHasCodeLetter(s[1..]);
      HasCodeLetterAppend(UpperChar(s[0]), Upper(s[1..]));
      if YieldsCodeLetter(s) {
        var i :| 0 <= i < |s| && CharYieldsCodeLetter(s[i]);
        if i > 0 { assert CharYieldsCodeLetter(s[1..][i - 1]); }
      }
      if YieldsCodeLetter(s[1..]) {
        var i :| 0 <= i < |s[1..]| && CharYieldsCodeLetter(s[1..][i]);
        assert CharYieldsCodeLetter(s[i + 1]);
      }
      if CharYieldsCodeLetter(s[0]) {
        assert YieldsCodeLetter(s);
      }
    }
  }

  lemma WhitespaceYieldsNoLetter(c: char)
    requires IsWhitespace(c)
    ensures !CharYieldsCodeLetter(c)
  {
  }

  /** Dropping a prefix none of whose elements satisfies `p` keeps whether
      some element does. */
  lemma DropKeepsWitness<T>(s: seq<T>, k: nat, p: T -> bool)
    requires k <= |s|
    requires forall j :: 0 <= j < k ==> !p(s[j])
    ensures (exists i :: 0 <= i < |s| && p(s[i])) <==> (exists i :: 0 <= i < |s[k..]| && p(s[k..][i]))
  {
    if exists i :: 0 <= i < |s| && p(s[i]) {
      var i :| 0 <= i < |s| && p(s[i]);
      assert p(s[k..][i - k]);
    }
    if exists i :: 0 <= i < |s[k..]| && p(s[k..][i]) {
      var i :| 0 <= i < |s[k..]| && p(s[k..][i]);
      assert p(s[i + k]);
    }
  }

  lemma TrimStartKeepsLetters(s: string)
    ensures YieldsCodeLetter(TrimStart(s)) <==> YieldsCodeLetter(s)
  {
    var r := TrimStart(s);
    var k := |s| - |r|;
    forall j | 0 <= j < k
      ensures !CharYieldsCodeLetter(s[j])
    {
      WhitespaceYieldsNoLetter(s[j]);
    }
    DropKeepsWitness(s, k, CharYieldsCodeLetter);
  }

  lemma TrimEndKeepsLetters(s: string)
    ensures YieldsCodeLetter(TrimEnd(s)) <==> YieldsCodeLetter(s)
  {
    var r := TrimEnd(s);
    if YieldsCodeLetter(s) {
      var i :| 0 <= i < |s| && CharYieldsCodeLetter(s[i]);
      if i >= |r| { WhitespaceYieldsNoLetter(s[i]); }
      assert CharYieldsCodeLetter(r[i]);
    }
    if YieldsCodeLetter(r) {
      var i :| 0 <= i < |r| && CharYieldsCodeLetter(r[i]);
      assert CharYieldsCodeLetter(s[i]);
    }
  }

  /** A string is a valid code exactly when one of its characters, once
      uppercased, is (or contains) an allowed letter: 'TOOLONG' is valid,
      '123' and '   ' are not. */
  lemma ValidIffYieldsCodeLetter(s: string)
    ensures IsValidKfzCode(JStr(s)) <==> YieldsCodeLetter(s)
  {
    TrimKeepsLetters(s);
    UpperHasCodeLetter(Trim(s));
    NormalizeNonEmptyIff(s);
  }

  lemma TrimKeepsLetters(s: string)
    ensures YieldsCodeLetter(Trim(s)) <==> YieldsCodeLetter(s)
  {
    TrimStartKeepsLetters(s);
    TrimEndKeepsLetters(TrimStart(s));
  }

  /** Normalisation gives a non-empty code exactly when the trimmed,
      uppercased input contains an allowed letter. */
  lemma NormalizeNonEmptyIff(s: string)
    ensures NormalizeKfzCode(s) != "" <==> HasCodeLetter(Upper(Trim(s)))
  {
    KeepCodeLettersEmpty(Upper(Trim(s)));
  }

  // ---------------------------------------------------------------------
  // parseKfzCodes

  function LeadingNonWhitespace(s: string): (i: nat)
    ensures i <= |s|
    ensures forall k :: 0 <= k < i ==> !IsWhitespace(s[k])
    ensures i < |s| ==> IsWhitespace(s[i])
  {
    if |s| == 0 || IsWhitespace(s[0]) then 0 else 1 + LeadingNonWhitespace(s[1..])
  }

  function LeadingWhitespace(s: string): (j: nat)
    ensures j <= |s|
    ensures |s| > 0 && IsWhitespace(s[0]) ==> j >= 1
    ensures forall k :: 0 <= k < j ==> IsWhitespace(s[k])
  {
    if |s| == 0 || !IsWhitespace(s[0]) then 0 else 1 + LeadingWhitespace(s[1..])
  }

  predicate NoWhitespace(t: string) {
    forall k :: 0 <= k < |t| ==> !IsWhitespace(t[k])
  }

  /** `s.split(/\s+/)`: the pieces between maximal runs of white space,
      including an empty first or last piece when `s` starts or ends with
      white space. */
  function SplitWhitespace(s: string): (pieces: seq<string>)
    ensures |pieces| >= 1
    ensures forall k :: 0 <= k < |pieces| ==> NoWhitespace(pieces[k])
    decreases |s|
  {
    var i := LeadingNonWhitespace(s);
    if i == |s| then [s]
    else
      var rest := s[i..];
      [s[..i]] + SplitWhitespace(rest[LeadingWhitespace(rest)..])
  }

  /** A non-empty run of white space. */
  predicate IsWhitespaceRun(t: string) {
    |t| > 0 && forall k :: 0 <= k < |t| ==> IsWhitespace(t[k])
  }

  /** The white-space runs that `SplitWhitespace` cuts at, in order. */
  function WhitespaceRuns(s: string): (runs: seq<string>)
    ensures forall k :: 0 <= k < |runs| ==> IsWhitespaceRun(runs[k])
    decreases |s|
  {
    var i := LeadingNonWhitespace(s);
    if i == |s| then []
    else
      var rest := s[i..];
      var j := LeadingWhitespace(rest);
      [rest[..j]] + WhitespaceRuns(rest[j..])
  }

  /** `pieces[0] + seps[0] + pieces[1] + ... + pieces[n]`. */
  function Interleave(pieces: seq<string>, seps: seq<string>): string
    requires |pieces| == |seps| + 1
    decreases |seps|
  {
    if |seps| == 0 then pieces[0] else pieces[0] + seps[0] + Interleave(pieces[1..], seps[1..])
  }

  /** Putting the white-space runs back between the pieces gives the input
      again. Since the pieces contain no white space and the runs are
      non-empty white space, the pieces are exactly the text between maximal
      white-space runs: no character is lost and none is moved. */
  lemma {:induction false} SplitWhitespaceJoin(s: string)
    ensures |SplitWhitespace(s)| == |WhitespaceRuns(s)| + 1
    ensures Interleave(SplitWhitespace(s), WhitespaceRuns(s)) == s
    decreases |s|
  {
    var i := LeadingNonWhitespace(s);
    if i < |s| {
      var rest := s[i..];
      var j := LeadingWhitespace(rest);
      var next := rest[j..];
      SplitWhitespaceJoin(next);
      SplitWhitespaceStep(s);
      InterleaveCons(s[..i], rest[..j], SplitWhitespace(next), WhitespaceRuns(next));
      CutsRejoin(s, i, j);
    }
  }

  /** One cut of `SplitWhitespace` and `WhitespaceRuns` at the first run. */
  lemma SplitWhitespaceStep(s: string)
    requires LeadingNonWhitespace(s) < |s|
    ensures var i := LeadingNonWhitespace(s);
            var j := LeadingWhitespace(s[i..]);
            SplitWhitespace(s) == [s[..i]] + SplitWhitespace(s[i..][j..])
            && WhitespaceRuns(s) == [s[i..][..j]] + WhitespaceRuns(s[i..][j..])
  {
  }

  lemma InterleaveCons(p: string, r: string, ps: seq<string>, rs: seq<string>)
    requires |ps| == |rs| + 1
    ensures Interleave([p] + ps, [r] + rs) == p + r + Interleave(ps, rs)
  {
    assert ([p] + ps)[1..] == ps;
    assert ([r] + rs)[1..] == rs;
  }

  lemma CutsRejoin(s: string, i: nat, j: nat)
    requires i <= |s| && j <= |s| - i
    ensures s[..i] + s[i..][..j] + s[i..][j..] == s
  {
    assert s[i..][..j] + s[i..][j..] == s[i..];
  }

  /** `s.map(f).filter(keep)`. */
  function FilterMap<A, B>(s: seq<A>, f: A -> B, keep: B -> bool): (r: seq<B>)
    ensures |r| <= |s|
    ensures forall y :: y in r ==> keep(y)
  {
    if |s| == 0 then []
    else
      var rest := FilterMap(s[1..], f, keep);
      if keep(f(s[0])) then [f(s[0])] + rest else rest
  }

  /** What survives the map and the filter is exactly the kept images. */
  lemma {:induction false} FilterMapMembers<A, B>(s: seq<A>, f: A -> B, keep: B -> bool, y: B)
    ensures y in FilterMap(s, f, keep) <==> keep(y) && exists x :: x in s && f(x) == y
  {
    if |s| > 0 {
      FilterMapMembers(s[1..], f, keep, y);
      if exists x :: x in s && f(x) == y {
        var x :| x in s && f(x) == y;
        if x != s[0] {
          assert x in s[1..];
        }
      }
      if exists x :: x in s[1..] && f(x) == y {
        var x :| x in s[1..] && f(x) == y;
        assert x in s;
      }
    }
  }

  /** A piece, trimmed and uppercased. */
  function CleanPiece(t: string): string {
    Upper(Trim(t))
  }

  /** Each piece trimmed and uppercased, keeping those with one to three
      allowed letters: the two `filter` calls of `parseKfzCodes`. */
  function CandidateCodes(pieces: seq<string>): (r: seq<string>)
    ensures |r| <= |pieces|
    ensures forall c :: c in r ==> IsCodeShape(c)
  {
    FilterMap(pieces, CleanPiece, IsCodeShape)
  }

  /** A code is a candidate exactly when it has one to three allowed letters
      and some piece, trimmed and uppercased, is that code. */
  lemma CandidateCodesMembers(pieces: seq<string>, c: string)
    ensures c in CandidateCodes(pieces) <==> IsCodeShape(c) && exists t :: t in pieces && CleanPiece(t) == c
  {
    FilterMapMembers(pieces, CleanPiece, IsCodeShape, c);
  }

  /** Position of the first occurrence of `x` in `s`. */
  function FirstIndex<T(==)>(s: seq<T>, x: T): (i: nat)
    requires x in s
    ensures i < |s| && s[i] == x
    ensures forall k :: 0 <= k < i ==> s[k] != x
  {
    if x in s[..|s| - 1] then FirstIndex(s[..|s| - 1], x) else |s| - 1
  }

  /** `[...new Set(s)]`: the distinct elements of `s`, each once, in order of
      first occurrence. */
  function Dedupe(s: seq<string>): (r: seq<string>)
    ensures NoDup(r)
    ensures forall x :: x in r <==> x in s
    ensures forall i, j :: 0 <= i < j < |r| ==> FirstIndex(s, r[i]) < FirstIndex(s, r[j])
  {
    if |s| == 0 then []
    else
      var init := s[..|s| - 1];
      var r := Dedupe(init);
      assert forall x :: x in s <==> x in init || x == s[|s| - 1];
      if s[|s| - 1] in r then r
      else
        assert forall i :: 0 <= i < |r| ==> FirstIndex(init, r[i]) < |s| - 1;
        r + [s[|s| - 1]]
  }

  /** `parseKfzCodes` on a string argument. */
  function ParseKfzCodes(codesString: string): (codes: seq<string>)
    ensures NoDup(codes)
    ensures forall k :: 0 <= k < |codes| ==> IsCodeShape(codes[k])
    ensures codesString == "" ==> codes == []
  {
    if codesString == "" then []
    else Dedupe(CandidateCodes(SplitWhitespace(codesString)))
  }

  /** The parsed codes are exactly the codes some whitespace-separated piece
      produces. */
  lemma ParseKfzCodesMembers(codesString: string, c: string)
    ensures c in ParseKfzCodes(codesString) <==>
      IsCodeShape(c) && exists t :: t in SplitWhitespace(codesString) && CleanPiece(t) == c
  {
    if codesString == "" {
      assert SplitWhitespace(codesString) == [""];
      assert Trim("") == "" && Upper("") == "";
      assert CleanPiece("") == "";
    } else {
      CandidateCodesMembers(SplitWhitespace(codesString), c);
    }
  }

  /** `parseKfzCodes` on an arbitrary value: non-strings give `[]`. */
  function ParseKfzCodesValue(v: Json): (codes: seq<string>)
    ensures !v.JStr? ==> codes == []
    ensures v.JStr? ==> codes == ParseKfzCodes(v.s)
  {
    if !Truthy(v) || !v.JStr? then [] else ParseKfzCodes(v.s)
  }

  /** Codes come out in the order of their first candidate occurrence. */
  lemma ParseKeepsFirstOccurrenceOrder(s: string, i: nat, j: nat)
    requires s != ""
    requires i < j < |ParseKfzCodes(s)|
    ensures var cands := CandidateCodes(SplitWhitespace(s));
      FirstIndex(cands, ParseKfzCodes(s)[i]) < FirstIndex(cands, ParseKfzCodes(s)[j])
  {
  }

  // ---------------------------------------------------------------------
  // Worked examples

  lemma NormalizeExampleLower()
    ensures NormalizeKfzCode("hh") == "HH"
  {
    assert TrimStart("hh") == "hh" && TrimEnd("hh") == "hh";
    assert Upper("h") == "H";
    assert Upper("hh") == "HH";
    assert KeepCodeLetters("HH") == "HH";
  }

  /** Normalisation of an input that trimming and upper-casing leave alone
      is the first three of its code letters. */
  lemma NormalizeOfPlain(s: string, letters: string)
    requires Trim(s) == s && Upper(s) == s
    requires KeepCodeLetters(s) == letters && |letters| <= 3
    ensures NormalizeKfzCode(s) == letters
  {
  }

  /** ASCII text without lower-case letters is its own upper-case form. */
  lemma UpperOfAsciiNonLower(s: string)
    requires forall i :: 0 <= i < |s| ==> s[i] < 128 as char && !('a' <= s[i] <= 'z')
    ensures Upper(s) == s
  {
    forall i | 0 <= i < |s|
      ensures UpperChar(s[i]) == [s[i]]
    {
      UpperCharOfAsciiNonLower(s[i]);
    }
    UpperIdentity(s);
  }

  lemma UpperCharOfAsciiNonLower(c: char)
    requires c < 128 as char && !('a' <= c <= 'z')
    ensures UpperChar(c) == [c]
  {
  }

  /** Text that neither starts nor ends with white space is its own trim. */
  lemma TrimOfUnpadded(s: string)
    requires |s| > 0 && !IsWhitespace(s[0]) && !IsWhitespace(s[|s| - 1])
    ensures Trim(s) == s
  {
    assert TrimStart(s) == s;
  }

  lemma DigitsExampleChars(s: string)
    requires s == "H1H2"
    ensures Trim(s) == s && Upper(s) == s
  {
    forall i | 0 <= i < |s|
      ensures s[i] < 128 as char && !('a' <= s[i] <= 'z')
    {
      if i == 0 { assert s[i] == 'H'; }
      else if i == 1 { assert s[i] == '1'; }
      else if i == 2 { assert s[i] == 'H'; }
      else { assert s[i] == '2'; }
    }
    TrimOfUnpadded(s);
    UpperOfAsciiNonLower(s);
  }

  lemma DigitsExampleSteps()
    ensures Trim("H1H2") == "H1H2" && Upper("H1H2") == "H1H2"
  {
    DigitsExampleChars("H1H2");
  }

  lemma DigitsExampleLetters()
    ensures KeepCodeLetters("H1H2") == "HH"
  {
    assert KeepCodeLetters("2") == "";
    assert KeepCodeLetters("H2") == "H";
    assert KeepCodeLetters("1H2") == "H";
  }

  /** Digits are dropped, not counted towards the three letters. */
  lemma NormalizeExampleDigits()
    ensures NormalizeKfzCode("H1H2") == "HH"
  {
    DigitsExampleSteps();
    DigitsExampleLetters();
    NormalizeOfPlain("H1H2", "HH");
  }

  lemma DashExampleChars(s: string)
    requires s == "M-123"
    ensures Trim(s) == s && Upper(s) == s
  {
    forall i | 0 <= i < |s|
      ensures s[i] < 128 as char && !('a' <= s[i] <= 'z')
    {
      if i == 0 { assert s[i] == 'M'; }
      else if i == 1 { assert s[i] == '-'; }
      else if i == 2 { assert s[i] == '1'; }
      else if i == 3 { assert s[i] == '2'; }
      else { assert s[i] == '3'; }
    }
    TrimOfUnpadded(s);
    UpperOfAsciiNonLower(s);
  }

  lemma DashExampleSteps()
    ensures Trim("M-123") == "M-123" && Upper("M-123") == "M-123"
  {
    DashExampleChars("M-123");
  }

  lemma DashExampleLetters()
    ensures KeepCodeLetters("M-123") == "M"
  {
    assert KeepCodeLetters("3") == "";
    assert KeepCodeLetters("23") == "";
    assert KeepCodeLetters("123") == "";
    assert KeepCodeLetters("-123") == "";
  }

  /** A full plate number reduces to its area code. */
  lemma NormalizeExampleDash()
    ensures NormalizeKfzCode("M-123") == "M"
  {
    DashExampleSteps();
    DashExampleLetters();
    NormalizeOfPlain("M-123", "M");
  }

  lemma NormalizeExampleLong()
    ensures NormalizeKfzCode("HAMBURG") == "HAM"
  {
    var s := "HAMBURG";
    assert AllCodeLetters(s);
    TrimOfCodeLetters(s);
    UpperOfCodeLetters(s);
    KeepCodeLettersOfCodeLetters(s);
  }
}
