/** Lookup of licence-plate codes in the prebuilt search index: exact search,
    prefix autocomplete, the sorted code list and the random discovery
    picks. Randomness enters as parameters (a number in [0, 1) or a
    shuffled order), and `getBundeslandFromShortName`, whose definition is
    not part of this model, as the function parameter `byShortName`. */
module Search {
  import opened Wrappers
  import opened Text
  import opened Normalize
  import opened Ordering
  import opened Bundeslaender

  /** One entry of the index's `features` record. */
  datatype Feature = Feature(name: string, ars: string, kfzCodes: seq<string>, center: (real, real))

  /** The search index: uppercase code to district ids, and id to feature. */
  datatype KfzIndex = KfzIndex(
    version: int,
    generated: string,
    source: string,
    codeToIds: map<string, seq<string>>,
    features: map<string, Feature>)

  datatype SearchResult = SearchResult(
    id: string,
    name: string,
    ars: string,
    kfzCode: string,
    kfzCodes: seq<string>,
    bundesland: string,
    bundeslandShort: string,
    center: (real, real))

  type ShortNameLookup = string -> Option<Bundesland>

  /** The state of a feature: by ARS prefix first, then by short name. */
  function ResolveState(ars: string, byShortName: ShortNameLookup): (r: Option<Bundesland>)
    ensures GetFromArs(ars).Some? ==> r == GetFromArs(ars)
    ensures GetFromArs(ars).None? ==> r == byShortName(ars)
  {
    match GetFromArs(ars)
    case Some(b) => Some(b)
    case None => byShortName(ars)
  }

  /** The result object built for one known feature id. */
  function MakeResult(id: string, f: Feature, code: string, byShortName: ShortNameLookup): (r: SearchResult)
    ensures r.id == id && r.name == f.name && r.ars == f.ars
    ensures r.kfzCode == code && r.kfzCodes == f.kfzCodes && r.center == f.center
    ensures var b := ResolveState(f.ars, byShortName);
      (r.bundesland == "Unbekannt" <==> (b.None? || b.value.name == "" || b.value.name == "Unbekannt"))
      && (r.bundeslandShort == "??" <==> (b.None? || b.value.shortName == "" || b.value.shortName == "??"))
    ensures var b := ResolveState(f.ars, byShortName);
      b.Some? && b.value.name != "" ==> r.bundesland == b.value.name
    ensures var b := ResolveState(f.ars, byShortName);
      b.Some? && b.value.shortName != "" ==> r.bundeslandShort == b.value.shortName
  {
    var b := ResolveState(f.ars, byShortName);
    SearchResult(
      id, f.name, f.ars, code, f.kfzCodes,
      if b.Some? && b.value.name != "" then b.value.name else "Unbekannt",
      if b.Some? && b.value.shortName != "" then b.value.shortName else "??",
      f.center)
  }

  /** Reference definition: the ids that have a feature, in list order. */
  function KnownIds(ids: seq<string>, features: map<string, Feature>): (r: seq<string>)
    ensures |r| <= |ids|
    ensures forall x :: x in r <==> x in ids && x in features
  {
    if |ids| == 0 then []
    else (if ids[0] in features then [ids[0]] else []) + KnownIds(ids[1..], features)
  }

  function IdsOf(rs: seq<SearchResult>): (r: seq<string>)
    ensures |r| == |rs|
    ensures forall k :: 0 <= k < |rs| ==> r[k] == rs[k].id
  {
    seq(|rs|, k requires 0 <= k < |rs| => rs[k].id)
  }

  lemma IdsOfCons(x: SearchResult, rest: seq<SearchResult>)
    ensures IdsOf([x] + rest) == [x.id] + IdsOf(rest)
  {
  }

  /** The `featureIds.map(...).filter(...)` step. */
  function ResultsFor(ids: seq<string>, code: string, index: KfzIndex, byShortName: ShortNameLookup)
    : (r: seq<SearchResult>)
    ensures IdsOf(r) == KnownIds(ids, index.features)
    ensures forall k :: 0 <= k < |r| ==>
      r[k].id in index.features
      && r[k] == MakeResult(r[k].id, index.features[r[k].id], code, byShortName)
  {
    if |ids| == 0 then []
    else
      var rest := ResultsFor(ids[1..], code, index, byShortName);
      if ids[0] in index.features then
        var x := MakeResult(ids[0], index.features[ids[0]], code, byShortName);
        IdsOfCons(x, rest);
        [x] + rest
      else rest
  }

  /** `searchKfzCode(code, index)`. */
  function SearchKfzCode(code: string, index: KfzIndex, byShortName: ShortNameLookup)
    : (r: seq<SearchResult>)
    ensures var n := NormalizeKfzCode(code);
      (n == "" || n !in index.codeToIds || index.codeToIds[n] == []) ==> r == []
    ensures var n := NormalizeKfzCode(code);
      n != "" && n in index.codeToIds ==> IdsOf(r) == KnownIds(index.codeToIds[n], index.features)
    ensures forall k :: 0 <= k < |r| ==>
      r[k].id in index.features
      && r[k] == MakeResult(r[k].id, index.features[r[k].id], NormalizeKfzCode(code), byShortName)
  {
    var normalized := NormalizeKfzCode(code);
    if normalized == "" then []
    else if normalized !in index.codeToIds || |index.codeToIds[normalized]| == 0 then []
    else ResultsFor(index.codeToIds[normalized], normalized, index, byShortName)
  }

  /** Every result carries the normalised query as its code, and a code all
      of whose ids lack a feature finds nothing. */
  lemma SearchResultsCarryQuery(code: string, index: KfzIndex, byShortName: ShortNameLookup)
    ensures forall res :: res in SearchKfzCode(code, index, byShortName) ==>
      res.kfzCode == NormalizeKfzCode(code) && IsCodeShape(res.kfzCode)
  {
  }

  lemma SearchWithoutFeatures(code: string, index: KfzIndex, byShortName: ShortNameLookup)
    requires NormalizeKfzCode(code) in index.codeToIds
    requires forall id :: id in index.codeToIds[NormalizeKfzCode(code)] ==> id !in index.features
    ensures SearchKfzCode(code, index, byShortName) == []
  {
    var n := NormalizeKfzCode(code);
    var r := SearchKfzCode(code, index, byShortName);
    if n != "" {
      KnownIdsEmpty(index.codeToIds[n], index.features);
      assert |IdsOf(r)| == 0;
    }
  }

  lemma {:induction false} KnownIdsEmpty(ids: seq<string>, features: map<string, Feature>)
    requires forall id :: id in ids ==> id !in features
    ensures KnownIds(ids, features) == []
  {
    if |ids| > 0 {
      assert ids[0] in ids;
      assert forall id :: id in ids[1..] ==> id in ids;
      KnownIdsEmpty(ids[1..], features);
    }
  }

  /** A feature whose ARS starts with a state number is shown with that
      state's name and short name. */
  lemma StateFromArs(id: string, f: Feature, code: string, byShortName: ShortNameLookup)
    requires |f.ars| >= 2 && f.ars[..2] in Keys
    ensures var r := MakeResult(id, f, code, byShortName);
      var b := Lookup(f.ars[..2]).value;
      r.bundesland == b.name && r.bundeslandShort == b.shortName
  {
    TableNamesNonEmpty();
  }

  // ---------------------------------------------------------------------
  // Autocomplete and the code list

  /** The index codes that start with `prefix`. */
  function PrefixMatches(prefix: string, index: KfzIndex): (m: set<string>)
    ensures forall x :: x in m <==> x in index.codeToIds && IsPrefix(prefix, x)
  {
    set x | x in index.codeToIds && IsPrefix(prefix, x)
  }

  /** `getAutocompleteSuggestions(partial, index, limit)`: the prefix
      matches, shorter first and then by collation, cut by `slice(0, limit)`. */
  method AutocompleteSuggestions(partial: string, index: KfzIndex, limit: int) returns (r: seq<string>)
    ensures NormalizeKfzCode(partial) == "" ==> r == []
    ensures var n := NormalizeKfzCode(partial);
      n != "" ==> |r| == SliceEnd(|PrefixMatches(n, index)|, limit)
    ensures forall x :: x in r ==> x in PrefixMatches(NormalizeKfzCode(partial), index)
    ensures Sorted(BySuggestion, r)
    ensures forall x, y ::
      (x in PrefixMatches(NormalizeKfzCode(partial), index) && x !in r && y in r) ==> Less(BySuggestion, y, x)
  {
    var normalized := NormalizeKfzCode(partial);
    if normalized == "" {
      return [];
    }
    var matches := PrefixMatches(normalized, index);
    var sorted := SortSet(BySuggestion, matches);
    var e := SliceEnd(|sorted|, limit);
    r := sorted[..e];
    forall x, y | x in matches && x !in r && y in r
      ensures Less(BySuggestion, y, x)
    {
      var j :| 0 <= j < |sorted| && sorted[j] == x;
      var i :| 0 <= i < |r| && r[i] == y;
      assert j >= e;
    }
  }

  /** The `limit` of `getAutocompleteSuggestions` when the caller gives
      none. */
  const DefaultSuggestionLimit := 5

  /** `getAutocompleteSuggestions(partial, index)`: at most five
      suggestions, the best five prefix matches when there are more. */
  method DefaultAutocompleteSuggestions(partial: string, index: KfzIndex) returns (r: seq<string>)
    ensures |r| <= DefaultSuggestionLimit
    ensures var m := PrefixMatches(NormalizeKfzCode(partial), index);
      NormalizeKfzCode(partial) != "" ==> |r| == if |m| < DefaultSuggestionLimit then |m| else DefaultSuggestionLimit
    ensures forall x :: x in r ==> x in PrefixMatches(NormalizeKfzCode(partial), index)
    ensures Sorted(BySuggestion, r)
  {
    r := AutocompleteSuggestions(partial, index, DefaultSuggestionLimit);
  }

  /** `getAllKfzCodes(index)`: every code once, in `sort()` order. */
  method GetAllKfzCodes(index: KfzIndex) returns (r: seq<string>)
    ensures Sorted(ByCodeUnits, r)
    ensures forall x :: x in r <==> x in index.codeToIds
    ensures |r| == |index.codeToIds|
    ensures NoDup(r)
  {
    r := SortSet(ByCodeUnits, index.codeToIds.Keys);
    forall i, j | 0 <= i < j < |r|
      ensures r[i] != r[j]
    {
      SortedNoDup(ByCodeUnits, r, i, j);
    }
  }

  /** `getRandomKfzCode(index)` with `Math.random()` given as `u`; an empty
      index gives `undefined`. */
  method GetRandomKfzCode(index: KfzIndex, u: real) returns (r: Option<string>)
    requires 0.0 <= u < 1.0
    ensures r.Some? <==> |index.codeToIds| > 0
    ensures r.Some? ==> r.value in index.codeToIds
  {
    var codes := GetAllKfzCodes(index);
    var k := (u * |codes| as real).Floor;
    if |codes| > 0 {
      FloorInRange(u, |codes|);
    }
    if 0 <= k < |codes| {
      r := Some(codes[k]);
    } else {
      r := None;
    }
  }

  /** `Math.floor(u * n)` is an index below `n`. */
  lemma FloorInRange(u: real, n: nat)
    requires 0.0 <= u < 1.0 && n > 0
    ensures 0 <= (u * n as real).Floor < n
  {
    var x := n as real;
    assert 0.0 <= u * x;
    assert u * x < x by {
      assert x - u * x == (1.0 - u) * x;
      assert (1.0 - u) * x > 0.0;
    }
  }

  // ---------------------------------------------------------------------
  // Random discovery results

  /** The first search result for `code`, if there is one. */
  function FirstHit(code: string, index: KfzIndex, byShortName: ShortNameLookup): (r: seq<SearchResult>)
    ensures |r| <= 1
    ensures |r| == 1 <==> SearchKfzCode(code, index, byShortName) != []
    ensures |r| == 1 ==> r[0] == SearchKfzCode(code, index, byShortName)[0]
  {
    var found := SearchKfzCode(code, index, byShortName);
    if |found| > 0 then [found[0]] else []
  }

  /** The results of `f` for each element of `s`, concatenated in order. */
  function FlatMap<A, B>(s: seq<A>, f: A -> seq<B>): seq<B> {
    if |s| == 0 then [] else f(s[0]) + FlatMap(s[1..], f)
  }

  lemma {:induction false} FlatMapAppend<A, B>(a: seq<A>, b: seq<A>, f: A -> seq<B>)
    ensures FlatMap(a + b, f) == FlatMap(a, f) + FlatMap(b, f)
  {
    if |a| == 0 {
      assert a + b == b;
    } else {
      assert (a + b)[0] == a[0];
      assert (a + b)[1..] == a[1..] + b;
      FlatMapAppend(a[1..], b, f);
    }
  }

  function HitOf(index: KfzIndex, byShortName: ShortNameLookup): string -> seq<SearchResult> {
    code => FirstHit(code, index, byShortName)
  }

  /** Reference definition: the first search result of every code that has
      one, in the given order. */
  function Hits(codes: seq<string>, index: KfzIndex, byShortName: ShortNameLookup): seq<SearchResult> {
    FlatMap(codes, HitOf(index, byShortName))
  }

  lemma HitsAppend(a: seq<string>, b: seq<string>, index: KfzIndex, byShortName: ShortNameLookup)
    ensures Hits(a + b, index, byShortName) == Hits(a, index, byShortName) + Hits(b, index, byShortName)
  {
    FlatMapAppend(a, b, HitOf(index, byShortName));
  }

  /** The hits of a prefix of the codes are a prefix of all hits. */
  lemma HitsOfPrefix(codes: seq<string>, i: nat, index: KfzIndex, byShortName: ShortNameLookup)
    requires i <= |codes|
    ensures var h := Hits(codes[..i], index, byShortName);
      |h| <= |Hits(codes, index, byShortName)| && h == Hits(codes, index, byShortName)[..|h|]
  {
    HitsAppend(codes[..i], codes[i..], index, byShortName);
    assert codes[..i] + codes[i..] == codes;
  }

  lemma FlatMapSnoc<A, B>(s: seq<A>, i: nat, f: A -> seq<B>)
    requires i < |s|
    ensures FlatMap(s[..i + 1], f) == FlatMap(s[..i], f) + f(s[i])
  {
    var x := [s[i]];
    FlatMapAppend(s[..i], x, f);
    assert s[..i] + x == s[..i + 1];
    assert x[1..] == [];
    assert FlatMap(x, f) == f(s[i]) + FlatMap([], f);
  }

  lemma HitsSnoc(codes: seq<string>, i: nat, index: KfzIndex, byShortName: ShortNameLookup)
    requires i < |codes|
    ensures Hits(codes[..i + 1], index, byShortName)
      == Hits(codes[..i], index, byShortName) + FirstHit(codes[i], index, byShortName)
  {
    FlatMapSnoc(codes, i, HitOf(index, byShortName));
  }

  /** The loop of `getRandomResults`: walk the codes, stop once `count`
      results are collected, keep the first result of each code that has
      one. */
  method CollectHits(codes: seq<string>, count: int, index: KfzIndex, byShortName: ShortNameLookup)
    returns (r: seq<SearchResult>, stopped: nat)
    ensures stopped <= |codes|
    ensures r == Hits(codes[..stopped], index, byShortName)
    ensures count <= 0 ==> r == []
    ensures count > 0 ==> |r| <= count
    ensures stopped < |codes| ==> |r| >= count
  {
    r := [];
    stopped := 0;
    while stopped < |codes|
      invariant stopped <= |codes|
      invariant r == Hits(codes[..stopped], index, byShortName)
      invariant count > 0 ==> |r| <= count
      invariant count <= 0 ==> r == []
    {
      if |r| >= count {
        return;
      }
      r := r + FirstHit(codes[stopped], index, byShortName);
      HitsSnoc(codes, stopped, index, byShortName);
      stopped := stopped + 1;
    }
  }

  /** `getRandomResults(index, count)` with the shuffled code list given as
      `shuffled`, a reordering of the index's codes: the first `count`
      hits, fewer when there are not that many. */
  method GetRandomResults(index: KfzIndex, count: int, shuffled: seq<string>, byShortName: ShortNameLookup)
    returns (r: seq<SearchResult>)
    requires NoDup(shuffled)
    requires forall x :: x in shuffled <==> x in index.codeToIds
    ensures count <= 0 ==> r == []
    ensures count > 0 ==> |r| == if count < |Hits(shuffled, index, byShortName)| then count
                                  else |Hits(shuffled, index, byShortName)|
    ensures r == Hits(shuffled, index, byShortName)[..|r|]
  {
    var stopped;
    r, stopped := CollectHits(shuffled, count, index, byShortName);
    HitsOfPrefix(shuffled, stopped, index, byShortName);
    if stopped == |shuffled| {
      assert shuffled[..stopped] == shuffled;
    }
  }

  /** The `count` of `getRandomResults` when the caller gives none. */
  const DefaultRandomCount := 3

  /** `getRandomResults(index)`: the first three hits of the shuffled code
      list, fewer when there are not that many. */
  method DefaultRandomResults(index: KfzIndex, shuffled: seq<string>, byShortName: ShortNameLookup)
    returns (r: seq<SearchResult>)
    requires NoDup(shuffled)
    requires forall x :: x in shuffled <==> x in index.codeToIds
    ensures var h := Hits(shuffled, index, byShortName);
      |r| == (if |h| < DefaultRandomCount then |h| else DefaultRandomCount) && r == h[..|r|]
  {
    r := GetRandomResults(index, DefaultRandomCount, shuffled, byShortName);
  }
}
