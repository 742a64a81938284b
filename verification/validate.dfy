/** The pre-deployment check of the raw district list
    (`validateKfzIndex` in scripts/validate-data.ts): a rule-by-rule
    validator that collects errors instead of stopping at the first, except
    where the districts array itself is unusable.

    Errors are kept as data (which rule, which district) rather than as the
    interpolated message text. A `null` or `undefined` input, or such a
    district, makes the script's property access throw; that is the
    `TypeErrorCrash` outcome. */
module DataValidation {
  import opened Text
  import opened JsonValues
  import opened Normalize
  import Bundeslaender

  datatype DistrictProblem =
    | InvalidName
    | InvalidCodes
    | NoCodes
    | InvalidCodeFormat(code: Json)
    | InvalidCenter
    | CoordinatesNotNumbers
    | OutsideGermany
    | MissingState
    | InvalidState
    | InvalidArs

  datatype ValidationError =
    | MissingVersion
    | MissingSource
    | MissingLicense
    | InvalidDistricts
    | EmptyDistricts
    | DistrictError(index: nat, problem: DistrictProblem)

  datatype Validation = Completed(errors: seq<ValidationError>) | TypeErrorCrash

  predicate IsNullish(v: Json) {
    v.JNull? || v.JUndefined?
  }

  /** `/^[A-ZÄÖÜ]{1,3}$/.test(code)`. `test` converts its argument to a
      string first: an array becomes its elements joined by commas (with
      `null`/`undefined` as empty), so only a one-element array can match,
      and only when its element does; booleans, numbers, objects, `null` and
      `undefined` render with lower-case letters, digits or nothing and
      never match. */
  predicate CodeMatches(v: Json) {
    match v
    case JStr(s) => IsCodeShape(s)
    case JArr(items) => |items| == 1 && CodeMatches(items[0])
    case _ => false
  }

  /** The checks on `version`, `source` and `license`; none of them stops
      the validation. */
  function TopLevelErrors(data: Json): (errs: seq<ValidationError>)
    ensures |errs| <= 3
    ensures MissingVersion in errs <==> !Truthy(Get(data, "version"))
    ensures MissingSource in errs <==> !Truthy(Get(data, "source"))
    ensures MissingLicense in errs <==> !Truthy(Get(data, "license"))
    ensures forall e :: e in errs ==> e == MissingVersion || e == MissingSource || e == MissingLicense
  {
    (if !Truthy(Get(data, "version")) then [MissingVersion] else [])
    + (if !Truthy(Get(data, "source")) then [MissingSource] else [])
    + (if !Truthy(Get(data, "license")) then [MissingLicense] else [])
  }

  /** One error per code that does not match, in order. */
  function CodeFormatErrors(codes: seq<Json>, i: nat): (errs: seq<ValidationError>)
    ensures |errs| <= |codes|
    ensures forall e :: e in errs ==>
      (e.DistrictError? && e.index == i && e.problem.InvalidCodeFormat?
       && e.problem.code in codes && !CodeMatches(e.problem.code))
    decreases |codes|
  {
    if |codes| == 0 then []
    else
      CodeFormatErrors(codes[..|codes| - 1], i)
      + (if CodeMatches(codes[|codes| - 1]) then [] else [DistrictError(i, InvalidCodeFormat(codes[|codes| - 1]))])
  }

  function CodesErrors(codes: Json, i: nat): seq<ValidationError> {
    if !Truthy(codes) || !codes.JArr? then [DistrictError(i, InvalidCodes)]
    else if |codes.items| == 0 then [DistrictError(i, NoCodes)]
    else CodeFormatErrors(codes.items, i)
  }

  predicate IsNumber(v: Json) {
    v.JNum?
  }

  /** The bounding box around Germany, with margin: latitude 46 to 56,
      longitude 5 to 16; the pair is read as `[lng, lat]`. */
  predicate InGermany(lng: real, lat: real) {
    !(lat < 46.0 || lat > 56.0 || lng < 5.0 || lng > 16.0)
  }

  function CenterErrors(center: Json, i: nat): (errs: seq<ValidationError>)
    ensures |errs| <= 1
    ensures errs == [DistrictError(i, InvalidCenter)] <==> !(center.JArr? && |center.items| == 2)
    ensures center.JArr? && |center.items| == 2 ==>
      (errs == [] <==> IsNumber(center.items[0]) && IsNumber(center.items[1])
                       && InGermany(center.items[0].n, center.items[1].n))
  {
    if !Truthy(center) || !center.JArr? || |center.items| != 2 then [DistrictError(i, InvalidCenter)]
    else
      var lng := center.items[0];
      var lat := center.items[1];
      if !IsNumber(lng) || !IsNumber(lat) then [DistrictError(i, CoordinatesNotNumbers)]
      else if !InGermany(lng.n, lat.n) then [DistrictError(i, OutsideGermany)]
      else []
  }

  /** A two-element centre is reported as non-numeric before its position
      is looked at, and a numeric one is reported exactly when it lies
      outside the box. */
  lemma CenterErrorKinds(lng: Json, lat: Json, i: nat)
    ensures !(IsNumber(lng) && IsNumber(lat)) ==>
      CenterErrors(JArr([lng, lat]), i) == [DistrictError(i, CoordinatesNotNumbers)]
    ensures IsNumber(lng) && IsNumber(lat) ==>
      (CenterErrors(JArr([lng, lat]), i) == [DistrictError(i, OutsideGermany)] <==> !InGermany(lng.n, lat.n))
  {
  }

  /** The sixteen state abbreviations, as the script lists them. */
  const ValidStates := ["BW", "BY", "BE", "BB", "HB", "HH", "HE", "MV", "NI", "NW", "RP", "SL", "SN", "ST", "SH", "TH"]

  /** `validStates.includes(state)`: strict equality with one of the
      listed strings. */
  predicate IsValidState(state: Json) {
    state.JStr? && state.s in ValidStates
  }

  function StateErrors(state: Json, i: nat): (errs: seq<ValidationError>)
    ensures errs == [] <==> IsValidState(state)
    ensures errs == [DistrictError(i, MissingState)] <==> !Truthy(state)
  {
    if !Truthy(state) then [DistrictError(i, MissingState)]
    else if !IsValidState(state) then [DistrictError(i, InvalidState)]
    else []
  }

  /** Every rule applied to district number `i`, in the script's order. */
  function DistrictErrors(d: Json, i: nat): (errs: seq<ValidationError>)
    ensures forall e :: e in errs ==> e.DistrictError? && e.index == i
  {
    var name := Get(d, "name");
    var ars := Get(d, "ars");
    (if !Truthy(name) || !IsString(name) then [DistrictError(i, InvalidName)] else [])
    + CodesErrors(Get(d, "codes"), i)
    + CenterErrors(Get(d, "center"), i)
    + StateErrors(Get(d, "state"), i)
    + (if Truthy(ars) && !IsString(ars) then [DistrictError(i, InvalidArs)] else [])
  }

  /** `validateKfzIndex(data)`. */
  function ValidateKfzIndex(data: Json): (r: Validation)
    ensures IsNullish(data) ==> r == TypeErrorCrash
    ensures !IsNullish(data) && !Get(data, "districts").JArr? ==>
      r == Completed(TopLevelErrors(data) + [InvalidDistricts])
    ensures !IsNullish(data) && Get(data, "districts") == JArr([]) ==>
      r == Completed(TopLevelErrors(data) + [EmptyDistricts])
    ensures r == TypeErrorCrash <==>
      IsNullish(data) || (Get(data, "districts").JArr?
        && exists k :: 0 <= k < |Get(data, "districts").items| && IsNullish(Get(data, "districts").items[k]))
  {
    if IsNullish(data) then TypeErrorCrash
    else
      var top := TopLevelErrors(data);
      var ds := Get(data, "districts");
      if !Truthy(ds) || !ds.JArr? then Completed(top + [InvalidDistricts])
      else if |ds.items| == 0 then Completed(top + [EmptyDistricts])
      else if exists k :: 0 <= k < |ds.items| && IsNullish(ds.items[k]) then TypeErrorCrash
      else Completed(top + AllDistrictErrorsFrom(ds.items, 0))
  }

  // ---------------------------------------------------------------------
  // Properties

  /** The positions of the codes that do not match. */
  function BadPositions(codes: seq<Json>): set<nat> {
    set k | 0 <= k < |codes| && !CodeMatches(codes[k])
  }

  lemma BadPositionsSnoc(codes: seq<Json>)
    requires |codes| > 0
    ensures var n := |codes| - 1;
      n !in BadPositions(codes[..n])
      && BadPositions(codes) == BadPositions(codes[..n]) + (if CodeMatches(codes[n]) then {} else {n})
  {
    var n := |codes| - 1;
    var init := codes[..n];
    assert forall k :: 0 <= k < n ==> init[k] == codes[k];
  }

  /** Each code that does not match adds exactly one error. */
  lemma {:induction false} OneErrorPerBadCode(codes: seq<Json>, i: nat)
    ensures |CodeFormatErrors(codes, i)| == |BadPositions(codes)|
    decreases |codes|
  {
    if |codes| > 0 {
      var n := |codes| - 1;
      OneErrorPerBadCode(codes[..n], i);
      BadPositionsSnoc(codes);
    }
  }

  /** The errors of `ds`, numbered from `start`, found by `check`. */
  function ErrorsFrom(check: (Json, nat) -> seq<ValidationError>, ds: seq<Json>, start: nat): seq<ValidationError>
    decreases |ds|
  {
    if |ds| == 0 then [] else ErrorsFrom(check, ds[..|ds| - 1], start) + check(ds[|ds| - 1], start + |ds| - 1)
  }

  /** The `forEach` over the districts. */
  function AllDistrictErrorsFrom(ds: seq<Json>, start: nat): seq<ValidationError> {
    ErrorsFrom(DistrictErrors, ds, start)
  }

  /** A district's errors depend on that district and its number alone:
      the errors of a list are those of its parts, so no rule relates two
      districts and a code shared between districts produces no error. */
  lemma DistrictErrorsCompose(ds: seq<Json>, more: seq<Json>, start: nat)
    ensures AllDistrictErrorsFrom(ds + more, start)
         == AllDistrictErrorsFrom(ds, start) + AllDistrictErrorsFrom(more, start + |ds|)
  {
    ErrorsCompose(DistrictErrors, ds, more, start);
  }

  lemma {:induction false} ErrorsCompose(check: (Json, nat) -> seq<ValidationError>, ds: seq<Json>, more: seq<Json>, start: nat)
    ensures ErrorsFrom(check, ds + more, start) == ErrorsFrom(check, ds, start) + ErrorsFrom(check, more, start + |ds|)
    decreases |more|
  {
    if |more| == 0 {
      assert ds + more == ds;
    } else {
      var n := |more| - 1;
      var all := ds + more;
      assert all[..|all| - 1] == ds + more[..n];
      assert all[|all| - 1] == more[n];
      assert ErrorsFrom(check, all, start)
          == ErrorsFrom(check, ds + more[..n], start) + check(more[n], start + |all| - 1);
      assert ErrorsFrom(check, more, start + |ds|)
          == ErrorsFrom(check, more[..n], start + |ds|) + check(more[n], start + |ds| + n);
      ErrorsCompose(check, ds, more[..n], start);
    }
  }

  /** What the script accepts in one district, stated field by field
      without reference to the rules' order: a non-empty string name, a
      non-empty codes array every element of which matches the code pattern,
      a two-element numeric centre inside the box, one of the sixteen state
      abbreviations, and an `ars` that is either absent (falsy) or a
      string. */
  predicate ValidDistrict(d: Json) {
    var name := Get(d, "name");
    var codes := Get(d, "codes");
    var center := Get(d, "center");
    var ars := Get(d, "ars");
    name.JStr? && name.s != ""
    && codes.JArr? && |codes.items| > 0
    && (forall k :: 0 <= k < |codes.items| ==> CodeMatches(codes.items[k]))
    && center.JArr? && |center.items| == 2
    && center.items[0].JNum? && center.items[1].JNum?
    && InGermany(center.items[0].n, center.items[1].n)
    && IsValidState(Get(d, "state"))
    && (!Truthy(ars) || ars.JStr?)
  }

  /** What the script accepts as a whole: an object-like value with truthy
      `version`, `source` and `license`, and a non-empty districts array
      whose every element is present and a valid district. */
  predicate AcceptableIndex(data: Json) {
    var ds := Get(data, "districts");
    !IsNullish(data)
    && Truthy(Get(data, "version")) && Truthy(Get(data, "source")) && Truthy(Get(data, "license"))
    && ds.JArr? && |ds.items| > 0
    && (forall k :: 0 <= k < |ds.items| ==> !IsNullish(ds.items[k]))
    && Every(ds.items, ValidDistrict)
  }

  /** The format check of the codes reports nothing iff every code
      matches. */
  lemma CodeFormatErrorsEmptyIff(codes: seq<Json>, i: nat)
    ensures CodeFormatErrors(codes, i) == [] <==> forall k :: 0 <= k < |codes| ==> CodeMatches(codes[k])
  {
    OneErrorPerBadCode(codes, i);
    assert forall k :: 0 <= k < |codes| && !CodeMatches(codes[k]) ==> k in BadPositions(codes);
    if CodeFormatErrors(codes, i) != [] {
      var e :| e in BadPositions(codes);
    }
  }

  /** The codes rules report nothing iff the codes are a non-empty array of
      matching codes. */
  lemma CodesErrorsEmptyIff(codes: Json, i: nat)
    ensures CodesErrors(codes, i) == [] <==>
      codes.JArr? && |codes.items| > 0 && forall k :: 0 <= k < |codes.items| ==> CodeMatches(codes.items[k])
  {
    if codes.JArr? && |codes.items| > 0 {
      CodeFormatErrorsEmptyIff(codes.items, i);
    }
  }

  /** A district passes every rule iff it is a valid district. */
  lemma DistrictErrorsEmptyIff(d: Json, i: nat)
    ensures DistrictErrors(d, i) == [] <==> ValidDistrict(d)
  {
    var codes := Get(d, "codes");
    var center := Get(d, "center");
    CodesErrorsEmptyIff(codes, i);
    var nameErrs := if !Truthy(Get(d, "name")) || !IsString(Get(d, "name")) then [DistrictError(i, InvalidName)] else [];
    var arsErrs := if Truthy(Get(d, "ars")) && !IsString(Get(d, "ars")) then [DistrictError(i, InvalidArs)] else [];
    var c, ce, st := CodesErrors(codes, i), CenterErrors(center, i), StateErrors(Get(d, "state"), i);
    assert DistrictErrors(d, i) == nameErrs + c + ce + st + arsErrs;
    assert |DistrictErrors(d, i)| == |nameErrs| + |c| + |ce| + |st| + |arsErrs|;
    assert ce == [] <==> (center.JArr? && |center.items| == 2
      && center.items[0].JNum? && center.items[1].JNum? && InGermany(center.items[0].n, center.items[1].n));
  }

  /** `s.every(p)`. */
  predicate Every<T>(s: seq<T>, p: T -> bool) {
    forall k :: 0 <= k < |s| ==> p(s[k])
  }

  lemma EverySnoc<T>(s: seq<T>, p: T -> bool)
    requires |s| > 0
    ensures Every(s, p) <==> Every(s[..|s| - 1], p) && p(s[|s| - 1])
  {
    var init := s[..|s| - 1];
    assert forall k :: 0 <= k < |init| ==> init[k] == s[k];
  }

  lemma {:induction false} AllDistrictsCleanIff(ds: seq<Json>)
    ensures AllDistrictErrorsFrom(ds, 0) == [] <==> Every(ds, ValidDistrict)
    decreases |ds|
  {
    if |ds| > 0 {
      var n := |ds| - 1;
      var init := ds[..n];
      AllDistrictsCleanIff(init);
      DistrictErrorsEmptyIff(ds[n], n);
      assert AllDistrictErrorsFrom(ds, 0) == AllDistrictErrorsFrom(init, 0) + DistrictErrors(ds[n], n);
      EverySnoc(ds, ValidDistrict);
    }
  }

  /** The script completes without errors iff the header fields are
      truthy, the districts are a non-empty array of present values, and
      the per-district rules report nothing. */
  lemma ValidateCleanIff(data: Json)
    ensures var ds := Get(data, "districts");
      ValidateKfzIndex(data) == Completed([]) <==>
        !IsNullish(data)
        && Truthy(Get(data, "version")) && Truthy(Get(data, "source")) && Truthy(Get(data, "license"))
        && ds.JArr? && |ds.items| > 0
        && (forall k :: 0 <= k < |ds.items| ==> !IsNullish(ds.items[k]))
        && AllDistrictErrorsFrom(ds.items, 0) == []
  {
    var ds := Get(data, "districts");
    if !IsNullish(data) && ds.JArr? && |ds.items| > 0
       && !(exists k :: 0 <= k < |ds.items| && IsNullish(ds.items[k])) {
      TopLevelCleanIff(data);
      ValidateMainBranch(data);
    }
  }

  /** Past the crash and early-stop cases, the header errors come first and
      the districts' errors follow, in district order. */
  lemma ValidateMainBranch(data: Json)
    requires var ds := Get(data, "districts");
      !IsNullish(data) && ds.JArr? && |ds.items| > 0 && forall k :: 0 <= k < |ds.items| ==> !IsNullish(ds.items[k])
    ensures ValidateKfzIndex(data) == Completed(TopLevelErrors(data) + AllDistrictErrorsFrom(Get(data, "districts").items, 0))
  {
  }

  lemma TopLevelCleanIff(data: Json)
    ensures TopLevelErrors(data) == [] <==>
      Truthy(Get(data, "version")) && Truthy(Get(data, "source")) && Truthy(Get(data, "license"))
  {
    var top := TopLevelErrors(data);
    if top != [] {
      assert top[0] in top;
    }
  }

  /** The script completes without errors iff its input is an acceptable
      index: no error is missed and none is reported spuriously. */
  lemma ValidateAcceptsIff(data: Json)
    ensures ValidateKfzIndex(data) == Completed([]) <==> AcceptableIndex(data)
  {
    ValidateCleanIff(data);
    var ds := Get(data, "districts");
    if ds.JArr? {
      AllDistrictsCleanIff(ds.items);
    }
  }

  /** A district in the shape the app expects. */
  function WellFormedDistrict(name: string, code: string, state: string): Json {
    JObj(map[
      "name" := JStr(name),
      "codes" := JArr([JStr(code)]),
      "center" := JArr([JNum(11.5), JNum(48.1)]),
      "state" := JStr(state)])
  }

  lemma WellFormedDistrictClean(name: string, code: string, state: string, i: nat)
    requires name != "" && IsCodeShape(code) && state in ValidStates
    ensures DistrictErrors(WellFormedDistrict(name, code, state), i) == []
  {
    var d := WellFormedDistrict(name, code, state);
    assert Get(d, "codes") == JArr([JStr(code)]);
    assert CodeFormatErrors([JStr(code)], i) == [] by {
      assert [JStr(code)][..0] == [];
    }
    assert Get(d, "ars") == JUndefined;
  }

  function Header(version: Json, source: Json, license: Json, districts: Json): Json {
    JObj(map["version" := version, "source" := source, "license" := license, "districts" := districts])
  }

  lemma TwoClean(check: (Json, nat) -> seq<ValidationError>, d1: Json, d2: Json)
    requires check(d1, 0) == [] && check(d2, 1) == []
    ensures ErrorsFrom(check, [d1, d2], 0) == []
  {
    assert [d1, d2][..1] == [d1];
    assert [d1][..0] == [];
    assert ErrorsFrom(check, [d1], 0) == ErrorsFrom(check, [], 0) + check(d1, 0);
    assert ErrorsFrom(check, [d1, d2], 0) == ErrorsFrom(check, [d1], 0) + check(d2, 1);
  }

  /** Nothing wrong at the top level or in any district: no error. */
  lemma CleanInputAccepted(data: Json, ds: seq<Json>)
    requires !IsNullish(data) && TopLevelErrors(data) == []
    requires Get(data, "districts") == JArr(ds) && |ds| > 0
    requires forall k :: 0 <= k < |ds| ==> !IsNullish(ds[k])
    requires AllDistrictErrorsFrom(ds, 0) == []
    ensures ValidateKfzIndex(data) == Completed([])
  {
  }

  lemma HeaderFields(d1: Json, d2: Json)
    ensures var data := Header(JStr("1"), JStr("s"), JStr("l"), JArr([d1, d2]));
      TopLevelErrors(data) == [] && Get(data, "districts") == JArr([d1, d2])
  {
  }

  /** Two well-formed districts sharing a code: neither has an error. */
  lemma SharedCodeDistrictsClean(name1: string, name2: string)
    requires name1 != "" && name2 != ""
    ensures AllDistrictErrorsFrom([WellFormedDistrict(name1, "B", "BE"), WellFormedDistrict(name2, "B", "BE")], 0) == []
  {
    assert IsCodeShape("B");
    WellFormedDistrictClean(name1, "B", "BE", 0);
    WellFormedDistrictClean(name2, "B", "BE", 1);
    TwoClean(DistrictErrors, WellFormedDistrict(name1, "B", "BE"), WellFormedDistrict(name2, "B", "BE"));
  }

  /** Two clean object districts under a complete header: no error. */
  lemma CleanPairAccepted(d1: Json, d2: Json)
    requires d1.JObj? && d2.JObj?
    requires AllDistrictErrorsFrom([d1, d2], 0) == []
    ensures ValidateKfzIndex(Header(JStr("1"), JStr("s"), JStr("l"), JArr([d1, d2]))) == Completed([])
  {
    HeaderFields(d1, d2);
    CleanInputAccepted(Header(JStr("1"), JStr("s"), JStr("l"), JArr([d1, d2])), [d1, d2]);
  }

  /** Two districts sharing a code: no error at all. */
  lemma SharedCodeAccepted(name1: string, name2: string)
    requires name1 != "" && name2 != ""
    ensures var d1, d2 := WellFormedDistrict(name1, "B", "BE"), WellFormedDistrict(name2, "B", "BE");
      ValidateKfzIndex(Header(JStr("1"), JStr("s"), JStr("l"), JArr([d1, d2]))) == Completed([])
  {
    SharedCodeDistrictsClean(name1, name2);
    CleanPairAccepted(WellFormedDistrict(name1, "B", "BE"), WellFormedDistrict(name2, "B", "BE"));
  }

  /** A one-element array around a good code passes the format rule, as the
      string conversion of `test` makes it. */
  lemma WrappedCodeMatches()
    ensures CodeMatches(JArr([JStr("AB")]))
    ensures !CodeMatches(JArr([JStr("A"), JStr("B")]))
    ensures !CodeMatches(JStr("ABCD")) && !CodeMatches(JStr("ab"))
  {
    assert IsCodeShape("AB");
    assert |"ABCD"| == 4;
    assert "ab"[0] == 'a' && !IsCodeLetter('a');
  }

  /** Every short name of the state table is on the script's list. */
  lemma ShortNamesAreValidStates(i: nat)
    requires i < |Bundeslaender.Table|
    ensures Bundeslaender.Table[i].1.shortName in ValidStates
  {
  }

  /** Where each listed state sits in the state table. */
  const TablePosition: seq<nat> := [7, 8, 10, 11, 3, 1, 5, 12, 2, 4, 6, 9, 13, 14, 0, 15]

  /** Every listed state is the short name of a table entry; with sixteen
      entries on each side the two lists name the same states. */
  lemma ValidStatesAreShortNames(j: nat)
    requires j < |ValidStates|
    ensures TablePosition[j] < |Bundeslaender.Table|
    ensures Bundeslaender.Table[TablePosition[j]].1.shortName == ValidStates[j]
  {
  }

  /** A centre in the Atlantic is reported, a three-element centre is a
      different error. */
  lemma CenterExamples(i: nat)
    ensures CenterErrors(JArr([JNum(-30.0), JNum(40.0)]), i) == [DistrictError(i, OutsideGermany)]
    ensures CenterErrors(JArr([JNum(10.0), JNum(50.0), JNum(0.0)]), i) == [DistrictError(i, InvalidCenter)]
  {
  }
}
