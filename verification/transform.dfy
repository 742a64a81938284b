/** The build-time transform from the raw district list to the search
    index (`transformToKfzIndex` in scripts/transform-index.ts): one feature
    per district, keyed `district_<i>`, and for every code, uppercased, the
    ids of the districts that carry it, in district order.

    Both maps are built the way the script builds them, district by
    district and code by code. The reference `CodeIndices` says per code,
    independently of any map, which districts it lists and how often; the
    lemmas tie the two together. Uppercased keys can never name a property
    of `Object.prototype` (those all contain lower-case letters), so the
    script's plain-object maps behave as the maps here. */
module Transform {
  import opened Wrappers
  import opened Text
  import opened Normalize
  import opened Search

  datatype RawDistrict = RawDistrict(
    name: string,
    codes: seq<string>,
    state: string,
    center: (real, real),
    ars: Option<string>)

  datatype RawIndexData = RawIndexData(
    version: string,
    source: string,
    license: string,
    districts: seq<RawDistrict>)

  /** `` `district_${index}` ``. */
  function DistrictId(i: nat): (id: string)
    ensures |id| > 9 && id[..9] == "district_"
  {
    "district_" + NatToString(i)
  }

  lemma DistrictIdInjective(i: nat, j: nat)
    requires DistrictId(i) == DistrictId(j)
    ensures i == j
  {
    assert DistrictId(i)[9..] == NatToString(i);
    assert DistrictId(j)[9..] == NatToString(j);
    NatToStringInjective(i, j);
  }

  /** `district.ars || district.state`: an absent or empty ARS falls back
      to the state code. */
  function ArsOrState(d: RawDistrict): (a: string)
    ensures d.ars.Some? && d.ars.value != "" ==> a == d.ars.value
    ensures !(d.ars.Some? && d.ars.value != "") ==> a == d.state
  {
    if d.ars.Some? && d.ars.value != "" then d.ars.value else d.state
  }

  function FeatureOf(d: RawDistrict): (f: Feature)
    ensures f.name == d.name && f.ars == ArsOrState(d) && f.kfzCodes == d.codes && f.center == d.center
  {
    Feature(d.name, ArsOrState(d), d.codes, d.center)
  }

  function Lookup(m: map<string, seq<string>>, k: string): seq<string> {
    if k in m then m[k] else []
  }

  /** The inner `forEach`: push `id` onto the list of each uppercased code. */
  function AddCodes(m: map<string, seq<string>>, codes: seq<string>, id: string): map<string, seq<string>>
    decreases |codes|
  {
    if |codes| == 0 then m
    else
      var prev := AddCodes(m, codes[..|codes| - 1], id);
      var key := Upper(codes[|codes| - 1]);
      prev[key := Lookup(prev, key) + [id]]
  }

  /** The outer `forEach`, as far as `codeToIds` is concerned. */
  function CodeMap(ds: seq<RawDistrict>): map<string, seq<string>>
    decreases |ds|
  {
    if |ds| == 0 then map[]
    else AddCodes(CodeMap(ds[..|ds| - 1]), ds[|ds| - 1].codes, DistrictId(|ds| - 1))
  }

  /** The outer `forEach`, as far as `features` is concerned. */
  function FeatureMap(ds: seq<RawDistrict>): map<string, Feature>
    decreases |ds|
  {
    if |ds| == 0 then map[]
    else FeatureMap(ds[..|ds| - 1])[DistrictId(|ds| - 1) := FeatureOf(ds[|ds| - 1])]
  }

  /** `transformToKfzIndex(raw)`. */
  function TransformToKfzIndex(raw: RawIndexData): (idx: KfzIndex)
    ensures idx.version == 1 && idx.generated == raw.version && idx.source == raw.source
    ensures idx.codeToIds == CodeMap(raw.districts) && idx.features == FeatureMap(raw.districts)
  {
    KfzIndex(1, raw.version, raw.source, CodeMap(raw.districts), FeatureMap(raw.districts))
  }

  // ---------------------------------------------------------------------
  // Reference: which districts each code lists

  /** How many of `codes` uppercase to `c`. */
  function CountUpper(codes: seq<string>, c: string): nat
    decreases |codes|
  {
    if |codes| == 0 then 0
    else CountUpper(codes[..|codes| - 1], c) + (if Upper(codes[|codes| - 1]) == c then 1 else 0)
  }

  /** District numbers, in order, once per code of that district that
      uppercases to `c`. */
  function CodeIndices(ds: seq<RawDistrict>, c: string): seq<nat>
    decreases |ds|
  {
    if |ds| == 0 then []
    else CodeIndices(ds[..|ds| - 1], c) + seq(CountUpper(ds[|ds| - 1].codes, c), _ => |ds| - 1)
  }

  function Ids(idx: seq<nat>): (ids: seq<string>)
    ensures |ids| == |idx|
    ensures forall k :: 0 <= k < |idx| ==> ids[k] == DistrictId(idx[k])
  {
    seq(|idx|, k requires 0 <= k < |idx| => DistrictId(idx[k]))
  }

  lemma {:induction false} CountUpperPositive(codes: seq<string>, k: nat)
    requires k < |codes|
    ensures CountUpper(codes, Upper(codes[k])) > 0
    decreases |codes|
  {
    if k < |codes| - 1 {
      assert codes[..|codes| - 1][k] == codes[k];
      CountUpperPositive(codes[..|codes| - 1], k);
    }
  }

  /** The effect of one district's codes on the list of `c`. */
  lemma {:induction false} AddCodesAt(m: map<string, seq<string>>, codes: seq<string>, id: string, c: string)
    ensures (c in AddCodes(m, codes, id)) <==> (c in m || CountUpper(codes, c) > 0)
    ensures Lookup(AddCodes(m, codes, id), c) == Lookup(m, c) + seq(CountUpper(codes, c), _ => id)
    decreases |codes|
  {
    if |codes| > 0 {
      var init := codes[..|codes| - 1];
      AddCodesAt(m, init, id, c);
      var n := CountUpper(init, c);
      if Upper(codes[|codes| - 1]) == c {
        assert seq(n, _ => id) + [id] == seq(n + 1, _ => id);
      }
    }
  }

  /** `codeToIds[c]` lists exactly the reference districts, and a code is a
      key exactly when its list is non-empty. */
  lemma {:induction false} CodeMapAt(ds: seq<RawDistrict>, c: string)
    ensures Lookup(CodeMap(ds), c) == Ids(CodeIndices(ds, c))
    ensures c in CodeMap(ds) <==> |CodeIndices(ds, c)| > 0
    decreases |ds|
  {
    if |ds| > 0 {
      var init := ds[..|ds| - 1];
      var n := |ds| - 1;
      CodeMapAt(init, c);
      AddCodesAt(CodeMap(init), ds[n].codes, DistrictId(n), c);
      var tail := seq(CountUpper(ds[n].codes, c), _ => n);
      assert Ids(CodeIndices(init, c) + tail) == Ids(CodeIndices(init, c)) + seq(|tail|, _ => DistrictId(n));
    }
  }

  /** The reference lists are in district order and name real districts;
      district `i` appears once per code of it that uppercases to `c`. */
  lemma {:induction false} CodeIndicesShape(ds: seq<RawDistrict>, c: string)
    ensures forall k :: 0 <= k < |CodeIndices(ds, c)| ==> CodeIndices(ds, c)[k] < |ds|
    ensures forall k, l :: 0 <= k <= l < |CodeIndices(ds, c)| ==> CodeIndices(ds, c)[k] <= CodeIndices(ds, c)[l]
    ensures forall i :: 0 <= i < |ds| && CountUpper(ds[i].codes, c) > 0 ==> i in CodeIndices(ds, c)
    decreases |ds|
  {
    if |ds| > 0 {
      var init := ds[..|ds| - 1];
      CodeIndicesShape(init, c);
      var n := |ds| - 1;
      var tail := seq(CountUpper(ds[n].codes, c), _ => n);
      assert CodeIndices(ds, c) == CodeIndices(init, c) + tail;
      forall i | 0 <= i < |ds| && CountUpper(ds[i].codes, c) > 0
        ensures i in CodeIndices(ds, c)
      {
        if i < n {
          assert init[i] == ds[i];
        } else {
          assert tail[0] == n;
        }
      }
    }
  }

  /** The ids of the first `n` districts. */
  function DistrictIds(n: nat): set<string> {
    set i | 0 <= i < n :: DistrictId(i)
  }

  /** District `n` has an id none of the districts before it has. */
  lemma DistrictIdFresh(n: nat)
    ensures DistrictId(n) !in DistrictIds(n)
  {
    if DistrictId(n) in DistrictIds(n) {
      var i :| 0 <= i < n && DistrictId(n) == DistrictId(i);
      DistrictIdInjective(n, i);
    }
  }

  lemma DistrictIdsSnoc(n: nat)
    ensures DistrictIds(n + 1) == DistrictIds(n) + {DistrictId(n)}
  {
  }

  lemma {:induction false} DistrictIdsSize(n: nat)
    ensures |DistrictIds(n)| == n
    decreases n
  {
    if n > 0 {
      DistrictIdsSize(n - 1);
      DistrictIdsSnoc(n - 1);
      DistrictIdFresh(n - 1);
    }
  }

  /** The features map is keyed by exactly the district ids. */
  lemma {:induction false} FeatureMapKeys(ds: seq<RawDistrict>)
    ensures FeatureMap(ds).Keys == DistrictIds(|ds|)
    decreases |ds|
  {
    if |ds| > 0 {
      FeatureMapKeys(ds[..|ds| - 1]);
      assert DistrictIds(|ds|) == DistrictIds(|ds| - 1) + {DistrictId(|ds| - 1)};
    }
  }

  /** Each district's feature sits under its own id. */
  lemma {:induction false} FeatureMapValues(ds: seq<RawDistrict>, i: nat)
    requires i < |ds|
    ensures DistrictId(i) in FeatureMap(ds) && FeatureMap(ds)[DistrictId(i)] == FeatureOf(ds[i])
    decreases |ds|
  {
    var n := |ds| - 1;
    if i < n {
      FeatureMapValues(ds[..n], i);
      if DistrictId(i) == DistrictId(n) {
        DistrictIdInjective(i, n);
      }
    }
  }

  // ---------------------------------------------------------------------
  // Properties of the transform

  /** Every code of every district lists that district under its uppercase
      form. */
  lemma EveryCodeListsItsDistrict(raw: RawIndexData, i: nat, k: nat)
    requires i < |raw.districts| && k < |raw.districts[i].codes|
    ensures var c := Upper(raw.districts[i].codes[k]);
      var idx := TransformToKfzIndex(raw);
      c in idx.codeToIds && DistrictId(i) in idx.codeToIds[c]
  {
    var ds := raw.districts;
    var c := Upper(ds[i].codes[k]);
    CountUpperPositive(ds[i].codes, k);
    CodeIndicesShape(ds, c);
    CodeMapAt(ds, c);
    var j :| 0 <= j < |CodeIndices(ds, c)| && CodeIndices(ds, c)[j] == i;
    assert Ids(CodeIndices(ds, c))[j] == DistrictId(i);
  }

  /** Referential integrity: every id in any code list is a feature key. */
  lemma IdsResolve(raw: RawIndexData, c: string, id: string)
    requires c in TransformToKfzIndex(raw).codeToIds && id in TransformToKfzIndex(raw).codeToIds[c]
    ensures id in TransformToKfzIndex(raw).features
  {
    var ds := raw.districts;
    CodeMapAt(ds, c);
    CodeIndicesShape(ds, c);
    FeatureMapKeys(ds);
    var k :| 0 <= k < |Ids(CodeIndices(ds, c))| && Ids(CodeIndices(ds, c))[k] == id;
    assert id == DistrictId(CodeIndices(ds, c)[k]);
  }

  /** Each list names districts in ascending order, and every key has a
      non-empty list. */
  lemma ListsInDistrictOrder(raw: RawIndexData, c: string)
    requires c in TransformToKfzIndex(raw).codeToIds
    ensures var ids := TransformToKfzIndex(raw).codeToIds[c];
      |ids| > 0
      && exists idx: seq<nat> ::
        ids == Ids(idx) && (forall k, l :: 0 <= k <= l < |idx| ==> idx[k] <= idx[l])
        && (forall k :: 0 <= k < |idx| ==> idx[k] < |raw.districts|)
  {
    CodeMapAt(raw.districts, c);
    CodeIndicesShape(raw.districts, c);
  }

  /** One feature per district, copied from it. */
  lemma OneFeaturePerDistrict(raw: RawIndexData, i: nat)
    requires i < |raw.districts|
    ensures var idx := TransformToKfzIndex(raw);
      |idx.features| == |raw.districts|
      && DistrictId(i) in idx.features
      && idx.features[DistrictId(i)] == FeatureOf(raw.districts[i])
  {
    FeatureMapKeys(raw.districts);
    DistrictIdsSize(|raw.districts|);
    FeatureMapValues(raw.districts, i);
  }

  /** No de-duplication: a code given twice by one district lists that
      district twice. */
  lemma RepeatedCodeListedTwice(d: RawDistrict)
    requires d.codes == ["B", "B"]
    ensures var idx := TransformToKfzIndex(RawIndexData("v", "s", "l", [d]));
      "B" in idx.codeToIds && idx.codeToIds["B"] == [DistrictId(0), DistrictId(0)]
  {
    var ds := [d];
    assert Upper("B") == "B";
    CodeMapAt(ds, "B");
    assert CountUpper(["B"], "B") == 1 by {
      assert ["B"][..0] == [];
    }
    assert CountUpper(d.codes, "B") == 2 by {
      assert d.codes[..1] == ["B"];
    }
    assert ds[..0] == [];
    assert CodeIndices(ds, "B") == [0, 0];
  }
}
