/** The sixteen German states keyed by the first two digits of the official
    regional key (ARS), and the lookups the app makes on that table. */
module Bundeslaender {
  import opened Wrappers
  import opened Text

  datatype Bundesland = Bundesland(code: string, name: string, shortName: string)

  /** The `BUNDESLAENDER` record as (key, value) pairs in declaration order. */
  const Table: seq<(string, Bundesland)> := [
    ("01", Bundesland("01", "Schleswig-Holstein", "SH")),
    ("02", Bundesland("02", "Hamburg", "HH")),
    ("03", Bundesland("03", "Niedersachsen", "NI")),
    ("04", Bundesland("04", "Bremen", "HB")),
    ("05", Bundesland("05", "Nordrhein-Westfalen", "NW")),
    ("06", Bundesland("06", "Hessen", "HE")),
    ("07", Bundesland("07", "Rheinland-Pfalz", "RP")),
    ("08", Bundesland("08", "Baden-W\U{FC}rttemberg", "BW")),
    ("09", Bundesland("09", "Bayern", "BY")),
    ("10", Bundesland("10", "Saarland", "SL")),
    ("11", Bundesland("11", "Berlin", "BE")),
    ("12", Bundesland("12", "Brandenburg", "BB")),
    ("13", Bundesland("13", "Mecklenburg-Vorpommern", "MV")),
    ("14", Bundesland("14", "Sachsen", "SN")),
    ("15", Bundesland("15", "Sachsen-Anhalt", "ST")),
    ("16", Bundesland("16", "Th\U{FC}ringen", "TH"))
  ]

  /** The record's keys. */
  const Keys: set<string> := set i | 0 <= i < |Table| :: Table[i].0

  /** Sixteen entries, every entry's `code` is its key, and no key or code
      repeats. */
  lemma TableWellFormed()
    ensures |Table| == 16
    ensures forall i :: 0 <= i < |Table| ==> Table[i].1.code == Table[i].0
    ensures forall i, j :: 0 <= i < j < |Table| ==> Table[i].0 != Table[j].0
  {
    assert Table[0].0 == "01" && Table[1].0 == "02" && Table[2].0 == "03" && Table[3].0 == "04";
    assert Table[4].0 == "05" && Table[5].0 == "06" && Table[6].0 == "07" && Table[7].0 == "08";
    assert Table[8].0 == "09" && Table[9].0 == "10" && Table[10].0 == "11" && Table[11].0 == "12";
    assert Table[12].0 == "13" && Table[13].0 == "14" && Table[14].0 == "15" && Table[15].0 == "16";
  }

  lemma TableNamesNonEmpty()
    ensures forall i :: 0 <= i < |Table| ==> Table[i].1.name != "" && Table[i].1.shortName != ""
  {
  }

  /** `BUNDESLAENDER[key]`. */
  function Lookup(key: string): (r: Option<Bundesland>)
    ensures r.Some? <==> key in Keys
    ensures r.Some? ==> r.value.code == key
    ensures r.Some? ==> exists i :: 0 <= i < |Table| && Table[i] == (key, r.value)
  {
    TableWellFormed();
    Find(Table, key)
  }

  function Find(entries: seq<(string, Bundesland)>, key: string): (r: Option<Bundesland>)
    ensures r.Some? <==> exists i :: 0 <= i < |entries| && entries[i].0 == key
    ensures r.Some? ==> exists i :: 0 <= i < |entries| && entries[i] == (key, r.value)
  {
    if |entries| == 0 then None
    else if entries[0].0 == key then Some(entries[0].1)
    else
      var r := Find(entries[1..], key);
      assert forall i :: 0 < i < |entries| ==> entries[i] == entries[1..][i - 1];
      r
  }

  /** `getBundeslandFromArs`: the state named by the first two characters,
      `undefined` for a key shorter than two characters. */
  function GetFromArs(ars: string): (r: Option<Bundesland>)
    ensures |ars| < 2 ==> r.None?
    ensures |ars| >= 2 ==> r == Lookup(ars[..2])
  {
    if ars == "" || |ars| < 2 then None else Lookup(ars[..2])
  }

  /** Exactly the keys that start with a state number `01`..`16` resolve,
      and they resolve to that state. */
  lemma GetFromArsCharacterised(ars: string)
    ensures GetFromArs(ars).Some? <==> |ars| >= 2 && ars[..2] in Keys
    ensures GetFromArs(ars).Some? ==> GetFromArs(ars).value.code == ars[..2]
  {
  }

  lemma LookupBayern()
    ensures Lookup("09") == Some(Bundesland("09", "Bayern", "BY"))
  {
    TableWellFormed();
    assert Table[8].0 == "09";
    var r := Lookup("09");
    assert "09" in Keys;
    var i :| 0 <= i < |Table| && Table[i] == ("09", r.value);
    assert Table[8].0 == "09";
    assert i == 8;
  }

  /** A Munich-area key resolves to Bavaria. */
  lemma GetFromArsExample()
    ensures GetFromArs("091620000000") == Some(Bundesland("09", "Bayern", "BY"))
  {
    assert "091620000000"[..2] == "09";
    LookupBayern();
  }

  /** The keys are exactly "01".."16". */
  lemma KeysAreStateNumbers(k: string)
    ensures k in Keys <==> exists n :: 1 <= n <= 16 && NumberKey(n) == k
  {
    TableKeysAreNumberKeys();
    if exists n :: 1 <= n <= 16 && NumberKey(n) == k {
      var n :| 1 <= n <= 16 && NumberKey(n) == k;
      assert Table[n - 1].0 == k;
    }
  }

  /** "17" is no state number, and one character is too short. */
  lemma GetFromArsUnknownExample()
    ensures GetFromArs("17").None?
    ensures GetFromArs("9").None?
  {
    assert "17"[..2] == "17";
    forall n | 1 <= n <= 16
      ensures NumberKey(n) != "17"
    {
      if n >= 10 {
        assert NumberKey(n)[1] == DigitChar(n - 10);
        assert n - 10 < 7;
      }
    }
    KeysAreStateNumbers("17");
  }

  // ---------------------------------------------------------------------
  // Object.values order

  /** A property key that is a canonical array index ("0", "7", "10", but
      not "01"). Object property enumeration lists such keys first, in
      ascending numeric order, and the remaining string keys afterwards in
      insertion order. Only keys of at most nine digits are recognised: a
      ten-digit index (up to 4294967294) is not, which does not matter for
      the two-digit keys of the state table. */
  predicate IsArrayIndexKey(k: string) {
    |k| >= 1
    && (forall i :: 0 <= i < |k| ==> '0' <= k[i] <= '9')
    && (k[0] != '0' || |k| == 1)
    && |k| <= 9
  }

  function IndexEntries(entries: seq<(string, Bundesland)>): (r: seq<Bundesland>)
    ensures |r| <= |entries|
  {
    if |entries| == 0 then []
    else (if IsArrayIndexKey(entries[0].0) then [entries[0].1] else [])
         + IndexEntries(entries[1..])
  }

  function OtherEntries(entries: seq<(string, Bundesland)>): (r: seq<Bundesland>)
    ensures |r| <= |entries|
  {
    if |entries| == 0 then []
    else (if IsArrayIndexKey(entries[0].0) then [] else [entries[0].1])
         + OtherEntries(entries[1..])
  }

  function Values(entries: seq<(string, Bundesland)>): (r: seq<Bundesland>)
    ensures |r| == |entries|
    ensures forall i :: 0 <= i < |entries| ==> r[i] == entries[i].1
  {
    seq(|entries|, i requires 0 <= i < |entries| => entries[i].1)
  }

  lemma {:induction false} IndexEntriesOfIndexKeys(entries: seq<(string, Bundesland)>)
    requires forall i :: 0 <= i < |entries| ==> IsArrayIndexKey(entries[i].0)
    ensures IndexEntries(entries) == Values(entries)
    ensures OtherEntries(entries) == []
  {
    if |entries| > 0 {
      IndexEntriesOfIndexKeys(entries[1..]);
      assert Values(entries) == [entries[0].1] + Values(entries[1..]);
    }
  }

  lemma {:induction false} IndexEntriesOfOtherKeys(entries: seq<(string, Bundesland)>)
    requires forall i :: 0 <= i < |entries| ==> !IsArrayIndexKey(entries[i].0)
    ensures IndexEntries(entries) == []
    ensures OtherEntries(entries) == Values(entries)
  {
    if |entries| > 0 {
      IndexEntriesOfOtherKeys(entries[1..]);
      assert Values(entries) == [entries[0].1] + Values(entries[1..]);
    }
  }

  lemma {:induction false} EntriesAppend(a: seq<(string, Bundesland)>, b: seq<(string, Bundesland)>)
    ensures IndexEntries(a + b) == IndexEntries(a) + IndexEntries(b)
    ensures OtherEntries(a + b) == OtherEntries(a) + OtherEntries(b)
  {
    if |a| > 0 {
      assert (a + b)[1..] == a[1..] + b;
      EntriesAppend(a[1..], b);
    } else {
      assert a + b == b;
    }
  }

  /** `Object.values` of a record: the values with array-index keys first,
      then the others in declaration order (the array-index keys of a record
      declared in ascending order, as here). */
  function ObjectValues(entries: seq<(string, Bundesland)>): (r: seq<Bundesland>)
  {
    IndexEntries(entries) + OtherEntries(entries)
  }

  /** The two-digit key of state number `n`: "01".."16". */
  function NumberKey(n: nat): (k: string)
    requires 1 <= n <= 16
    ensures |k| == 2
  {
    if n < 10 then ['0', DigitChar(n)] else ['1', DigitChar(n - 10)]
  }

  lemma TableKeysAreNumberKeys()
    ensures |Table| == 16
    ensures forall i :: 0 <= i < 16 ==> Table[i].0 == NumberKey(i + 1)
  {
    assert NumberKey(1) == "01" && NumberKey(2) == "02" && NumberKey(3) == "03" && NumberKey(4) == "04";
    assert NumberKey(5) == "05" && NumberKey(6) == "06" && NumberKey(7) == "07" && NumberKey(8) == "08";
    assert NumberKey(9) == "09" && NumberKey(10) == "10" && NumberKey(11) == "11" && NumberKey(12) == "12";
    assert NumberKey(13) == "13" && NumberKey(14) == "14" && NumberKey(15) == "15" && NumberKey(16) == "16";
  }

  lemma NumberKeyIsIndex(n: nat)
    requires 1 <= n <= 16
    ensures IsArrayIndexKey(NumberKey(n)) <==> n >= 10
  {
    var k := NumberKey(n);
    if n >= 10 {
      assert forall i :: 0 <= i < |k| ==> '0' <= k[i] <= '9';
    }
  }

  lemma LowKeysAreNotIndices()
    ensures forall i :: 0 <= i < 9 ==> !IsArrayIndexKey(Table[..9][i].0)
  {
    TableKeysAreNumberKeys();
    forall i | 0 <= i < 9
      ensures !IsArrayIndexKey(Table[..9][i].0)
    {
      NumberKeyIsIndex(i + 1);
    }
  }

  lemma HighKeysAreIndices()
    ensures forall i :: 0 <= i < 7 ==> IsArrayIndexKey(Table[9..][i].0)
  {
    TableKeysAreNumberKeys();
    forall i | 0 <= i < 7
      ensures IsArrayIndexKey(Table[9..][i].0)
    {
      NumberKeyIsIndex(i + 10);
    }
  }

  /** `Object.values` of a record whose first `n` keys are not array
      indices and whose remaining keys are ascending array indices. */
  lemma ObjectValuesSplit(entries: seq<(string, Bundesland)>, n: nat)
    requires n <= |entries|
    requires forall i :: 0 <= i < n ==> !IsArrayIndexKey(entries[..n][i].0)
    requires forall i :: 0 <= i < |entries| - n ==> IsArrayIndexKey(entries[n..][i].0)
    ensures ObjectValues(entries) == Values(entries[n..]) + Values(entries[..n])
  {
    var lo, hi := entries[..n], entries[n..];
    assert entries == lo + hi;
    EntriesAppend(lo, hi);
    IndexEntriesOfOtherKeys(lo);
    IndexEntriesOfIndexKeys(hi);
  }

  /** `getAllBundeslaender()`: "10".."16" are array indices, so
      `Object.values` lists them first, then "01".."09"
      (`GetAllIsObjectValues`). */
  function GetAll(): (r: seq<Bundesland>)
  {
    Values(Table[9..]) + Values(Table[..9])
  }

  lemma GetAllIsObjectValues()
    ensures GetAll() == ObjectValues(Table)
  {
    TableKeysAreNumberKeys();
    LowKeysAreNotIndices();
    HighKeysAreIndices();
    ObjectValuesSplit(Table, 9);
  }

  lemma SwappedValuesContents(entries: seq<(string, Bundesland)>, n: nat)
    requires n <= |entries|
    ensures |Values(entries[n..]) + Values(entries[..n])| == |entries|
    ensures forall b :: b in Values(entries[n..]) + Values(entries[..n]) <==>
      exists i :: 0 <= i < |entries| && entries[i].1 == b
  {
    var all := Values(entries[n..]) + Values(entries[..n]);
    var m := |entries| - n;
    forall b | b in all
      ensures exists i :: 0 <= i < |entries| && entries[i].1 == b
    {
      var k :| 0 <= k < |all| && all[k] == b;
      if k < m {
        assert entries[n + k].1 == b;
      } else {
        assert entries[k - m].1 == b;
      }
    }
    forall i | 0 <= i < |entries|
      ensures entries[i].1 in all
    {
      if i < n {
        assert all[m + i] == entries[i].1;
      } else {
        assert all[i - n] == entries[i].1;
      }
    }
  }

  /** All sixteen states appear in `GetAll()`, and nothing else does. */
  lemma GetAllContents()
    ensures |GetAll()| == 16
    ensures forall b :: b in GetAll() <==> exists i :: 0 <= i < |Table| && Table[i].1 == b
  {
    TableKeysAreNumberKeys();
    SwappedValuesContents(Table, 9);
  }

  // ---------------------------------------------------------------------
  // Random selection

  predicate CodesDistinct(bs: seq<Bundesland>) {
    forall i, j :: 0 <= i < j < |bs| ==> bs[i].code != bs[j].code
  }

  lemma SwappedCodesDistinct(entries: seq<(string, Bundesland)>, n: nat)
    requires n <= |entries|
    requires forall i :: 0 <= i < |entries| ==> entries[i].1.code == entries[i].0
    requires forall i, j :: 0 <= i < j < |entries| ==> entries[i].0 != entries[j].0
    ensures CodesDistinct(Values(entries[n..]) + Values(entries[..n]))
  {
    var all := Values(entries[n..]) + Values(entries[..n]);
    var m := |entries| - n;
    forall i, j | 0 <= i < j < |all|
      ensures all[i].code != all[j].code
    {
      var ti := if i < m then i + n else i - m;
      var tj := if j < m then j + n else j - m;
      assert all[i] == entries[ti].1 && all[j] == entries[tj].1;
    }
  }

  lemma GetAllCodesDistinct()
    ensures CodesDistinct(GetAll())
  {
    TableWellFormed();
    SwappedCodesDistinct(Table, 9);
  }

  /** The codes of `GetAll()` are exactly the sixteen state numbers. */
  lemma GetAllCodes()
    ensures forall b :: b in GetAll() ==> b.code in Keys
    ensures forall k :: k in Keys ==> exists b :: b in GetAll() && b.code == k
  {
    GetAllContents();
    TableWellFormed();
    forall b | b in GetAll()
      ensures b.code in Keys
    {
      var i :| 0 <= i < |Table| && Table[i].1 == b;
      assert Table[i].0 in Keys;
    }
    forall k | k in Keys
      ensures exists b :: b in GetAll() && b.code == k
    {
      var i :| 0 <= i < |Table| && Table[i].0 == k;
      assert Table[i].1 in GetAll();
    }
  }

  /** The states other than `exclude`, in `Object.values` order. */
  function Available(exclude: string): (r: seq<Bundesland>)
    ensures forall b :: b in r <==> b in GetAll() && b.code != exclude
  {
    FilterCode(GetAll(), exclude)
  }

  function FilterCode(bs: seq<Bundesland>, exclude: string): (r: seq<Bundesland>)
    ensures |r| <= |bs|
    ensures forall b :: b in r <==> b in bs && b.code != exclude
  {
    if |bs| == 0 then []
    else (if bs[0].code != exclude then [bs[0]] else []) + FilterCode(bs[1..], exclude)
  }

  predicate HasCode(bs: seq<Bundesland>, code: string) {
    exists b :: b in bs && b.code == code
  }

  /** Filtering states with distinct codes keeps them distinct. */
  lemma {:induction false} FilterCodeDistinct(bs: seq<Bundesland>, exclude: string)
    requires CodesDistinct(bs)
    ensures CodesDistinct(FilterCode(bs, exclude))
  {
    if |bs| > 0 {
      var tail := bs[1..];
      FilterCodeDistinct(tail, exclude);
      var ft := FilterCode(tail, exclude);
      forall j | 0 <= j < |ft|
        ensures bs[0].code != ft[j].code
      {
        assert ft[j] in tail;
        var k :| 0 <= k < |tail| && tail[k] == ft[j];
        assert bs[k + 1] == ft[j];
      }
    }
  }

  /** Filtering states with distinct codes removes one state when the code
      occurs and none otherwise. */
  lemma {:induction false} FilterCodeLength(bs: seq<Bundesland>, exclude: string)
    requires CodesDistinct(bs)
    ensures |FilterCode(bs, exclude)| == |bs| - (if HasCode(bs, exclude) then 1 else 0)
  {
    if |bs| > 0 {
      var tail := bs[1..];
      FilterCodeLength(tail, exclude);
      if bs[0].code == exclude {
        assert HasCode(bs, exclude) by { assert bs[0] in bs; }
        forall b | b in tail
          ensures b.code != exclude
        {
          var k :| 0 <= k < |tail| && tail[k] == b;
          assert bs[k + 1] == b;
        }
      } else {
        assert HasCode(bs, exclude) <==> HasCode(tail, exclude) by {
          if HasCode(bs, exclude) {
            var b :| b in bs && b.code == exclude;
            assert b in tail;
          }
        }
      }
    }
  }

  /** Excluding a state number leaves fifteen states, anything else leaves
      all sixteen; the available states have distinct codes. */
  lemma AvailableCount(exclude: string)
    ensures |Available(exclude)| == if exclude in Keys then 15 else 16
    ensures CodesDistinct(Available(exclude))
  {
    GetAllCodesDistinct();
    HasCodeIffKey(exclude);
    FilterCodeDistinct(GetAll(), exclude);
    FilterCodeLength(GetAll(), exclude);
  }

  lemma HasCodeIffKey(k: string)
    ensures HasCode(GetAll(), k) <==> k in Keys
  {
    GetAllCodes();
  }

  /** `p` lists every index below `n` exactly once. */
  predicate IsIndexPermutation(p: seq<nat>, n: nat) {
    |p| == n && (forall i :: 0 <= i < |p| ==> p[i] < n) && NoDup(p)
  }

  /** The first `SliceEnd(|avail|, count)` states of `avail` in the order
      `order` gives: the shuffle followed by `slice(0, count)`. */
  function PickShuffled(avail: seq<Bundesland>, count: int, order: seq<nat>): (r: seq<Bundesland>)
    requires IsIndexPermutation(order, |avail|)
    ensures |r| == SliceEnd(|avail|, count)
    ensures forall i :: 0 <= i < |r| ==> r[i] in avail
    ensures CodesDistinct(avail) ==> CodesDistinct(r)
  {
    seq(SliceEnd(|avail|, count), i requires 0 <= i < SliceEnd(|avail|, count) => avail[order[i]])
  }

  /** `getRandomBundeslaender(exclude, count)`, with the random shuffle
      given as the index permutation `order` of the available states. */
  function GetRandom(exclude: string, count: int, order: seq<nat>): (r: seq<Bundesland>)
    requires IsIndexPermutation(order, |Available(exclude)|)
    ensures |r| == SliceEnd(|Available(exclude)|, count)
    ensures forall i :: 0 <= i < |r| ==> r[i].code != exclude && r[i] in GetAll()
    ensures CodesDistinct(r)
  {
    AvailableCount(exclude);
    PickShuffled(Available(exclude), count, order)
  }

  /** With a non-negative count the result has `min(count, available)`
      states: 15 when `exclude` is a state number, else 16. */
  lemma GetRandomLength(exclude: string, count: int, order: seq<nat>)
    requires IsIndexPermutation(order, |Available(exclude)|)
    requires count >= 0
    ensures var n := if exclude in Keys then 15 else 16;
      |GetRandom(exclude, count, order)| == if count < n then count else n
  {
    AvailableCount(exclude);
  }
}
