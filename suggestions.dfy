/** The suggestion search of the plant autocomplete: two directory lookups
    merged without duplicate ids, ranked with the plants whose Portuguese name
    contains the query first, and cut to `maxResults` as `slice(0, maxResults)`
    does. The directory module is not part of this model: its two searches are
    parameters, and so are `toLowerCase` and the pt-BR collation of
    `localeCompare`. */
module Suggestions {
  import opened JsValues
  import opened JsString

  const MIN_QUERY_LENGTH: nat := 2
  const DEFAULT_MAX_RESULTS: int := 10

  /** The Trefle.io record a directory entry found externally may carry:
      `etymology`, `duration`, `foliage.evergreen`, `growth.light_tolerated`
      and `links.plant`, each possibly missing. */
  datatype TrefleData = TrefleData(
    etymology: Option<string>,
    duration: Option<string>,
    evergreen: Option<bool>,
    lightTolerated: Option<string>,
    link: Option<string>)

  /** A directory entry. */
  datatype Suggestion = Suggestion(
    id: string,
    commonNamePt: string,
    scientificName: string,
    family: Option<string>,
    origin: Option<string>,
    habit: Option<string>,
    alternativeNamesPt: Option<seq<string>>,
    isExternal: bool,
    originalTrefleData: Option<TrefleData>)

  /** What the search depends on but does not define: the two directory
      searches, lower-casing, and `a.localeCompare(b, 'pt-BR') <= 0` as
      `collates(a)(b)`. */
  datatype Directory = Directory(
    byPortuguese: string -> seq<Suggestion>,
    byScientific: string -> seq<Suggestion>,
    fold: string -> string,
    collates: string -> string -> bool)

  /** `localeCompare` orders all strings: it is total and transitive. */
  ghost predicate TotalPreorder(le: string -> string -> bool) {
    && (forall a, b :: le(a)(b) || le(b)(a))
    && (forall a, b, c :: le(a)(b) && le(b)(c) ==> le(a)(c))
  }

  /** `allResults.find(p => p.id === id)` finds something. */
  predicate HasId(s: seq<Suggestion>, id: string) {
    exists k :: 0 <= k < |s| && s[k].id == id
  }

  ghost predicate DistinctIds(s: seq<Suggestion>) {
    forall i, j :: 0 <= i < j < |s| ==> s[i].id != s[j].id
  }

  /** The list the `forEach` leaves in `allResults`: the Portuguese hits, then
      each scientific hit whose id is not already present, in order. */
  function Merge(pt: seq<Suggestion>, sci: seq<Suggestion>): (r: seq<Suggestion>)
    ensures |pt| <= |r| <= |pt| + |sci|
    ensures r[..|pt|] == pt
    decreases |sci|
  {
    if sci == [] then pt
    else
      var m := Merge(pt, sci[..|sci| - 1]);
      var x := sci[|sci| - 1];
      if HasId(m, x.id) then m
      else
        assert (m + [x])[..|pt|] == m[..|pt|];
        m + [x]
  }

  lemma HasIdAppend(m: seq<Suggestion>, x: Suggestion, id: string)
    ensures HasId(m + [x], id) <==> HasId(m, id) || x.id == id
  {
    if HasId(m, id) {
      var k :| 0 <= k < |m| && m[k].id == id;
      assert (m + [x])[k] == m[k];
    }
    if HasId(m + [x], id) && x.id != id {
      var k :| 0 <= k < |m| + 1 && (m + [x])[k].id == id;
      assert k < |m| && m[k] == (m + [x])[k];
    }
    if x.id == id {
      assert (m + [x])[|m|] == x;
    }
  }

  /** What the loop adds after the Portuguese hits: scientific hits only, each
      with an id not seen before it. */
  lemma {:induction false} MergeAddsNew(pt: seq<Suggestion>, sci: seq<Suggestion>)
    ensures forall k :: |pt| <= k < |Merge(pt, sci)| ==>
      Merge(pt, sci)[k] in sci && !HasId(Merge(pt, sci)[..k], Merge(pt, sci)[k].id)
    decreases |sci|
  {
    if sci != [] {
      var front := sci[..|sci| - 1];
      var m := Merge(pt, front);
      var x := sci[|sci| - 1];
      MergeAddsNew(pt, front);
      assert forall y :: y in front ==> y in sci;
      assert x in sci;
      if !HasId(m, x.id) {
        var r := m + [x];
        assert Merge(pt, sci) == r;
        forall k | |pt| <= k < |r|
          ensures r[k] in sci && !HasId(r[..k], r[k].id)
        {
          if k < |m| {
            assert r[..k] == m[..k] && r[k] == m[k];
            assert m[k] in front && !HasId(m[..k], m[k].id);
          } else {
            assert r[..k] == m && r[k] == x;
          }
        }
      } else {
        assert Merge(pt, sci) == m;
      }
    }
  }

  /** Every scientific hit's id ends up in the merged list. */
  lemma {:induction false} MergeCoversIds(pt: seq<Suggestion>, sci: seq<Suggestion>)
    ensures forall k :: 0 <= k < |sci| ==> HasId(Merge(pt, sci), sci[k].id)
    decreases |sci|
  {
    if sci != [] {
      var front := sci[..|sci| - 1];
      var m := Merge(pt, front);
      var x := sci[|sci| - 1];
      MergeCoversIds(pt, front);
      forall k | 0 <= k < |sci|
        ensures HasId(Merge(pt, sci), sci[k].id)
      {
        if !HasId(m, x.id) {
          HasIdAppend(m, x, sci[k].id);
        }
        if k < |sci| - 1 {
          assert sci[k] == front[k];
        }
      }
    }
  }

  /** Merging keeps the Portuguese hits' ids distinct. */
  lemma {:induction false} MergeDistinct(pt: seq<Suggestion>, sci: seq<Suggestion>)
    requires DistinctIds(pt)
    ensures DistinctIds(Merge(pt, sci))
  {
    var r := Merge(pt, sci);
    MergeAddsNew(pt, sci);
    forall i, j | 0 <= i < j < |r|
      ensures r[i].id != r[j].id
    {
      if j >= |pt| {
        assert r[..j][i] == r[i];
      } else {
        assert r[i] == pt[i] && r[j] == pt[j];
      }
    }
  }

  /** The name of `p`, lower-cased, contains the lower-cased query. */
  predicate MatchesName(p: Suggestion, query: string, dir: Directory) {
    Includes(dir.fold(p.commonNamePt), dir.fold(query))
  }

  /** `a` may come before `b` under the comparator of the `sort` call: a
      name match before a non-match, otherwise by pt-BR collation. */
  predicate RankedBefore(a: Suggestion, b: Suggestion, query: string, dir: Directory) {
    if MatchesName(a, query, dir) != MatchesName(b, query, dir) then MatchesName(a, query, dir)
    else dir.collates(a.commonNamePt)(b.commonNamePt)
  }

  ghost predicate Ranked(s: seq<Suggestion>, query: string, dir: Directory) {
    forall i, j :: 0 <= i < j < |s| ==> RankedBefore(s[i], s[j], query, dir)
  }

  /** Inserts `x` before the first element it may precede. */
  function Insert(x: Suggestion, s: seq<Suggestion>, query: string, dir: Directory): (r: seq<Suggestion>)
    ensures multiset(r) == multiset(s) + multiset{x}
    ensures |r| == |s| + 1
  {
    if s == [] then [x]
    else if RankedBefore(x, s[0], query, dir) then [x] + s
    else
      assert s == [s[0]] + s[1..];
      [s[0]] + Insert(x, s[1..], query, dir)
  }

  /** The `sort` call, as a stable insertion sort: the list rearranged. */
  function Rank(s: seq<Suggestion>, query: string, dir: Directory): (r: seq<Suggestion>)
    ensures multiset(r) == multiset(s)
    ensures |r| == |s|
  {
    if s == [] then []
    else
      assert s == [s[0]] + s[1..];
      Insert(s[0], Rank(s[1..], query, dir), query, dir)
  }

  lemma RankedBeforeTotal(a: Suggestion, b: Suggestion, query: string, dir: Directory)
    requires TotalPreorder(dir.collates)
    ensures RankedBefore(a, b, query, dir) || RankedBefore(b, a, query, dir)
  {
    assert dir.collates(a.commonNamePt)(b.commonNamePt) || dir.collates(b.commonNamePt)(a.commonNamePt);
  }

  lemma RankedBeforeTransitive(a: Suggestion, b: Suggestion, c: Suggestion, query: string, dir: Directory)
    requires TotalPreorder(dir.collates)
    requires RankedBefore(a, b, query, dir) && RankedBefore(b, c, query, dir)
    ensures RankedBefore(a, c, query, dir)
  {
    if MatchesName(a, query, dir) == MatchesName(b, query, dir) == MatchesName(c, query, dir) {
      assert dir.collates(a.commonNamePt)(b.commonNamePt) && dir.collates(b.commonNamePt)(c.commonNamePt);
    }
  }

  /** `y` may precede every element of `s`. */
  ghost predicate BeforeAll(y: Suggestion, s: seq<Suggestion>, query: string, dir: Directory) {
    forall k :: 0 <= k < |s| ==> RankedBefore(y, s[k], query, dir)
  }

  lemma RankedCons(y: Suggestion, s: seq<Suggestion>, query: string, dir: Directory)
    requires BeforeAll(y, s, query, dir) && Ranked(s, query, dir)
    ensures Ranked([y] + s, query, dir)
  {
    var r := [y] + s;
    forall i, j | 0 <= i < j < |r|
      ensures RankedBefore(r[i], r[j], query, dir)
    {
      assert r[j] == s[j - 1];
      if i > 0 {
        assert r[i] == s[i - 1];
      }
    }
  }

  lemma {:induction false} InsertBeforeAll(y: Suggestion, x: Suggestion, s: seq<Suggestion>, query: string, dir: Directory)
    requires RankedBefore(y, x, query, dir) && BeforeAll(y, s, query, dir)
    ensures BeforeAll(y, Insert(x, s, query, dir), query, dir)
  {
    if s != [] && !RankedBefore(x, s[0], query, dir) {
      InsertBeforeAll(y, x, s[1..], query, dir);
      var t := Insert(x, s[1..], query, dir);
      assert Insert(x, s, query, dir) == [s[0]] + t;
      assert RankedBefore(y, s[0], query, dir);
    }
  }

  lemma {:induction false} InsertRanked(x: Suggestion, s: seq<Suggestion>, query: string, dir: Directory)
    requires TotalPreorder(dir.collates)
    requires Ranked(s, query, dir)
    ensures Ranked(Insert(x, s, query, dir), query, dir)
  {
    if s == [] {
    } else if RankedBefore(x, s[0], query, dir) {
      forall k | 0 <= k < |s|
        ensures RankedBefore(x, s[k], query, dir)
      {
        if k > 0 {
          RankedBeforeTransitive(x, s[0], s[k], query, dir);
        }
      }
      RankedCons(x, s, query, dir);
    } else {
      RankedBeforeTotal(x, s[0], query, dir);
      assert forall k :: 0 <= k < |s[1..]| ==> s[1..][k] == s[k + 1];
      InsertRanked(x, s[1..], query, dir);
      InsertBeforeAll(s[0], x, s[1..], query, dir);
      RankedCons(s[0], Insert(x, s[1..], query, dir), query, dir);
    }
  }

  /** Under a total collation the sorted list is ranked. */
  lemma {:induction false} RankRanked(s: seq<Suggestion>, query: string, dir: Directory)
    requires TotalPreorder(dir.collates)
    ensures Ranked(Rank(s, query, dir), query, dir)
  {
    if s != [] {
      RankRanked(s[1..], query, dir);
      InsertRanked(s[0], Rank(s[1..], query, dir), query, dir);
    }
  }

  /** Where `slice(0, n)` ends on a list of length `len`: a negative `n`
      counts from the end. */
  function SliceEnd(len: nat, n: int): (e: nat)
    ensures e <= len
    ensures n >= 0 ==> e == if n < len then n else len
    ensures n < 0 ==> e + (if -n < len then -n else len) == len
  {
    if n < 0 then (if len + n < 0 then 0 else len + n)
    else if n > len then len
    else n
  }

  /** `searchPlants(query)` with the component's `maxResults`. */
  function Search(query: string, maxResults: int, dir: Directory): (r: seq<Suggestion>)
    ensures |query| < MIN_QUERY_LENGTH ==> r == []
    ensures maxResults >= 0 ==> |r| <= maxResults
    ensures |query| >= MIN_QUERY_LENGTH ==>
      var all := Rank(Merge(dir.byPortuguese(query), dir.byScientific(query)), query, dir);
      && |r| == SliceEnd(|all|, maxResults)
      && r == all[..|r|]
  {
    if |query| < MIN_QUERY_LENGTH then []
    else
      var all := Rank(Merge(dir.byPortuguese(query), dir.byScientific(query)), query, dir);
      all[..SliceEnd(|all|, maxResults)]
  }

  /** `searchPlants`: the `forEach` loop over the scientific hits, then the
      sort and the slice. */
  method SearchPlants(query: string, maxResults: int, dir: Directory) returns (results: seq<Suggestion>)
    ensures results == Search(query, maxResults, dir)
  {
    if |query| < MIN_QUERY_LENGTH {
      return [];
    }
    var portugueseResults := dir.byPortuguese(query);
    var scientificResults := dir.byScientific(query);
    var allResults := portugueseResults;
    var i := 0;
    while i < |scientificResults|
      invariant 0 <= i <= |scientificResults|
      invariant allResults == Merge(portugueseResults, scientificResults[..i])
    {
      var plant := scientificResults[i];
      assert scientificResults[..i + 1][..i] == scientificResults[..i];
      if !HasId(allResults, plant.id) {
        allResults := allResults + [plant];
      }
      i := i + 1;
    }
    assert scientificResults[..i] == scientificResults;
    var sorted := Rank(allResults, query, dir);
    results := sorted[..SliceEnd(|sorted|, maxResults)];
  }

  /** The merged list holds only hits of the two lookups. */
  lemma MergeFromLookups(pt: seq<Suggestion>, sci: seq<Suggestion>)
    ensures forall p :: p in Merge(pt, sci) ==> p in pt || p in sci
  {
    var m := Merge(pt, sci);
    MergeAddsNew(pt, sci);
    forall p | p in m
      ensures p in pt || p in sci
    {
      var k :| 0 <= k < |m| && m[k] == p;
      if k < |pt| {
        assert m[..|pt|][k] == p;
      } else {
        assert m[k] in sci;
      }
    }
  }

  /** Every suggestion comes from one of the two lookups: nothing is invented. */
  lemma SearchFromLookups(query: string, maxResults: int, dir: Directory)
    ensures forall p :: p in Search(query, maxResults, dir) ==>
      p in dir.byPortuguese(query) || p in dir.byScientific(query)
  {
    if |query| >= MIN_QUERY_LENGTH {
      var pt, sci := dir.byPortuguese(query), dir.byScientific(query);
      var m := Merge(pt, sci);
      MergeFromLookups(pt, sci);
      var all := Rank(m, query, dir);
      var r := Search(query, maxResults, dir);
      assert r == all[..|r|];
      forall p | p in r
        ensures p in pt || p in sci
      {
        assert p in all;
        assert p in multiset(all);
        assert p in multiset(m);
      }
    }
  }

  /** Every Portuguese hit is kept when nothing is cut off. */
  lemma SearchKeepsPortugueseHits(query: string, maxResults: int, dir: Directory, p: Suggestion)
    requires |query| >= MIN_QUERY_LENGTH && p in dir.byPortuguese(query)
    requires maxResults >= |dir.byPortuguese(query)| + |dir.byScientific(query)|
    ensures p in Search(query, maxResults, dir)
  {
    var pt := dir.byPortuguese(query);
    var m := Merge(pt, dir.byScientific(query));
    var k :| 0 <= k < |pt| && pt[k] == p;
    assert m[..|pt|][k] == p;
    assert p in multiset(m);
    var all := Rank(m, query, dir);
    assert p in multiset(all);
    assert Search(query, maxResults, dir) == all;
  }
}
