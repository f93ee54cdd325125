/** The garden list of the gardens client: feature tags combined with AND, the
    size buckets and the availability guard; the list of selected tags and its
    toggle; the alphabetical catalogue of every tag the gardens carry; and the
    filter state the component keeps. */
module GardensClient {
  import opened Common
  import opened Gardens
  import GardensPage

  /** The feature test (lines 76-81): every selected tag is among the garden's
      tags; with nothing selected the test is skipped. */
  predicate MatchesFeatures(selected: seq<string>, features: seq<string>) {
    |selected| > 0 ==> forall i :: 0 <= i < |selected| ==> selected[i] in features
  }

  /** The test `filteredGardens` applies to one garden (lines 75-94). */
  predicate Passes(selected: seq<string>, sizeFilter: SizeFilter, g: Garden) {
    g.available && MatchesFeatures(selected, g.features) && MatchesSize(sizeFilter, g.size)
  }

  function Keep(selected: seq<string>, sizeFilter: SizeFilter): Garden -> bool {
    (g: Garden) => Passes(selected, sizeFilter, g)
  }

  /** `filteredGardens`: the listed gardens, in the order they were given. */
  function FilteredGardens(gardens: seq<Garden>, selected: seq<string>, sizeFilter: SizeFilter): seq<Garden> {
    Filter(Keep(selected, sizeFilter), gardens)
  }

  // ---------------------------------------------------------------------------
  // The selected tags

  function IsNot(feature: string): string -> bool {
    (f: string) => f != feature
  }

  /** `toggleFeature` (lines 58-66): a selected tag is removed, any other is
      appended at the end. */
  function Toggled(prev: seq<string>, feature: string): seq<string> {
    if feature in prev then Filter(IsNot(feature), prev) else prev + [feature]
  }

  // ---------------------------------------------------------------------------
  // The catalogue of tags

  /** Every tag some garden of `gs` carries. */
  function FeatureUnion(gs: seq<Garden>): set<string> {
    if gs == [] then {} else FeatureUnion(gs[..|gs| - 1]) + Elements(gs[|gs| - 1].features)
  }

  /** The order of the default `sort`: strings compared character by
      character, a proper prefix first. */
  predicate Below(a: string, b: string) {
    if a == [] then b != []
    else if b == [] then false
    else a[0] < b[0] || (a[0] == b[0] && Below(a[1..], b[1..]))
  }

  predicate StrictlySorted(s: seq<string>) {
    forall i, j :: 0 <= i < j < |s| ==> Below(s[i], s[j])
  }

  /** Puts `x`, which `s` does not yet hold, at its place in `s`. */
  function Insert(s: seq<string>, x: string): (r: seq<string>)
    requires StrictlySorted(s) && x !in s
    ensures StrictlySorted(r)
    ensures Elements(r) == Elements(s) + {x}
    ensures |r| == |s| + 1
  {
    if s == [] then [x]
    else if Below(x, s[0]) then
      BelowTransitiveFrom(x, s);
      ConsSorted(x, s);
      [x] + s
    else
      BelowTotal(x, s[0]);
      SortedTail(s);
      var t := Insert(s[1..], x);
      HeadBelowTail(s);
      BelowAll(s[0], s[1..], x, t);
      ConsSorted(s[0], t);
      [s[0]] + t
  }

  /** `Array.from(features).sort()`: the distinct tags in ascending order. */
  method Sort(s: seq<string>) returns (r: seq<string>)
    requires NoDuplicates(s)
    ensures StrictlySorted(r)
    ensures Elements(r) == Elements(s)
    ensures |r| == |s|
  {
    r := [];
    var k := 0;
    while k < |s|
      invariant 0 <= k <= |s|
      invariant StrictlySorted(r)
      invariant Elements(r) == Elements(s[..k])
      invariant |r| == k
    {
      var x := s[k];
      assert x !in s[..k];
      assert x !in Elements(r);
      r := Insert(r, x);
      assert s[..k + 1] == s[..k] + [s[k]];
      k := k + 1;
    }
    assert s[..k] == s;
  }

  /** The effect of lines 44-52: every tag of every garden is added to a set,
      which keeps the first occurrence only; the set is then sorted. */
  method AllFeatures(gardens: seq<Garden>) returns (r: seq<string>)
    ensures StrictlySorted(r)
    ensures Elements(r) == FeatureUnion(gardens)
  {
    var features: seq<string> := [];
    var i := 0;
    while i < |gardens|
      invariant 0 <= i <= |gardens|
      invariant NoDuplicates(features)
      invariant Elements(features) == FeatureUnion(gardens[..i])
    {
      var tags := gardens[i].features;
      var j := 0;
      while j < |tags|
        invariant 0 <= j <= |tags|
        invariant NoDuplicates(features)
        invariant Elements(features) == FeatureUnion(gardens[..i]) + Elements(tags[..j])
      {
        if tags[j] !in features {
          ConsNoDuplicatesLast(features, tags[j]);
          ElementsSnoc(features, tags[j]);
          features := features + [tags[j]];
        } else {
          assert tags[j] in Elements(features);
        }
        ElementsSnoc(tags[..j], tags[j]);
        assert tags[..j + 1] == tags[..j] + [tags[j]];
        j := j + 1;
      }
      assert tags[..j] == tags;
      assert gardens[..i + 1][..i] == gardens[..i];
      i := i + 1;
    }
    assert gardens[..i] == gardens;
    r := Sort(features);
  }

  // ---------------------------------------------------------------------------
  // The component's state

  /** The filter state of the component: the size chosen in the `Select`, the
      selected tags in the order they were selected, and the catalogue of
      tags the effect computes from the gardens it was given. */
  class FilterState {
    const gardens: seq<Garden>
    var sizeFilter: SizeFilter
    var selectedFeatures: seq<string>
    var allFeatures: seq<string>

    /** The selected tags never repeat, and the catalogue is the sorted set of
        the gardens' tags. */
    ghost predicate Valid()
      reads this
    {
      && NoDuplicates(selectedFeatures)
      && StrictlySorted(allFeatures)
      && Elements(allFeatures) == FeatureUnion(gardens)
    }

    /** The initial state (lines 40-42) once the effect of lines 44-52 has
        run. */
    constructor (gardens: seq<Garden>)
      ensures Valid()
      ensures this.gardens == gardens
      ensures sizeFilter == AllSizes && selectedFeatures == []
    {
      this.gardens := gardens;
      sizeFilter := AllSizes;
      selectedFeatures := [];
      var all := AllFeatures(gardens);
      allFeatures := all;
    }

    /** `hasActiveFilters` (line 73). */
    predicate HasActiveFilters()
      reads this
    {
      |selectedFeatures| > 0 || sizeFilter != AllSizes
    }

    /** The gardens the page lists in this state. */
    function Visible(): seq<Garden>
      reads this
    {
      FilteredGardens(gardens, selectedFeatures, sizeFilter)
    }

    method ToggleFeature(feature: string)
      requires Valid()
      modifies this
      ensures Valid()
      ensures selectedFeatures == Toggled(old(selectedFeatures), feature)
      ensures feature in selectedFeatures <==> feature !in old(selectedFeatures)
      ensures sizeFilter == old(sizeFilter) && allFeatures == old(allFeatures)
    {
      ToggledNoDuplicates(selectedFeatures, feature);
      ToggleFlips(selectedFeatures, feature);
      selectedFeatures := Toggled(selectedFeatures, feature);
    }

    /** `onValueChange={setSizeFilter}` (line 154). */
    method SetSizeFilter(f: SizeFilter)
      requires Valid()
      modifies this
      ensures Valid()
      ensures sizeFilter == f
      ensures selectedFeatures == old(selectedFeatures) && allFeatures == old(allFeatures)
    {
      sizeFilter := f;
    }

    /** `resetAllFilters` (lines 68-71): afterwards no filter is active and the
        page lists every available garden. */
    method ResetAllFilters()
      requires Valid()
      modifies this
      ensures Valid()
      ensures !HasActiveFilters()
      ensures Visible() == Filter(IsAvailable, gardens)
      ensures allFeatures == old(allFeatures)
    {
      selectedFeatures := [];
      sizeFilter := AllSizes;
      NoFiltersListsAvailable(gardens);
    }
  }

  // ---------------------------------------------------------------------------
  // Properties of the filter

  /** AND semantics: a garden matches exactly when the selected tags are a
      subset of its tags; the empty selection is the empty subset. */
  lemma MatchesFeaturesIffSubset(selected: seq<string>, features: seq<string>)
    ensures MatchesFeatures(selected, features) <==> Elements(selected) <= Elements(features)
  {
    if Elements(selected) <= Elements(features) {
      forall i | 0 <= i < |selected| ensures selected[i] in features {
        assert selected[i] in Elements(selected);
      }
    }
  }

  /** Tags of one garden that cover two selected tags: `Laube` and
      `Wasseranschluss` do not match a selection of `Laube` and `Teich`. */
  lemma FeaturesAreCombinedWithAnd()
    ensures !MatchesFeatures(["Laube", "Teich"], ["Laube", "Wasseranschluss"])
    ensures MatchesFeatures(["Laube"], ["Laube", "Wasseranschluss"])
  {
    assert "Teich" != "Laube" && "Teich" != "Wasseranschluss";
    assert ["Laube", "Teich"][1] == "Teich";
  }

  /** A garden is listed exactly when it is in the input and passes every
      test. */
  lemma FilteredMembers(gardens: seq<Garden>, selected: seq<string>, sizeFilter: SizeFilter, g: Garden)
    ensures g in FilteredGardens(gardens, selected, sizeFilter)
        <==> g in gardens && g.available && MatchesFeatures(selected, g.features) && MatchesSize(sizeFilter, g.size)
  {
    FilterMembers(Keep(selected, sizeFilter), gardens);
  }

  /** A garden that passes is listed as many times as it is given, and one
      that fails is not listed at all. */
  lemma FilteredCount(gardens: seq<Garden>, selected: seq<string>, sizeFilter: SizeFilter, g: Garden)
    ensures multiset(FilteredGardens(gardens, selected, sizeFilter))[g]
         == if Passes(selected, sizeFilter, g) then multiset(gardens)[g] else 0
  {
    FilterCount(Keep(selected, sizeFilter), gardens, g);
  }

  /** The listing is an order-preserving subsequence of the gardens given. */
  lemma FilteredInOrder(gardens: seq<Garden>, selected: seq<string>, sizeFilter: SizeFilter)
    ensures IsSubsequence(FilteredGardens(gardens, selected, sizeFilter), gardens)
  {
    FilterIsSubsequence(Keep(selected, sizeFilter), gardens);
  }

  /** With no tag selected and 'all' sizes, the available gardens are listed. */
  lemma NoFiltersListsAvailable(gardens: seq<Garden>)
    ensures FilteredGardens(gardens, [], AllSizes) == Filter(IsAvailable, gardens)
  {
    FilterCongruent(Keep([], AllSizes), IsAvailable, gardens);
  }

  /** Selecting more tags can only drop gardens, never add or reorder them. */
  lemma MoreFeaturesFewerGardens(gardens: seq<Garden>, selected: seq<string>, more: seq<string>, sizeFilter: SizeFilter)
    requires Elements(selected) <= Elements(more)
    ensures IsSubsequence(FilteredGardens(gardens, more, sizeFilter), FilteredGardens(gardens, selected, sizeFilter))
  {
    forall g | g in gardens && Keep(more, sizeFilter)(g) ensures Keep(selected, sizeFilter)(g) {
      MatchesFeaturesIffSubset(more, g.features);
      MatchesFeaturesIffSubset(selected, g.features);
    }
    FilterStronger(Keep(more, sizeFilter), Keep(selected, sizeFilter), gardens);
  }

  /** With no tag selected the client lists what the search page lists for
      an empty search term: the available gardens of the chosen size. */
  lemma NoTagsAsEmptySearch(gardens: seq<Garden>, sizeFilter: SizeFilter)
    ensures FilteredGardens(gardens, [], sizeFilter) == GardensPage.FilteredGardens(gardens, "", sizeFilter)
  {
    GardensPage.EmptySearchBySize(gardens, sizeFilter);
    FilterCongruent(Keep([], sizeFilter), GardensPage.KeepBySize(sizeFilter), gardens);
  }

  /** Given the five-garden catalogue, 'large' with no tag selected lists the
      gardens with ids 2 and 4, in catalogue order. */
  lemma CatalogueLargeNoTags(descriptions: seq<string>)
    requires |descriptions| == 5
    ensures Ids(FilteredGardens(MockCatalogue(descriptions), [], Large)) == ["2", "4"]
  {
    NoTagsAsEmptySearch(MockCatalogue(descriptions), Large);
    GardensPage.MockLarge(descriptions);
  }

  /** Given the five-garden catalogue, the tag `Wasseranschluss` lists every
      garden but B-07, the one garden without a water connection. */
  lemma CatalogueWasseranschluss(descriptions: seq<string>)
    requires |descriptions| == 5
    ensures Ids(FilteredGardens(MockCatalogue(descriptions), ["Wasseranschluss"], AllSizes)) == ["1", "3", "4", "5"]
  {
    var gs := MockCatalogue(descriptions);
    var w := "Wasseranschluss";
    assert gs[0].features[1] == w && gs[2].features[1] == w && gs[3].features[2] == w && gs[4].features[1] == w;
    assert w !in gs[1].features by {
      assert |gs[1].features[0]| != |w| && |gs[1].features[1]| != |w| && |gs[1].features[2]| != |w|;
    }
    assert !MatchesFeatures([w], gs[1].features) by { assert [w][0] == w; }
    FilterFiveDecided(Keep([w], AllSizes), gs, true, false, true, true, true);
    IdsOfFive(true, false, true, true, true, gs[0], gs[1], gs[2], gs[3], gs[4]);
  }

  // ---------------------------------------------------------------------------
  // Properties of the toggle

  /** Toggling flips whether the tag is selected and leaves every other tag
      as selected as it was. */
  lemma ToggleFlips(prev: seq<string>, feature: string)
    ensures feature in Toggled(prev, feature) <==> feature !in prev
    ensures forall x :: x != feature ==> (x in Toggled(prev, feature) <==> x in prev)
  {
    FilterMembers(IsNot(feature), prev);
  }

  /** The other selected tags keep their order. */
  lemma ToggleKeepsOthers(prev: seq<string>, feature: string)
    ensures Filter(IsNot(feature), Toggled(prev, feature)) == Filter(IsNot(feature), prev)
  {
    var p := IsNot(feature);
    if feature in prev {
      FilterMembers(p, prev);
      FilterKeepsAll(p, Filter(p, prev));
    } else {
      FilterAppend(p, prev, [feature]);
      assert Filter(p, [feature]) == [];
    }
  }

  /** Toggling a tag that is not selected twice gives back the selection. */
  lemma ToggleTwice(prev: seq<string>, feature: string)
    requires feature !in prev
    ensures Toggled(Toggled(prev, feature), feature) == prev
  {
    var p := IsNot(feature);
    assert feature in prev + [feature];
    FilterAppend(p, prev, [feature]);
    assert Filter(p, [feature]) == [];
    FilterKeepsAll(p, prev);
  }

  /** A selection without repeated tags stays without repeated tags. */
  lemma ToggledNoDuplicates(prev: seq<string>, feature: string)
    requires NoDuplicates(prev)
    ensures NoDuplicates(Toggled(prev, feature))
  {
    if feature in prev {
      FilterNoDuplicates(IsNot(feature), prev);
    } else {
      ConsNoDuplicatesLast(prev, feature);
    }
  }

  // ---------------------------------------------------------------------------
  // Properties of the catalogue of tags

  /** A tag is in the union exactly when some garden carries it. */
  lemma {:induction false} FeatureUnionMembers(gs: seq<Garden>, f: string)
    ensures f in FeatureUnion(gs) <==> exists i :: 0 <= i < |gs| && f in gs[i].features
  {
    if gs != [] {
      var init := gs[..|gs| - 1];
      FeatureUnionMembers(init, f);
      if f in FeatureUnion(gs) {
        if f in FeatureUnion(init) {
          var i :| 0 <= i < |init| && f in init[i].features;
          assert gs[i] == init[i];
        } else {
          assert f in gs[|gs| - 1].features;
        }
      }
      if exists i :: 0 <= i < |gs| && f in gs[i].features {
        var i :| 0 <= i < |gs| && f in gs[i].features;
        if i < |gs| - 1 {
          assert init[i] == gs[i];
        }
      }
    }
  }

  lemma {:induction false} BelowIrreflexive(a: string)
    ensures !Below(a, a)
  {
    if a != [] {
      BelowIrreflexive(a[1..]);
    }
  }

  lemma {:induction false} BelowTransitive(a: string, b: string, c: string)
    requires Below(a, b) && Below(b, c)
    ensures Below(a, c)
  {
    if a != [] && b != [] && c != [] && a[0] == b[0] && b[0] == c[0] {
      BelowTransitive(a[1..], b[1..], c[1..]);
    }
  }

  /** Any two different strings are ordered one way or the other. */
  lemma {:induction false} BelowTotal(a: string, b: string)
    requires a != b
    ensures Below(a, b) || Below(b, a)
  {
    if a != [] && b != [] && a[0] == b[0] {
      assert a == [a[0]] + a[1..] && b == [b[0]] + b[1..];
      BelowTotal(a[1..], b[1..]);
    }
  }

  lemma BelowAsymmetric(a: string, b: string)
    requires Below(a, b)
    ensures !Below(b, a)
  {
    if Below(b, a) {
      BelowTransitive(a, b, a);
      BelowIrreflexive(a);
    }
  }

  /** A strictly sorted list has no repeated tags. */
  lemma SortedNoDuplicates(s: seq<string>)
    requires StrictlySorted(s)
    ensures NoDuplicates(s)
  {
    forall i, j | 0 <= i < j < |s| ensures s[i] != s[j] {
      if s[i] == s[j] {
        BelowIrreflexive(s[i]);
      }
    }
  }

  /** There is one strictly sorted list of a set of tags: the catalogue is
      determined by the gardens' tags alone. */
  lemma {:induction false} SortedUnique(a: seq<string>, b: seq<string>)
    requires StrictlySorted(a) && StrictlySorted(b)
    requires Elements(a) == Elements(b)
    ensures a == b
    decreases |a|
  {
    ElementsEmpty(a);
    ElementsEmpty(b);
    if a != [] && b != [] {
      assert a[0] in Elements(b) && b[0] in Elements(a);
      if a[0] != b[0] {
        var i :| 0 <= i < |b| && b[i] == a[0];
        var j :| 0 <= j < |a| && a[j] == b[0];
        assert Below(b[0], a[0]) by { assert i != 0; }
        assert Below(a[0], b[0]) by { assert j != 0; }
        BelowAsymmetric(a[0], b[0]);
      }
      SortedTail(a);
      SortedTail(b);
      SortedNoDuplicates(a);
      SortedNoDuplicates(b);
      ElementsTail(a);
      ElementsTail(b);
      SortedUnique(a[1..], b[1..]);
      assert a == [a[0]] + a[1..] && b == [b[0]] + b[1..];
    }
  }

  /** The catalogue the component shows is the one strictly sorted list of
      the gardens' tags. */
  lemma AllFeaturesDetermined(gardens: seq<Garden>, r: seq<string>, s: seq<string>)
    requires StrictlySorted(r) && Elements(r) == FeatureUnion(gardens)
    requires StrictlySorted(s) && Elements(s) == FeatureUnion(gardens)
    ensures r == s && NoDuplicates(r)
  {
    SortedUnique(r, s);
    SortedNoDuplicates(r);
  }

  // ---------------------------------------------------------------------------
  // Helpers

  lemma SortedTail(s: seq<string>)
    requires StrictlySorted(s) && s != []
    ensures StrictlySorted(s[1..])
  {
    forall i, j | 0 <= i < j < |s| - 1 ensures Below(s[1..][i], s[1..][j]) {
      assert s[1..][i] == s[i + 1] && s[1..][j] == s[j + 1];
    }
  }

  lemma ElementsTail(s: seq<string>)
    requires NoDuplicates(s) && s != []
    ensures Elements(s[1..]) == Elements(s) - {s[0]}
  {
    assert s == [s[0]] + s[1..];
    forall k | 0 <= k < |s| - 1 ensures s[1..][k] != s[0] {
      assert s[1..][k] == s[k + 1];
    }
  }

  lemma BelowTransitiveFrom(x: string, s: seq<string>)
    requires StrictlySorted(s) && s != [] && Below(x, s[0])
    ensures forall y :: y in s ==> Below(x, y)
  {
    forall y | y in s ensures Below(x, y) {
      var j :| 0 <= j < |s| && s[j] == y;
      if j > 0 {
        BelowTransitive(x, s[0], y);
      }
    }
  }

  lemma ConsSorted(a: string, t: seq<string>)
    requires StrictlySorted(t)
    requires forall y :: y in t ==> Below(a, y)
    ensures StrictlySorted([a] + t)
  {
    var s := [a] + t;
    forall i, j | 0 <= i < j < |s| ensures Below(s[i], s[j]) {
      assert s[j] == t[j - 1];
      if i > 0 {
        assert s[i] == t[i - 1];
      }
    }
  }

  lemma HeadBelowTail(s: seq<string>)
    requires StrictlySorted(s) && s != []
    ensures forall y :: y in s[1..] ==> Below(s[0], y)
  {
    forall y | y in s[1..] ensures Below(s[0], y) {
      var j :| 0 <= j < |s| - 1 && s[1..][j] == y;
      assert s[j + 1] == y;
    }
  }

  lemma BelowAll(a: string, s: seq<string>, x: string, t: seq<string>)
    requires Elements(t) == Elements(s) + {x}
    requires Below(a, x) && forall y :: y in s ==> Below(a, y)
    ensures forall y :: y in t ==> Below(a, y)
  {
    forall y | y in t ensures Below(a, y) {
      assert y in Elements(t);
    }
  }

  lemma ElementsEmpty(s: seq<string>)
    ensures Elements(s) == {} <==> s == []
  {
    if s != [] {
      assert s[0] in Elements(s);
    }
  }

  lemma ElementsSnoc(s: seq<string>, x: string)
    ensures Elements(s + [x]) == Elements(s) + {x}
  {
  }

  lemma ConsNoDuplicatesLast(s: seq<string>, x: string)
    requires NoDuplicates(s) && x !in s
    ensures NoDuplicates(s + [x])
  {
    var r := s + [x];
    forall i, j | 0 <= i < j < |r| ensures r[i] != r[j] {
      assert r[i] == s[i];
    }
  }
}
