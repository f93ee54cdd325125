/** The garden listing with free-text search: a garden is listed when it is
    available, the search term occurs (ignoring case) in its number, in one of
    its feature tags or in its description, and its size is in the chosen
    bucket. What each bucket lists of the mock catalogue is proved here. */
module GardensPage {
  import opened Common
  import opened Gardens

  predicate IsUpper(c: char) { 'A' <= c <= 'Z' }

  /** `toLowerCase` on one character, for ASCII letters only. */
  function LowerChar(c: char): (r: char)
    ensures !IsUpper(r)
    ensures !IsUpper(c) ==> r == c
    ensures IsUpper(c) ==> r as int - c as int == 'a' as int - 'A' as int
  {
    if IsUpper(c) then ((c as int) + ('a' as int - 'A' as int)) as char else c
  }

  /** `toLowerCase` on a string, character by character. */
  function Lower(s: string): (r: string)
    ensures |r| == |s|
    ensures forall i :: 0 <= i < |s| ==> r[i] == LowerChar(s[i])
  {
    if s == [] then [] else [LowerChar(s[0])] + Lower(s[1..])
  }

  /** `haystack.includes(needle)`. */
  predicate Includes(haystack: string, needle: string)
    decreases |haystack|
  {
    needle <= haystack || (haystack != [] && Includes(haystack[1..], needle))
  }

  /** `needle` occurs in `haystack` at position `i`. */
  predicate OccursAt(haystack: string, needle: string, i: int) {
    0 <= i && i + |needle| <= |haystack| && haystack[i..i + |needle|] == needle
  }

  /** The search predicate of lines 104-107. */
  predicate MatchesSearch(g: Garden, searchTerm: string) {
    var t := Lower(searchTerm);
    || Includes(Lower(g.number), t)
    || (exists i :: 0 <= i < |g.features| && Includes(Lower(g.features[i]), t))
    || Includes(Lower(g.description), t)
  }

  predicate Passes(searchTerm: string, sizeFilter: SizeFilter, g: Garden) {
    g.available && MatchesSearch(g, searchTerm) && MatchesSize(sizeFilter, g.size)
  }

  function Keep(searchTerm: string, sizeFilter: SizeFilter): Garden -> bool {
    (g: Garden) => Passes(searchTerm, sizeFilter, g)
  }

  /** The test an available garden of the right size passes. */
  function KeepBySize(sizeFilter: SizeFilter): Garden -> bool {
    (g: Garden) => g.available && MatchesSize(sizeFilter, g.size)
  }

  /** `filteredGardens`: the listed gardens, in catalogue order. */
  function FilteredGardens(gardens: seq<Garden>, searchTerm: string, sizeFilter: SizeFilter): (r: seq<Garden>)
    ensures forall g :: g in r ==> g in gardens && g.available && MatchesSearch(g, searchTerm) && MatchesSize(sizeFilter, g.size)
    ensures forall g :: g in gardens && Passes(searchTerm, sizeFilter, g) ==> g in r
  {
    FilterMembers(Keep(searchTerm, sizeFilter), gardens);
    Filter(Keep(searchTerm, sizeFilter), gardens)
  }

  /** The page's state (lines 27-28): the search term and the size chosen,
      over the catalogue its effect has loaded. */
  class SearchState {
    const gardens: seq<Garden>
    var searchTerm: string
    var sizeFilter: SizeFilter

    /** The gardens the page lists in this state. */
    function Visible(): seq<Garden>
      reads this
    {
      FilteredGardens(gardens, searchTerm, sizeFilter)
    }

    /** The initial state: no search term and 'all', which list the
        available gardens. */
    constructor (gardens: seq<Garden>)
      ensures this.gardens == gardens && searchTerm == "" && sizeFilter == AllSizes
      ensures Visible() == Filter(IsAvailable, gardens)
    {
      this.gardens := gardens;
      searchTerm := "";
      sizeFilter := AllSizes;
      NoCriteriaListsAvailable(gardens);
    }

    /** The search field's `onChange` (line 150). */
    method SetSearchTerm(term: string)
      modifies this
      ensures searchTerm == term && sizeFilter == old(sizeFilter)
    {
      searchTerm := term;
    }

    /** `onValueChange={setSizeFilter}` (line 154). */
    method SetSizeFilter(f: SizeFilter)
      modifies this
      ensures sizeFilter == f && searchTerm == old(searchTerm)
    {
      sizeFilter := f;
    }

    /** The "Suche zurücksetzen" button (lines 217-220): the term is cleared,
        the size filter is 'all', and every available garden is listed. */
    method ResetSearch()
      modifies this
      ensures searchTerm == "" && sizeFilter == AllSizes
      ensures Visible() == Filter(IsAvailable, gardens)
    {
      searchTerm := "";
      sizeFilter := AllSizes;
      NoCriteriaListsAvailable(gardens);
    }
  }

  // ---------------------------------------------------------------------------
  // Properties

  /** `includes` holds exactly when the needle occurs at some position. */
  lemma {:induction false} IncludesIffOccurs(haystack: string, needle: string)
    ensures Includes(haystack, needle) <==> exists i :: OccursAt(haystack, needle, i)
    decreases |haystack|
  {
    if needle <= haystack {
      assert OccursAt(haystack, needle, 0);
    } else if haystack == [] {
      assert forall i :: !OccursAt(haystack, needle, i);
    } else {
      var tail := haystack[1..];
      IncludesIffOccurs(tail, needle);
      if Includes(tail, needle) {
        var i :| OccursAt(tail, needle, i);
        OccursShift(haystack, needle, i);
      }
      if exists i :: OccursAt(haystack, needle, i) {
        var i :| OccursAt(haystack, needle, i);
        assert i != 0;
        OccursShift(haystack, needle, i - 1);
      }
    }
  }

  /** An occurrence in the tail is one position later in the whole. */
  lemma OccursShift(haystack: string, needle: string, i: int)
    requires haystack != [] && 0 <= i
    ensures OccursAt(haystack[1..], needle, i) <==> OccursAt(haystack, needle, i + 1)
  {
    if i + |needle| <= |haystack| - 1 {
      assert haystack[1..][i..i + |needle|] == haystack[i + 1..i + 1 + |needle|];
    }
  }

  /** The listing is an order-preserving subsequence of the catalogue. */
  lemma FilteredInOrder(gardens: seq<Garden>, searchTerm: string, sizeFilter: SizeFilter)
    ensures IsSubsequence(FilteredGardens(gardens, searchTerm, sizeFilter), gardens)
  {
    FilterIsSubsequence(Keep(searchTerm, sizeFilter), gardens);
  }

  /** The empty string is included in every string. */
  lemma EmptyIncluded(haystack: string)
    ensures Includes(haystack, "")
  {
  }

  lemma {:induction false} LowerIdempotent(s: string)
    ensures Lower(Lower(s)) == Lower(s)
  {
    if s != [] {
      LowerIdempotent(s[1..]);
    }
  }

  /** Lowering the search term first changes nothing: the search ignores case. */
  lemma SearchIgnoresCase(g: Garden, searchTerm: string)
    ensures MatchesSearch(g, Lower(searchTerm)) == MatchesSearch(g, searchTerm)
  {
    LowerIdempotent(searchTerm);
  }

  /** The empty search term matches every garden. */
  lemma EmptySearchMatchesAll(g: Garden)
    ensures MatchesSearch(g, "")
  {
    assert Lower("") == "";
    EmptyIncluded(Lower(g.number));
  }

  /** With no search term and no size filter the page lists exactly the
      available gardens, in catalogue order. */
  lemma NoCriteriaListsAvailable(gardens: seq<Garden>)
    ensures FilteredGardens(gardens, "", AllSizes) == Filter(IsAvailable, gardens)
  {
    forall g | g in gardens ensures Keep("", AllSizes)(g) == IsAvailable(g) {
      EmptySearchMatchesAll(g);
    }
    FilterCongruent(Keep("", AllSizes), IsAvailable, gardens);
  }

  /** Without a search term, the size filter alone decides among the available
      gardens. */
  lemma EmptySearchBySize(gardens: seq<Garden>, sizeFilter: SizeFilter)
    ensures FilteredGardens(gardens, "", sizeFilter)
         == Filter(KeepBySize(sizeFilter), gardens)
  {
    forall g | g in gardens
      ensures Keep("", sizeFilter)(g) == (g.available && MatchesSize(sizeFilter, g.size))
    {
      EmptySearchMatchesAll(g);
    }
    FilterCongruent(Keep("", sizeFilter), KeepBySize(sizeFilter), gardens);
  }

  lemma Parse250() ensures ParseSize("250 m²") == Some(250) {
    assert Decimal(250) == "250";
    ParseSizeOfLabel("250 m²", 250);
  }

  lemma Parse300() ensures ParseSize("300 m²") == Some(300) {
    assert Decimal(300) == "300";
    ParseSizeOfLabel("300 m²", 300);
  }

  lemma Parse280() ensures ParseSize("280 m²") == Some(280) {
    assert Decimal(280) == "280";
    ParseSizeOfLabel("280 m²", 280);
  }

  lemma Parse320() ensures ParseSize("320 m²") == Some(320) {
    assert Decimal(320) == "320";
    ParseSizeOfLabel("320 m²", 320);
  }

  lemma Parse200() ensures ParseSize("200 m²") == Some(200) {
    assert Decimal(200) == "200";
    ParseSizeOfLabel("200 m²", 200);
  }

  lemma MockLabels(descriptions: seq<string>)
    requires |descriptions| == 5
    ensures var gs := MockCatalogue(descriptions);
      && gs[0].size == "250 m²" && gs[1].size == "300 m²" && gs[2].size == "280 m²"
      && gs[3].size == "320 m²" && gs[4].size == "200 m²"
  {
  }

  /** The catalogue's size labels parse to the sizes they show. */
  lemma MockSizes(descriptions: seq<string>)
    requires |descriptions| == 5
    ensures var gs := MockCatalogue(descriptions);
      && ParseSize(gs[0].size) == Some(250) && ParseSize(gs[1].size) == Some(300)
      && ParseSize(gs[2].size) == Some(280) && ParseSize(gs[3].size) == Some(320)
      && ParseSize(gs[4].size) == Some(200)
  {
    MockLabels(descriptions);
    Parse250(); Parse300(); Parse280(); Parse320(); Parse200();
  }

  /** The size filter `f` admits a garden of `n` m². */
  predicate Selects(f: SizeFilter, n: nat) { f == AllSizes || Bucket(n) == f }

  /** An available garden whose label parses to `n` passes the size filter `f`
      exactly when `f` is 'all' or the bucket of `n`. */
  lemma KeepDecides(f: SizeFilter, g: Garden, n: nat)
    requires g.available && ParseSize(g.size) == Some(n)
    ensures Kept(KeepBySize(f), g) == OneIf(Selects(f, n), g)
  {
  }

  /** Five available gardens, of known sizes, filtered by size alone. */
  lemma FilterFiveBySize(f: SizeFilter, gs: seq<Garden>, n0: nat, n1: nat, n2: nat, n3: nat, n4: nat)
    requires |gs| == 5 && gs[0].available && gs[1].available && gs[2].available && gs[3].available && gs[4].available
    requires ParseSize(gs[0].size) == Some(n0) && ParseSize(gs[1].size) == Some(n1)
      && ParseSize(gs[2].size) == Some(n2) && ParseSize(gs[3].size) == Some(n3)
      && ParseSize(gs[4].size) == Some(n4)
    ensures FilteredGardens(gs, "", f)
         == OneIf(Selects(f, n0), gs[0]) + (OneIf(Selects(f, n1), gs[1]) + (OneIf(Selects(f, n2), gs[2])
            + (OneIf(Selects(f, n3), gs[3]) + OneIf(Selects(f, n4), gs[4]))))
  {
    EmptySearchBySize(gs, f);
    FilterFiveDecided(KeepBySize(f), gs, Selects(f, n0), Selects(f, n1), Selects(f, n2), Selects(f, n3), Selects(f, n4));
  }

  /** The ids the size filter lists among five available gardens of known
      sizes: each garden is listed, in order, exactly when its bucket is the
      selected one. */
  lemma FiveIds(f: SizeFilter, gs: seq<Garden>, n0: nat, n1: nat, n2: nat, n3: nat, n4: nat)
    requires |gs| == 5 && gs[0].available && gs[1].available && gs[2].available && gs[3].available && gs[4].available
    requires ParseSize(gs[0].size) == Some(n0) && ParseSize(gs[1].size) == Some(n1)
      && ParseSize(gs[2].size) == Some(n2) && ParseSize(gs[3].size) == Some(n3)
      && ParseSize(gs[4].size) == Some(n4)
    ensures Ids(FilteredGardens(gs, "", f))
         == OneIf(Selects(f, n0), gs[0].id) + (OneIf(Selects(f, n1), gs[1].id) + (OneIf(Selects(f, n2), gs[2].id)
            + (OneIf(Selects(f, n3), gs[3].id) + OneIf(Selects(f, n4), gs[4].id))))
  {
    FilterFiveBySize(f, gs, n0, n1, n2, n3, n4);
    IdsOfFive(Selects(f, n0), Selects(f, n1), Selects(f, n2), Selects(f, n3), Selects(f, n4),
      gs[0], gs[1], gs[2], gs[3], gs[4]);
  }

  /** What the size filter needs to know of the catalogue: five available
      gardens with ids 1 to 5 and sizes 250, 300, 280, 320 and 200 m². */
  predicate CatalogueShape(gs: seq<Garden>) {
    && |gs| == 5
    && gs[0].available && gs[1].available && gs[2].available && gs[3].available && gs[4].available
    && ParseSize(gs[0].size) == Some(250) && ParseSize(gs[1].size) == Some(300)
    && ParseSize(gs[2].size) == Some(280) && ParseSize(gs[3].size) == Some(320)
    && ParseSize(gs[4].size) == Some(200)
    && gs[0].id == "1" && gs[1].id == "2" && gs[2].id == "3" && gs[3].id == "4" && gs[4].id == "5"
  }

  lemma MockShape(descriptions: seq<string>)
    requires |descriptions| == 5
    ensures CatalogueShape(MockCatalogue(descriptions))
  {
    MockSizes(descriptions);
  }

  lemma ShapeLarge(gs: seq<Garden>)
    requires CatalogueShape(gs)
    ensures Ids(FilteredGardens(gs, "", Large)) == ["2", "4"]
  {
    FiveIds(Large, gs, 250, 300, 280, 320, 200);
    assert !Selects(Large, 250) && Selects(Large, 300) && !Selects(Large, 280) && Selects(Large, 320) && !Selects(Large, 200);
  }

  lemma ShapeMedium(gs: seq<Garden>)
    requires CatalogueShape(gs)
    ensures Ids(FilteredGardens(gs, "", Medium)) == ["1", "3"]
  {
    FiveIds(Medium, gs, 250, 300, 280, 320, 200);
    assert Selects(Medium, 250) && !Selects(Medium, 300) && Selects(Medium, 280) && !Selects(Medium, 320) && !Selects(Medium, 200);
  }

  lemma ShapeSmall(gs: seq<Garden>)
    requires CatalogueShape(gs)
    ensures Ids(FilteredGardens(gs, "", Small)) == ["5"]
  {
    FiveIds(Small, gs, 250, 300, 280, 320, 200);
    assert !Selects(Small, 250) && !Selects(Small, 300) && !Selects(Small, 280) && !Selects(Small, 320) && Selects(Small, 200);
  }

  /** On the catalogue, "large" lists B-07 (300 m², the lower bound) and D-05,
      whatever the descriptions say. */
  lemma MockLarge(descriptions: seq<string>)
    requires |descriptions| == 5
    ensures Ids(FilteredGardens(MockCatalogue(descriptions), "", Large)) == ["2", "4"]
  {
    MockShape(descriptions);
    ShapeLarge(MockCatalogue(descriptions));
  }

  /** On the catalogue, "medium" lists A-15 (250 m², the lower bound) and C-22. */
  lemma MockMedium(descriptions: seq<string>)
    requires |descriptions| == 5
    ensures Ids(FilteredGardens(MockCatalogue(descriptions), "", Medium)) == ["1", "3"]
  {
    MockShape(descriptions);
    ShapeMedium(MockCatalogue(descriptions));
  }

  /** On the catalogue, "small" lists E-11 only. */
  lemma MockSmall(descriptions: seq<string>)
    requires |descriptions| == 5
    ensures Ids(FilteredGardens(MockCatalogue(descriptions), "", Small)) == ["5"]
  {
    MockShape(descriptions);
    ShapeSmall(MockCatalogue(descriptions));
  }
}
