/** The related gardens shown beside a garden: the catalogue without the
    current garden, cut to its first three entries, each showing at most
    three of its tags. */
module RelatedGardens {
  import opened Common
  import opened Gardens

  /** The number of related gardens shown, and of tags shown per garden. */
  const Shown: nat := 3

  function IsOther(currentGardenId: string): Garden -> bool {
    (g: Garden) => g.id != currentGardenId
  }

  /** Lines 103-105. */
  function Related(catalogue: seq<Garden>, currentGardenId: string): (r: seq<Garden>)
    ensures |r| <= Shown
    ensures forall i :: 0 <= i < |r| ==> r[i].id != currentGardenId && r[i] in catalogue
    ensures r <= Filter(IsOther(currentGardenId), catalogue)
    ensures |r| == Min(Shown, |Filter(IsOther(currentGardenId), catalogue)|)
  {
    var others := Filter(IsOther(currentGardenId), catalogue);
    FilterMembers(IsOther(currentGardenId), catalogue);
    var r := Take(others, Shown);
    assert forall i :: 0 <= i < |r| ==> r[i] == others[i] && others[i] in others;
    r
  }

  /** The tags a card shows (line 153). */
  function DisplayedFeatures(g: Garden): (r: seq<string>)
    ensures r <= g.features && |r| == Min(Shown, |g.features|)
  {
    Take(g.features, Shown)
  }

  // ---------------------------------------------------------------------------
  // Properties

  /** The related gardens appear in catalogue order. */
  lemma RelatedInOrder(catalogue: seq<Garden>, currentGardenId: string)
    ensures IsSubsequence(Related(catalogue, currentGardenId), catalogue)
  {
    FilterIsSubsequence(IsOther(currentGardenId), catalogue);
    PrefixOfSubsequence(Related(catalogue, currentGardenId), Filter(IsOther(currentGardenId), catalogue), catalogue);
  }

  /** For an id the catalogue does not hold, the first three gardens are
      shown. */
  lemma UnknownIdShowsFirst(catalogue: seq<Garden>, currentGardenId: string)
    requires forall g :: g in catalogue ==> g.id != currentGardenId
    ensures Related(catalogue, currentGardenId) == catalogue[..Min(Shown, |catalogue|)]
  {
    FilterKeepsAll(IsOther(currentGardenId), catalogue);
  }

  /** When at least three other gardens exist, exactly three are shown. */
  lemma ThreeWhenAvailable(catalogue: seq<Garden>, currentGardenId: string)
    requires |Filter(IsOther(currentGardenId), catalogue)| >= Shown
    ensures |Related(catalogue, currentGardenId)| == Shown
  {
  }

  /** A garden with three tags or fewer shows all of them. */
  lemma FewTagsAllShown(g: Garden)
    requires |g.features| <= Shown
    ensures DisplayedFeatures(g) == g.features
  {
  }

  /** The ids of five gardens without the current one. */
  lemma FiveOthers(gs: seq<Garden>, currentGardenId: string)
    requires |gs| == 5
    ensures Ids(Filter(IsOther(currentGardenId), gs))
         == OneIf(gs[0].id != currentGardenId, gs[0].id) + (OneIf(gs[1].id != currentGardenId, gs[1].id)
            + (OneIf(gs[2].id != currentGardenId, gs[2].id) + (OneIf(gs[3].id != currentGardenId, gs[3].id)
            + OneIf(gs[4].id != currentGardenId, gs[4].id))))
  {
    FilterFiveDecided(IsOther(currentGardenId), gs, gs[0].id != currentGardenId, gs[1].id != currentGardenId,
      gs[2].id != currentGardenId, gs[3].id != currentGardenId, gs[4].id != currentGardenId);
    IdsOfFive(gs[0].id != currentGardenId, gs[1].id != currentGardenId, gs[2].id != currentGardenId,
      gs[3].id != currentGardenId, gs[4].id != currentGardenId, gs[0], gs[1], gs[2], gs[3], gs[4]);
  }

  lemma {:induction false} IdsTake(gs: seq<Garden>, k: nat)
    ensures Ids(Take(gs, k)) == Take(Ids(gs), k)
  {
    var a, b := Ids(Take(gs, k)), Take(Ids(gs), k);
    assert |a| == |b|;
    forall i | 0 <= i < |a| ensures a[i] == b[i] {
      assert Take(gs, k)[i] == gs[i];
    }
  }

  /** On the five-garden catalogue, the page of garden 1 shows gardens 2, 3
      and 4. */
  lemma MockRelatedToFirst(descriptions: seq<string>)
    requires |descriptions| == 5
    ensures Ids(Related(MockCatalogue(descriptions), "1")) == ["2", "3", "4"]
  {
    var gs := MockCatalogue(descriptions);
    FiveOthers(gs, "1");
    IdsTake(Filter(IsOther("1"), gs), Shown);
  }

  /** The page of garden 3 skips it: gardens 1, 2 and 4. */
  lemma MockRelatedToThird(descriptions: seq<string>)
    requires |descriptions| == 5
    ensures Ids(Related(MockCatalogue(descriptions), "3")) == ["1", "2", "4"]
  {
    var gs := MockCatalogue(descriptions);
    FiveOthers(gs, "3");
    IdsTake(Filter(IsOther("3"), gs), Shown);
  }
}
