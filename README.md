# Community garden site: the client-side logic, in Dafny

The site lists the gardens of a community-garden association, a calendar of
its events, a gallery of each garden's pictures, and related gardens beside
each garden. Nearly all of it is markup. This project models the part that
decides something:

- **Gardens, tag variant** (`app/gardens/gardens-client.tsx`), module `GardensClient`.
  - A garden is listed when it is available and carries every selected feature tag.
  - Its size must also fall in the chosen bucket.
  - The size is read from labels such as `250 m²` by keeping the digits and parsing them.
  - Selected tags are toggled on and off.
  - The tag catalogue is every tag of every garden, de-duplicated and sorted.
  - The filter state is a class. Its `resetAllFilters` makes `hasActiveFilters` false.
- **Gardens, search variant** (`app/gardens/page.tsx`), module `GardensPage`.
  - A garden is listed when it is available and its size is in the bucket.
  - The search term must also occur, ignoring case, in its number, in one of its tags or in its description.
  - The search term and the size filter are the fields of a class; the "Suche zurücksetzen" button clears both.
  - The page's five-garden catalogue is included, so the published behaviour of each bucket is proved on it.
- **Shared size handling**, module `Gardens`.
  - The garden record, `getSizeInSquareMeters` with `NaN` as `None`, and the half-open buckets: small < 250 ≤ medium < 300 ≤ large.
  - The five-garden mock catalogue that the search page and the related gardens share.
- **Events** (`app/events/page.tsx`), module `Events`.
  - The month shown is a class with prev/next handlers that wrap at the turn of the year.
  - The event list keeps the events of that month that are in the selected category, or in any category for `'all'`.
- **Gallery** (`components/garden-gallery.tsx`), module `Gallery`.
  - The current image index and the fullscreen index, `null` while the dialog is closed, are a class.
  - Its prev/next handlers are cyclic, and closing the dialog clears the fullscreen index.
- **Related gardens** (`components/related-gardens.tsx`), module `RelatedGardens`.
  - The catalogue without the current garden, cut to three, with at most three tags shown per garden.
- **Array operations**, module `Common`.
  - `Array.prototype.filter` and `slice(0, k)` over sequences.
  - "Order-preserving subsequence", the relation a filter keeps.

The React state that the user's actions change is held by four classes whose
methods update their fields:

- `GardensClient.FilterState`: the size filter, the selected tags and the tag catalogue.
- `GardensPage.SearchState`: the search term and the size filter of the search page.
- `Events.Calendar`: the month and year shown and the category filter.
- `Gallery.GardenGallery`: the current image index and the fullscreen index.

The pure filters and selections are functions with lemmas about them. The
related-gardens list is the function `RelatedGardens.Related`, because its
effect sets that component's state once. The one loop of the core, the
construction of the tag catalogue, is a method with loop invariants.

## Model

| member | source | states |
|---|---|---|
| Common.FilterMembers | app/gardens/gardens-client.tsx:75-94 | `filter` keeps an element exactly when it is in the input and passes the test |
| Common.Filter | app/gardens/gardens-client.tsx:75-94 | defines `Array.prototype.filter`, used by every listing (also gardens-client.tsx:61, app/gardens/page.tsx:103, app/events/page.tsx:158, components/related-gardens.tsx:104): the passing elements in input order |
| Common.FilterIsSubsequence | app/gardens/gardens-client.tsx:75-94 | `filter` keeps the order of the input: its result is a subsequence |
| Common.Take | components/related-gardens.tsx:105 | `slice(0, k)` is a prefix of length min(k, length) |
| Gardens.Digits | app/gardens/gardens-client.tsx:55 | removing the non-digits leaves only characters 0-9 |
| Gardens.ParseSize | app/gardens/gardens-client.tsx:54-56 | defines `getSizeInSquareMeters`: `parseInt` of the label's digits, `None` for `NaN` |
| Gardens.MatchesSize | app/gardens/gardens-client.tsx:83-91 | defines the `sizeFilter` test of both listings (also app/gardens/page.tsx:109-117): small < 250, 250 <= medium < 300, large >= 300, 'all' anything |
| Gardens.ParseSizeNaN | app/gardens/gardens-client.tsx:54-56 | the parser gives `NaN` exactly when the label has no digit |
| Gardens.DigitsIdempotent | app/gardens/gardens-client.tsx:55 | removing the non-digits a second time changes nothing |
| Gardens.ParseSizeOfDigits | app/gardens/gardens-client.tsx:54-56 | only the digits of a label affect the parsed size |
| Gardens.ParseSizeLabel | app/gardens/gardens-client.tsx:54-56 | a label `n m²` parses back to `n`, for every `n` |
| Gardens.MatchesBucket | app/gardens/gardens-client.tsx:83-91 | small, medium and large hold exactly the parsed sizes `Bucket` assigns to them, and never a size without digits |
| Gardens.BucketsPartition | app/gardens/gardens-client.tsx:83-91 | a size that parses is in exactly one of the three buckets |
| Gardens.LabelBucket | app/gardens/gardens-client.tsx:83-91 | a garden labelled `n m²` is in bucket `Bucket(n)` and in no other |
| Gardens.BucketBoundaries | app/gardens/gardens-client.tsx:83-91 | the buckets are half-open: 249 small, 250 medium, 299 medium, 300 large |
| Gardens.NoDigitsNoBucket | app/gardens/gardens-client.tsx:54-56 | a label without digits is in no bucket, but passes 'all' |
| GardensPage.LowerChar | app/gardens/page.tsx:105-107 | lowering yields no upper-case ASCII letter and changes nothing but upper-case letters |
| GardensPage.Lower | app/gardens/page.tsx:105-107 | lowering a string lowers each character and keeps the length |
| GardensPage.IncludesIffOccurs | app/gardens/page.tsx:105-107 | `includes` holds exactly when the needle occurs at some position |
| GardensPage.Includes | app/gardens/page.tsx:104-107 | defines `haystack.includes(needle)`: the needle is a prefix of some suffix |
| GardensPage.MatchesSearch | app/gardens/page.tsx:104-107 | defines `matchesSearch`: the lowered term is in the lowered number, in some lowered tag or in the lowered description |
| GardensPage.EmptyIncluded | app/gardens/page.tsx:105-107 | the empty needle is included in every string |
| GardensPage.LowerIdempotent | app/gardens/page.tsx:105-107 | lowering twice is lowering once |
| GardensPage.SearchIgnoresCase | app/gardens/page.tsx:104-107 | lowering the search term first does not change whether a garden matches |
| GardensPage.EmptySearchMatchesAll | app/gardens/page.tsx:104-107 | the empty search term matches every garden |
| GardensPage.FilteredGardens | app/gardens/page.tsx:103-120 | every listed garden is available, matches the search and is in the bucket; every garden that passes all three is listed |
| GardensPage.FilteredInOrder | app/gardens/page.tsx:103-120 | the listing is an order-preserving subsequence of the catalogue |
| GardensPage.NoCriteriaListsAvailable | app/gardens/page.tsx:103-120 | with an empty search term and 'all', the listing is the available gardens in catalogue order |
| GardensPage.EmptySearchBySize | app/gardens/page.tsx:109-119 | with an empty search term, availability and the size bucket alone decide |
| GardensPage.KeepDecides | app/gardens/page.tsx:109-119 | an available garden of `n` m² passes exactly the size filters 'all' and `Bucket(n)` |
| GardensPage.FilterFiveBySize | app/gardens/page.tsx:103-120 | five available gardens of known sizes are listed, in order, exactly when in the chosen bucket |
| GardensPage.FiveIds | app/gardens/page.tsx:103-120 | the ids listed for five available gardens of known sizes, in order |
| Gardens.MockCatalogue | app/gardens/page.tsx:36-87 | defines the mock catalogue: five available gardens with their ids, numbers, sizes and tags, the descriptions as a parameter; it is also the catalogue of components/related-gardens.tsx:44-100 |
| GardensPage.MockSizes | app/gardens/page.tsx:36-87 | the sizes of the catalogue's labels parse to 250, 300, 280, 320 and 200 |
| GardensPage.MockLarge | app/gardens/page.tsx:36-87 | given the catalogue, 'large' lists ids 2 and 4 in that order; 300 m² is large |
| GardensPage.MockMedium | app/gardens/page.tsx:36-87 | given the catalogue, 'medium' lists ids 1 and 3 in that order; 250 m² is medium |
| GardensPage.MockSmall | app/gardens/page.tsx:36-87 | given the catalogue, 'small' lists id 5 only |
| GardensPage.SearchState.constructor | app/gardens/page.tsx:27-28 | starts with no search term and 'all': the available gardens are listed |
| GardensPage.SearchState.SetSearchTerm | app/gardens/page.tsx:150 | the search term is set, the size filter is kept |
| GardensPage.SearchState.SetSizeFilter | app/gardens/page.tsx:154 | the size filter is set, the search term is kept |
| GardensPage.SearchState.ResetSearch | app/gardens/page.tsx:217-220 | the term is cleared and the size filter is 'all': the available gardens are listed |
| GardensClient.MatchesFeaturesIffSubset | app/gardens/gardens-client.tsx:76-81 | the tag test holds exactly when the selected tags are a subset of the garden's tags (the empty selection always passes) |
| GardensClient.MatchesFeatures | app/gardens/gardens-client.tsx:76-81 | defines `matchesFeatures`: with a selection, every selected tag is among the garden's tags |
| GardensClient.FilteredGardens | app/gardens/gardens-client.tsx:75-94 | defines `filteredGardens`: `filter` with availability, the tag test and the size test |
| GardensClient.FeaturesAreCombinedWithAnd | app/gardens/gardens-client.tsx:76-81 | tags Laube and Wasseranschluss fail the selection Laube and Teich and pass Laube alone |
| GardensClient.FilteredMembers | app/gardens/gardens-client.tsx:75-94 | a garden is listed exactly when it is given, available, carries every selected tag and is in the bucket |
| GardensClient.FilteredCount | app/gardens/gardens-client.tsx:75-94 | a garden that passes is listed as many times as it is given; one that fails is not listed |
| GardensClient.FilteredInOrder | app/gardens/gardens-client.tsx:75-94 | the listing is an order-preserving subsequence of the gardens given |
| GardensClient.NoFiltersListsAvailable | app/gardens/gardens-client.tsx:75-94 | with no tag selected and 'all', the available gardens are listed in order |
| GardensClient.MoreFeaturesFewerGardens | app/gardens/gardens-client.tsx:76-81 | selecting more tags lists a subsequence of what fewer tags list |
| GardensClient.NoTagsAsEmptySearch | app/gardens/gardens-client.tsx:75-94 | with no tag selected the tag variant lists what the search variant lists for an empty term |
| GardensClient.CatalogueLargeNoTags | app/gardens/gardens-client.tsx:83-94 | given the five-garden catalogue, 'large' with no tag lists ids 2 and 4 in order |
| GardensClient.CatalogueWasseranschluss | app/gardens/gardens-client.tsx:75-94 | given the five-garden catalogue, the tag Wasseranschluss lists ids 1, 3, 4 and 5: all but B-07 |
| GardensClient.Toggled | app/gardens/gardens-client.tsx:58-66 | defines `toggleFeature`'s update: a selected tag is filtered out, another is appended |
| GardensClient.ToggleFlips | app/gardens/gardens-client.tsx:58-66 | toggling flips whether the tag is selected and leaves every other tag as it was |
| GardensClient.ToggleKeepsOthers | app/gardens/gardens-client.tsx:58-66 | the other selected tags keep their order |
| GardensClient.ToggleTwice | app/gardens/gardens-client.tsx:58-66 | toggling an unselected tag twice gives back the selection |
| GardensClient.ToggledNoDuplicates | app/gardens/gardens-client.tsx:58-66 | a selection without repeats stays without repeats |
| GardensClient.FeatureUnionMembers | app/gardens/gardens-client.tsx:46-50 | a tag is in the union exactly when some garden carries it |
| GardensClient.FeatureUnion | app/gardens/gardens-client.tsx:44-50 | defines the set the nested `forEach` fills: every tag of every garden |
| GardensClient.Below | app/gardens/gardens-client.tsx:51 | defines the comparison of the default `sort`: character by character, a proper prefix first |
| GardensClient.BelowIrreflexive | app/gardens/gardens-client.tsx:51 | no string sorts before itself |
| GardensClient.BelowTransitive | app/gardens/gardens-client.tsx:51 | the sort order is transitive |
| GardensClient.BelowTotal | app/gardens/gardens-client.tsx:51 | of two different strings one sorts before the other |
| GardensClient.BelowAsymmetric | app/gardens/gardens-client.tsx:51 | two strings never sort before each other |
| GardensClient.Insert | app/gardens/gardens-client.tsx:51 | inserting a new tag into a sorted list keeps it sorted and adds exactly that tag |
| GardensClient.Sort | app/gardens/gardens-client.tsx:51 | sorting distinct tags gives a strictly ascending list of the same tags |
| GardensClient.AllFeatures | app/gardens/gardens-client.tsx:44-52 | the catalogue is strictly ascending and holds exactly the tags of all gardens |
| GardensClient.SortedNoDuplicates | app/gardens/gardens-client.tsx:51 | a strictly ascending list has no repeated tag |
| GardensClient.SortedUnique | app/gardens/gardens-client.tsx:51 | two strictly ascending lists of the same tags are equal |
| GardensClient.AllFeaturesDetermined | app/gardens/gardens-client.tsx:44-52 | the catalogue is the one sorted, repeat-free list of the gardens' tags |
| GardensClient.FilterState.constructor | app/gardens/gardens-client.tsx:40-52 | starts with 'all', no tag selected and the catalogue of the gardens' tags |
| GardensClient.FilterState.ToggleFeature | app/gardens/gardens-client.tsx:58-66 | the selection becomes the toggled one, the tag's membership flips, nothing else changes |
| GardensClient.FilterState.SetSizeFilter | app/gardens/gardens-client.tsx:154 | the size filter is set, nothing else changes |
| GardensClient.FilterState.ResetAllFilters | app/gardens/gardens-client.tsx:68-73 | afterwards `hasActiveFilters` is false and the available gardens are listed |
| GardensClient.FilterState.HasActiveFilters | app/gardens/gardens-client.tsx:73 | defines `hasActiveFilters`: a tag is selected or the size filter is not 'all' |
| Events.FromIndex | app/events/page.tsx:168-184 | every month count denotes one month 0-11 of one year |
| Events.InMonth | app/events/page.tsx:159-162 | defines `isCurrentMonth`: the date parses and has the month and year shown |
| Events.MatchesCategory | app/events/page.tsx:163 | defines `matchesFilter`: the filter is 'all' or equals the event's category |
| Events.FilteredEvents | app/events/page.tsx:158-166 | defines `filteredEvents`: `filter` with both tests |
| Events.Following | app/events/page.tsx:177-184 | defines `handleNextMonth`'s update: December goes to January of the next year, any other month one on |
| Events.Preceding | app/events/page.tsx:168-175 | defines `handlePrevMonth`'s update: January goes to December of the year before, any other month one back |
| Events.FilteredMembers | app/events/page.tsx:158-166 | an event is listed exactly when its month and year are the ones shown and it is in the category, or the filter is 'all' |
| Events.FilteredInOrder | app/events/page.tsx:158-166 | the listed events are an order-preserving subsequence |
| Events.UncategorisedDropped | app/events/page.tsx:163 | an event without a category is dropped whenever the filter is not 'all' |
| Events.InvalidDateDropped | app/events/page.tsx:159-162 | an event whose date does not parse is never listed |
| Events.AllCategoriesByMonth | app/events/page.tsx:158-166 | with 'all' only the month and year decide |
| Events.CategoryNarrows | app/events/page.tsx:158-166 | choosing a category lists a subsequence of what 'all' lists |
| Events.FollowingValid | app/events/page.tsx:177-184 | the next month is again in 0-11 and one month later |
| Events.PrecedingValid | app/events/page.tsx:168-175 | the previous month is again in 0-11 and one month earlier |
| Events.IndexInjective | app/events/page.tsx:168-184 | two valid months with the same count are equal |
| Events.FollowingIsSuccessor | app/events/page.tsx:177-184 | the next month is the month whose count is one more |
| Events.PrecedingIsPredecessor | app/events/page.tsx:168-175 | the previous month is the month whose count is one less |
| Events.NavigationInverse | app/events/page.tsx:168-184 | next then previous, and previous then next, return to the same month |
| Events.YearBoundary | app/events/page.tsx:168-184 | December goes to January of the next year, January to December of the previous one |
| Events.Calendar.constructor | app/events/page.tsx:42-48 | starts at today's month and year with the filter 'all' |
| Events.Calendar.PrevMonth | app/events/page.tsx:168-175 | moves one month back, wrapping January to December of the year before, and keeps the filter |
| Events.Calendar.NextMonth | app/events/page.tsx:177-184 | moves one month on, wrapping December to January of the year after, and keeps the filter |
| Events.Calendar.SetFilter | app/events/page.tsx:222 | sets the category, keeps the month |
| Events.Calendar.BackToToday | app/events/page.tsx:277-281 | shows today's month with every category: the events of today's month are listed |
| Gallery.NextInRange | components/garden-gallery.tsx:23-25 | "next" keeps the index among the images |
| Gallery.Next | components/garden-gallery.tsx:23-25 | defines `nextImage`'s update: the last index goes to 0, any other one on |
| Gallery.Prev | components/garden-gallery.tsx:27-29 | defines `prevImage`'s update: index 0 goes to the last, any other one back |
| Gallery.FullscreenNext | components/garden-gallery.tsx:137-141 | defines the fullscreen "next" updater, `null` coerced to 0 |
| Gallery.FullscreenPrev | components/garden-gallery.tsx:124-128 | defines the fullscreen "previous" updater, `null` coerced to 0 |
| Gallery.PrevInRange | components/garden-gallery.tsx:27-29 | "previous" keeps the index among the images |
| Gallery.NextPrevInverse | components/garden-gallery.tsx:23-29 | "next" and "previous" undo each other |
| Gallery.NextIsModular | components/garden-gallery.tsx:23-25 | "next" adds one modulo the number of images |
| Gallery.PrevIsModular | components/garden-gallery.tsx:27-29 | "previous" subtracts one modulo the number of images |
| Gallery.AdvanceIsModular | components/garden-gallery.tsx:23-25 | `k` presses of "next" move `k` places modulo the number of images |
| Gallery.FullCycle | components/garden-gallery.tsx:23-25 | one press of "next" per image comes back to the starting image |
| Gallery.FullscreenNextWraps | components/garden-gallery.tsx:137-141 | the fullscreen "next" wraps like the inline one |
| Gallery.FullscreenPrevWraps | components/garden-gallery.tsx:124-128 | the fullscreen "previous" wraps like the inline one |
| Gallery.FullscreenOnNull | components/garden-gallery.tsx:124-141 | on `null` the fullscreen updates coerce it to 0 and give 1 and -1 |
| Gallery.GardenGallery.constructor | components/garden-gallery.tsx:20-21 | starts at image 0 with the dialog closed |
| Gallery.GardenGallery.NextImage | components/garden-gallery.tsx:23-25 | the index becomes the next one, the fullscreen index is untouched |
| Gallery.GardenGallery.PrevImage | components/garden-gallery.tsx:27-29 | the index becomes the previous one, the fullscreen index is untouched |
| Gallery.GardenGallery.SelectImage | components/garden-gallery.tsx:84 | a thumbnail sets the index to its own |
| Gallery.GardenGallery.OpenFullscreen | components/garden-gallery.tsx:31-33 | the fullscreen index is set, the dialog is open, the current index is unchanged |
| Gallery.GardenGallery.ExpandCurrent | components/garden-gallery.tsx:47 | the expand button opens the image shown |
| Gallery.GardenGallery.OnOpenChange | components/garden-gallery.tsx:96-98 | closing clears the fullscreen index; opening changes nothing |
| Gallery.GardenGallery.FullscreenNextImage | components/garden-gallery.tsx:137-141 | the fullscreen index moves to the next image, cyclically |
| Gallery.GardenGallery.FullscreenPrevImage | components/garden-gallery.tsx:124-128 | the fullscreen index moves to the previous image, cyclically |
| RelatedGardens.Related | components/related-gardens.tsx:103-105 | at most three gardens, none with the current id, all from the catalogue, a prefix of the catalogue without the current garden, of length min(3, its length) |
| RelatedGardens.RelatedInOrder | components/related-gardens.tsx:103-105 | the related gardens keep catalogue order |
| RelatedGardens.UnknownIdShowsFirst | components/related-gardens.tsx:103-105 | for an id not in the catalogue the first min(3, length) gardens are shown |
| RelatedGardens.ThreeWhenAvailable | components/related-gardens.tsx:105 | with three or more other gardens exactly three are shown |
| RelatedGardens.DisplayedFeatures | components/related-gardens.tsx:153 | a card shows a prefix of the tags of length min(3, their number) |
| RelatedGardens.FewTagsAllShown | components/related-gardens.tsx:153 | a garden with at most three tags shows them all |
| RelatedGardens.FiveOthers | components/related-gardens.tsx:103-104 | the ids of five gardens without the current one, in order |
| RelatedGardens.MockRelatedToFirst | components/related-gardens.tsx:44-105 | given the catalogue, garden 1's page shows gardens 2, 3 and 4 |
| RelatedGardens.MockRelatedToThird | components/related-gardens.tsx:44-105 | given the catalogue, garden 3's page shows gardens 1, 2 and 4 |

## Left out

- Markup, styling, icons and layout in every file, and the pages and components that are only markup.
- `lib/contentful.ts`: its functions return empty lists, so there is nothing to model.
- The related-gardens component keeps its list as React state (components/related-gardens.tsx:35), which its effect sets once. The model has no class for it: `RelatedGardens.Related` is the value that state takes.
- The search page's `gardens` state, set once by its effect, is the constant field `GardensPage.SearchState.gardens`.
- The React plumbing:
  - `useState` and `useEffect` become fields and methods, and the effect that builds the tag catalogue runs in the constructor.
  - The asynchronous mock fetches, the loading flags and the error logging are left out.
- The description texts of the mock catalogue. They are a parameter of `Gardens.MockCatalogue`, so the catalogue lemmas hold whatever the descriptions say.
- The related-gardens catalogue (components/related-gardens.tsx:44-100) has the same ids, numbers, sizes, tags and availability as the search page's. It differs only in its descriptions, so it is the same `MockCatalogue` with other descriptions.
- Gardens.MockCatalogue: no lemma names the listing for 'all'. `GardensPage.NoCriteriaListsAvailable` states it for every catalogue.
- Sizes are unbounded `nat`. `Number.parseInt` loses precision beyond 2^53, and labels that long are not modelled.
- `toLowerCase` lowers ASCII letters only. Unicode case mapping (such as `Ä`) is not modelled.
- GardensClient.Below: the default `sort` compares UTF-16 code units, and the model compares Unicode characters. The two orders differ only for characters outside the Basic Multilingual Plane.
- `sizeFilter` has the four values its `Select` offers ('all', 'small', 'medium', 'large'). In the source, any other string would impose no size constraint.
- Event dates:
  - `Event.date` is a month and year, or `None` for a string that `new Date` cannot parse.
  - Date-string parsing, time zones, `toLocaleDateString` and `getMonthName` are not modelled.
  - The string arithmetic that builds the mock event dates (app/events/page.tsx:98-124) is not modelled.
- The clock: `new Date()` in the initial state and in the "back to the current month" button becomes a `today` parameter.
- Gallery.GardenGallery.NextImage, Gallery.GardenGallery.PrevImage, Gallery.GardenGallery.FullscreenNextImage and Gallery.GardenGallery.FullscreenPrevImage: these require at least one image.
  - The inline buttons are rendered only for two or more images, and the fullscreen buttons only while the fullscreen index is set (components/garden-gallery.tsx:52, 118).
  - What the fullscreen updaters do on `null` is stated by `Gallery.FullscreenOnNull`.
- Gallery.GardenGallery.OpenFullscreen requires an index among the images, or 0 when there are none. Its one caller (line 47) passes the current index, which always meets that.
- The contact form, the navigation bar, the theme provider and the image component: they are I/O, routing or browser events.
- The size `Select` labels the large bucket "über 300m²" (over 300), but the code tests `>= 300`. The model follows the code: 300 m² is large.
