/** The garden record both garden listings display, and the size handling they
    share: the size label (such as "250 m²") is reduced to its decimal digits and
    parsed, and the size filter sorts gardens into three half-open buckets. The
    mock catalogue the pages share is here too. */
module Gardens {
  import opened Common

  datatype Garden = Garden(
    id: string,
    number: string,
    size: string,
    features: seq<string>,
    available: bool,
    image: string,
    description: string)

  /** The characters the regular expression class `\d` matches: ASCII digits. */
  predicate IsDigit(c: char) { '0' <= c <= '9' }

  predicate AllDigits(s: string) { forall c :: c in s ==> IsDigit(c) }

  /** `s.replace(/\D/g, '')`: every character that is not a digit removed. */
  function Digits(s: string): (r: string)
    ensures AllDigits(r)
  {
    FilterMembers(IsDigit, s);
    Filter(IsDigit, s)
  }

  function DigitValue(c: char): (v: nat)
    requires IsDigit(c)
    ensures v < 10
  {
    (c as int) - ('0' as int)
  }

  function DigitChar(d: nat): (c: char)
    requires d < 10
    ensures IsDigit(c) && DigitValue(c) == d
  {
    (('0' as int) + d) as char
  }

  /** The number a string of decimal digits denotes. */
  function DecimalValue(ds: string): nat
    requires AllDigits(ds)
  {
    if ds == [] then 0
    else 10 * DecimalValue(ds[..|ds| - 1]) + DigitValue(ds[|ds| - 1])
  }

  /** The decimal numeral of `n`, without leading zeros. */
  function Decimal(n: nat): (r: string)
    ensures AllDigits(r) && r != []
  {
    if n < 10 then [DigitChar(n)] else Decimal(n / 10) + [DigitChar(n % 10)]
  }

  /** `getSizeInSquareMeters`: `Number.parseInt` of the digits of the label.
      `None` is the `NaN` that `parseInt('')` gives when there are no digits. */
  function ParseSize(size: string): Option<nat> {
    var ds := Digits(size);
    if ds == [] then None else Some(DecimalValue(ds))
  }

  /** The values of the size `Select` (lines 159-162 of either page):
      'all', 'small', 'medium' and 'large'. */
  datatype SizeFilter = AllSizes | Small | Medium | Large

  /** The `sizeFilter` test. Every comparison with `NaN` is false, so a size
      without digits is in no bucket; 'all' imposes nothing. */
  predicate MatchesSize(sizeFilter: SizeFilter, size: string) {
    var v := ParseSize(size);
    match sizeFilter
    case Small => v.Some? && v.value < 250
    case Medium => v.Some? && v.value >= 250 && v.value < 300
    case Large => v.Some? && v.value >= 300
    case AllSizes => true
  }

  predicate IsAvailable(g: Garden) { g.available }

  /** The ids of a list of gardens, in order. */
  function Ids(gs: seq<Garden>): (r: seq<string>)
    ensures |r| == |gs| && forall i :: 0 <= i < |gs| ==> r[i] == gs[i].id
  {
    if gs == [] then [] else [gs[0].id] + Ids(gs[1..])
  }

  lemma {:induction false} IdsAppend(a: seq<Garden>, b: seq<Garden>)
    ensures Ids(a + b) == Ids(a) + Ids(b)
  {
    if a != [] {
      assert (a + b)[1..] == a[1..] + b;
      IdsAppend(a[1..], b);
    } else {
      assert a + b == b;
    }
  }

  lemma IdsOneIf(b: bool, g: Garden)
    ensures Ids(OneIf(b, g)) == OneIf(b, g.id)
  {
  }

  /** The ids of five gardens, each kept or dropped on its own. */
  lemma IdsOfFive(b0: bool, b1: bool, b2: bool, b3: bool, b4: bool,
                  g0: Garden, g1: Garden, g2: Garden, g3: Garden, g4: Garden)
    ensures Ids(OneIf(b0, g0) + (OneIf(b1, g1) + (OneIf(b2, g2) + (OneIf(b3, g3) + OneIf(b4, g4)))))
         == OneIf(b0, g0.id) + (OneIf(b1, g1.id) + (OneIf(b2, g2.id) + (OneIf(b3, g3.id) + OneIf(b4, g4.id))))
  {
    var c0, c1, c2, c3, c4 := OneIf(b0, g0), OneIf(b1, g1), OneIf(b2, g2), OneIf(b3, g3), OneIf(b4, g4);
    IdsOneIf(b0, g0); IdsOneIf(b1, g1); IdsOneIf(b2, g2); IdsOneIf(b3, g3); IdsOneIf(b4, g4);
    IdsAppend(c3, c4);
    IdsAppend(c2, c3 + c4);
    IdsAppend(c1, c2 + (c3 + c4));
    IdsAppend(c0, c1 + (c2 + (c3 + c4)));
  }

  /** The bucket a size in square meters belongs to. */
  function Bucket(n: nat): SizeFilter {
    if n < 250 then Small else if n < 300 then Medium else Large
  }

  /** The label a garden's size is written as. */
  function SizeLabel(n: nat): string { Decimal(n) + " m²" }

  /** The mock catalogue of the search page (app/gardens/page.tsx:36-87),
      which the related-gardens component repeats with other descriptions.
      Its five description texts are a parameter: the prose is not
      reproduced here. */
  function MockCatalogue(descriptions: seq<string>): (r: seq<Garden>)
    requires |descriptions| == 5
    ensures |r| == 5
  {
    [ Garden("1", "A-15", "250 m²", ["Laube", "Wasseranschluss", "Obstbäume"], true, Placeholder(), descriptions[0]),
      Garden("2", "B-07", "300 m²", ["Gartenhaus", "Stromanschluss", "Gewächshaus"], true, Placeholder(), descriptions[1]),
      Garden("3", "C-22", "280 m²", ["Laube", "Wasseranschluss", "Beerensträucher"], true, Placeholder(), descriptions[2]),
      Garden("4", "D-05", "320 m²", ["Gartenhaus", "Stromanschluss", "Wasseranschluss", "Teich"], true, Placeholder(), descriptions[3]),
      Garden("5", "E-11", "200 m²", ["Laube", "Wasseranschluss"], true, Placeholder(), descriptions[4]) ]
  }

  function Placeholder(): string { "/placeholder.svg?height=200&width=300" }

  // ---------------------------------------------------------------------------
  // Properties

  lemma {:induction false} DecimalValueOfDecimal(n: nat)
    ensures DecimalValue(Decimal(n)) == n
  {
    if n >= 10 {
      DecimalValueOfDecimal(n / 10);
      var r := Decimal(n);
      assert r[..|r| - 1] == Decimal(n / 10);
    }
  }

  /** `parseInt` gives `NaN` exactly when the label holds no digit. */
  lemma ParseSizeNaN(size: string)
    ensures ParseSize(size).None? <==> (forall c :: c in size ==> !IsDigit(c))
  {
    FilterMembers(IsDigit, size);
    var d := Digits(size);
    assert d != [] ==> d[0] in d;
  }

  /** Removing the non-digits twice removes nothing more. */
  lemma DigitsIdempotent(s: string)
    ensures Digits(Digits(s)) == Digits(s)
  {
    FilterKeepsAll(IsDigit, Digits(s));
  }

  /** Only the digits of a label matter to the parser. */
  lemma ParseSizeOfDigits(s: string)
    ensures ParseSize(Digits(s)) == ParseSize(s)
  {
    DigitsIdempotent(s);
  }

  /** Parsing a size label gives back the number it was written from. */
  lemma ParseSizeLabel(n: nat)
    ensures ParseSize(SizeLabel(n)) == Some(n)
  {
    var d := Decimal(n);
    var tail := " m²";
    assert forall c :: c in tail ==> !IsDigit(c);
    FilterKeepsAll(IsDigit, d);
    FilterAppend(IsDigit, d, tail);
    FilterDropsAll(IsDigit, tail);
    assert Digits(SizeLabel(n)) == d;
    DecimalValueOfDecimal(n);
  }

  lemma ParseSizeOfLabel(s: string, n: nat)
    requires s == SizeLabel(n)
    ensures ParseSize(s) == Some(n)
  {
    ParseSizeLabel(n);
  }

  /** The three buckets are exactly the sizes `Bucket` assigns to them, and a
      size without digits is in none of them. */
  lemma MatchesBucket(f: SizeFilter, size: string)
    requires f != AllSizes
    ensures MatchesSize(f, size) <==> ParseSize(size).Some? && Bucket(ParseSize(size).value) == f
  {
  }

  /** Every size that parses is in exactly one bucket. */
  lemma BucketsPartition(size: string)
    requires ParseSize(size).Some?
    ensures MatchesSize(Small, size) || MatchesSize(Medium, size) || MatchesSize(Large, size)
    ensures !(MatchesSize(Small, size) && MatchesSize(Medium, size))
    ensures !(MatchesSize(Small, size) && MatchesSize(Large, size))
    ensures !(MatchesSize(Medium, size) && MatchesSize(Large, size))
  {
  }

  /** A garden whose label reads `n` m² is in bucket `Bucket(n)` and in no
      other. */
  lemma LabelBucket(n: nat, f: SizeFilter)
    requires f != AllSizes
    ensures MatchesSize(f, SizeLabel(n)) <==> f == Bucket(n)
  {
    ParseSizeLabel(n);
  }

  /** The buckets are half-open: 250 m² is medium, not small; 300 m² is large,
      not medium. */
  lemma BucketBoundaries()
    ensures Bucket(249) == Small && Bucket(250) == Medium
    ensures Bucket(299) == Medium && Bucket(300) == Large
  {
  }

  /** A label without digits parses to `NaN` and is in no bucket. */
  lemma NoDigitsNoBucket(size: string)
    requires forall c :: c in size ==> !IsDigit(c)
    ensures !MatchesSize(Small, size) && !MatchesSize(Medium, size) && !MatchesSize(Large, size)
    ensures MatchesSize(AllSizes, size)
  {
    ParseSizeNaN(size);
  }
}
