/** The catalogue page of frontend/src/pages/AllProperties.jsx: the price
    slider's ceiling, computed from the loaded listings, and the filter
    engine that narrows the list by a search term and a maximum price. */
module CataloguePage {
  import opened Query
  import opened Tables
  import opened Text

  /** The slider's bound before any listing is loaded. */
  const InitialPriceRange: int := 1000

  function Price(p: Property): int {
    p.listing.pricePerNight
  }

  /** `Math.max(...prices)` over a non-empty list. */
  function HighestPrice(ps: seq<Property>): (h: int)
    requires |ps| > 0
    ensures forall i :: 0 <= i < |ps| ==> Price(ps[i]) <= h
    ensures exists i :: 0 <= i < |ps| && Price(ps[i]) == h
  {
    if |ps| == 1 then Price(ps[0])
    else
      var rest := HighestPrice(ps[1..]);
      assert forall i :: 1 <= i < |ps| ==> ps[i] == ps[1..][i - 1];
      if Price(ps[0]) >= rest then Price(ps[0]) else rest
  }

  /** `Math.ceil(h / 100) * 100`; Dafny's division rounds down for a
      positive divisor, as Math.floor does. */
  function Ceiling(h: int): (c: int)
    ensures c % 100 == 0
    ensures h <= c < h + 100
  {
    if h % 100 == 0 then h else (h / 100 + 1) * 100
  }

  /** The ceiling is the smallest multiple of 100 at or above the price. */
  lemma CeilingIsSmallest(h: int, m: int)
    requires m % 100 == 0 && h <= m
    ensures Ceiling(h) <= m
  {
    var c := Ceiling(h);
    assert (m - c) % 100 == 0;
    assert m - c > -100;
  }

  /** The page's filter state. */
  datatype Filters = Filters(searchTerm: string, priceRange: int, maxPriceInDb: int)

  /** The state after loading: the slider's bound and position move to the
      ceiling of the highest price, and only when some listing came back. */
  function Loaded(ps: seq<Property>): (f: Filters)
    ensures f.searchTerm == "" && f.priceRange == f.maxPriceInDb
    ensures |ps| == 0 ==> f.priceRange == InitialPriceRange
    ensures |ps| > 0 ==> f.priceRange % 100 == 0
    ensures forall i :: 0 <= i < |ps| ==> Price(ps[i]) <= f.priceRange
  {
    if |ps| > 0 then
      var c := Ceiling(HighestPrice(ps));
      Filters("", c, c)
    else Filters("", InitialPriceRange, InitialPriceRange)
  }

  /** The reset button: an empty term and the slider back at the bound. */
  function Reset(f: Filters): (f': Filters)
    ensures f'.searchTerm == "" && f'.priceRange == f.maxPriceInDb && f'.maxPriceInDb == f.maxPriceInDb
  {
    f.(searchTerm := "", priceRange := f.maxPriceInDb)
  }

  /** `toLowerCase` on the ASCII letters. */
  function LowerChar(c: char): char {
    if 'A' <= c <= 'Z' then (c as int + 32) as char else c
  }

  function Lower(s: string): (r: string)
    ensures |r| == |s|
    ensures forall i :: 0 <= i < |s| ==> r[i] == LowerChar(s[i])
  {
    seq(|s|, i requires 0 <= i < |s| => LowerChar(s[i]))
  }

  /** Lowercasing twice is lowercasing once. */
  lemma LowerIdempotent(s: string)
    ensures Lower(Lower(s)) == Lower(s)
  {
    forall i | 0 <= i < |s| ensures Lower(Lower(s))[i] == Lower(s)[i] {
      assert LowerChar(LowerChar(s[i])) == LowerChar(s[i]);
    }
  }

  /** The text test ignores the case of the term. */
  lemma TextTestIgnoresCase(p: Property, term: string)
    ensures MatchesTerm(p, term) == MatchesTerm(p, Lower(term))
  {
    LowerIdempotent(term);
  }

  /** The text test: the lowercased title or location contains the
      lowercased term. */
  predicate MatchesTerm(p: Property, term: string) {
    Contains(Lower(p.listing.title), Lower(term)) || Contains(Lower(p.listing.location), Lower(term))
  }

  /** A listing the filters let through: the text test when there is a
      term, and the price test always. */
  predicate Kept(p: Property, f: Filters) {
    (f.searchTerm == "" || MatchesTerm(p, f.searchTerm)) && Price(p) <= f.priceRange
  }

  function TextTest(term: string): Property -> bool {
    p => MatchesTerm(p, term)
  }

  function PriceTest(range: int): Property -> bool {
    p => Price(p) <= range
  }

  /** Both tests in one pass. */
  function KeptTest(f: Filters): Property -> bool {
    p => Kept(p, f)
  }

  /** The filter effect: the text filter (only for a non-empty term), then
      the price filter. The two passes keep exactly the listings one pass
      of both tests keeps, each as often and in catalogue order. */
  function Filtered(ps: seq<Property>, f: Filters): (r: seq<Property>)
    ensures r == Filter(ps, KeptTest(f))
    ensures forall p :: p in r <==> p in ps && Kept(p, f)
    ensures IsSubsequence(r, ps)
  {
    FilterIsSubsequence(ps, KeptTest(f));
    if f.searchTerm != "" then
      FilterTwice(ps, TextTest(f.searchTerm), PriceTest(f.priceRange), KeptTest(f));
      Filter(Filter(ps, TextTest(f.searchTerm)), PriceTest(f.priceRange))
    else
      var priced := Filter(ps, PriceTest(f.priceRange));
      FilterTwice(ps, PriceTest(f.priceRange), PriceTest(f.priceRange), KeptTest(f));
      assert forall i :: 0 <= i < |priced| ==> PriceTest(f.priceRange)(priced[i]) by {
        forall i | 0 <= i < |priced| ensures PriceTest(f.priceRange)(priced[i]) {
          assert priced[i] in priced;
        }
      }
      FilterAll(priced, PriceTest(f.priceRange));
      priced
  }

  /** Right after loading, and after a reset from any term and slider
      position, nothing is filtered out. */
  lemma LoadedShowsEverything(ps: seq<Property>, term: string, range: int)
    ensures Filtered(ps, Loaded(ps)) == ps
    ensures Filtered(ps, Reset(Loaded(ps).(searchTerm := term, priceRange := range))) == ps
  {
    var f := Loaded(ps);
    assert Reset(f.(searchTerm := term, priceRange := range)) == f;
    FilterAll(ps, PriceTest(f.priceRange));
  }
}
