/** The product catalog: the filter-and-sort effect that derives the shown
    products from the full list, the filter state with its defaults and
    reset, and the distinct category and brand lists of the filter menus. */
module Catalog {
  import opened Types
  import opened Sequences
  import opened DisplayRules

  /** The `filters` state; `priceLow`/`priceHigh` are `priceRange[0]` and
      `priceRange[1]`, integers as the range sliders produce them. */
  datatype Filters = Filters(category: string, brand: string, priceLow: int, priceHigh: int, minRating: real)

  /** The initial filters, restored by "Clear All Filters". */
  const DefaultFilters: Filters := Filters("", "", 0, 1000, 0.0)

  // ---------------------------------------------------------------------
  // Filtering

  /** `Array.prototype.filter`. */
  function Filter<T(!new)>(s: seq<T>, keep: T -> bool): (r: seq<T>)
    ensures |r| <= |s|
    ensures forall x :: multiset(r)[x] == if keep(x) then multiset(s)[x] else 0
    ensures forall x :: x in r <==> x in s && keep(x)
  {
    if s == [] then []
    else
      var rest := Filter(s[1..], keep);
      assert s == [s[0]] + s[1..];
      (if keep(s[0]) then [s[0]] else []) + rest
  }

  /** Filtering keeps the order of the input: filtering two consecutive parts
      and joining the results is filtering the whole. */
  lemma {:induction false} FilterConcat<T(!new)>(a: seq<T>, b: seq<T>, keep: T -> bool)
    ensures Filter(a + b, keep) == Filter(a, keep) + Filter(b, keep)
  {
    if a == [] {
      assert a + b == b;
    } else {
      var h := if keep(a[0]) then [a[0]] else [];
      var ra, rb := Filter(a[1..], keep), Filter(b, keep);
      SplitHead(a, b);
      FilterCons(a[0], a[1..] + b, keep);
      FilterCons(a[0], a[1..], keep);
      FilterConcat(a[1..], b, keep);
      ConcatAssoc(h, ra, rb);
    }
  }

  lemma FilterCons<T(!new)>(x: T, s: seq<T>, keep: T -> bool)
    ensures Filter([x] + s, keep) == (if keep(x) then [x] else []) + Filter(s, keep)
  {
    assert ([x] + s)[1..] == s;
  }

  predicate MatchesCategory(p: Product, f: Filters) {
    f.category == "" || p.category == f.category
  }

  predicate MatchesBrand(p: Product, f: Filters) {
    f.brand == "" || p.brand == f.brand
  }

  /** The effective price lies in the inclusive range. */
  predicate InPriceRange(p: Product, f: Filters) {
    f.priceLow as real <= EffectivePrice(p) <= f.priceHigh as real
  }

  /** A minimum rating of zero (or less) is no restriction. */
  predicate MeetsRating(p: Product, f: Filters) {
    f.minRating <= 0.0 || p.rating >= f.minRating
  }

  /** A product passes every active filter. */
  predicate Passes(p: Product, f: Filters) {
    MatchesCategory(p, f) && MatchesBrand(p, f) && InPriceRange(p, f) && MeetsRating(p, f)
  }

  function CategoryIs(c: string): Product -> bool {
    (p: Product) => p.category == c
  }

  function BrandIs(b: string): Product -> bool {
    (p: Product) => p.brand == b
  }

  function PriceWithin(f: Filters): Product -> bool {
    p => InPriceRange(p, f)
  }

  function RatedAtLeast(r: real): Product -> bool {
    (p: Product) => p.rating >= r
  }

  function PassesAll(f: Filters): Product -> bool {
    p => Passes(p, f)
  }

  /** The products that pass all filters, in catalog order (`FilterConcat`):
      the reference the effect is proved against. */
  function Matching(products: seq<Product>, f: Filters): seq<Product> {
    Filter(products, PassesAll(f))
  }

  /** Sound and complete, counting duplicates: every product that passes
      appears as often as in the catalog, and no other product appears. */
  lemma MatchingCounts(products: seq<Product>, f: Filters, p: Product)
    ensures multiset(Matching(products, f))[p] == if Passes(p, f) then multiset(products)[p] else 0
    ensures p in Matching(products, f) <==> p in products && Passes(p, f)
  {
  }

  /** A non-empty category (brand) filter keeps only that category (brand);
      an empty one, whatever the other filters are, excludes nothing. */
  lemma CategoryAndBrandFilters(products: seq<Product>, f: Filters)
    ensures f.category != "" ==> forall p :: p in Matching(products, f) ==> p.category == f.category
    ensures f.brand != "" ==> forall p :: p in Matching(products, f) ==> p.brand == f.brand
    ensures f.category == "" ==>
      forall p :: p in products && MatchesBrand(p, f) && InPriceRange(p, f) && MeetsRating(p, f) ==>
        p in Matching(products, f)
    ensures f.brand == "" ==>
      forall p :: p in products && MatchesCategory(p, f) && InPriceRange(p, f) && MeetsRating(p, f) ==>
        p in Matching(products, f)
  {
  }

  /** Every result has its effective price in range, so a reversed range
      leaves nothing. */
  lemma PriceRangeFilter(products: seq<Product>, f: Filters)
    ensures forall p :: p in Matching(products, f) ==>
      f.priceLow as real <= EffectivePrice(p) <= f.priceHigh as real
    ensures f.priceLow > f.priceHigh ==> Matching(products, f) == []
  {
    if f.priceLow > f.priceHigh {
      var m := Matching(products, f);
      assert forall x :: multiset(m)[x] == 0;
      assert multiset(m) == multiset{};
    }
  }

  /** A minimum rating of zero keeps every rating; a positive one keeps only
      ratings at least as high. */
  lemma RatingFilter(products: seq<Product>, f: Filters)
    ensures f.minRating > 0.0 ==> forall p :: p in Matching(products, f) ==> p.rating >= f.minRating
    ensures f.minRating <= 0.0 ==>
      forall p :: p in products && MatchesCategory(p, f) && MatchesBrand(p, f) && InPriceRange(p, f) ==>
        p in Matching(products, f)
  {
  }

  /** Under the initial (or cleared) filters only the price range, 0 to 1000,
      can exclude a product. */
  lemma DefaultFiltersOnlyPrice(p: Product)
    ensures Passes(p, DefaultFilters) <==> 0.0 <= EffectivePrice(p) <= 1000.0
  {
  }

  // ---------------------------------------------------------------------
  // Sorting

  /** The `sortBy` values the comparator distinguishes; any other value,
      including the initial `'name'`, sorts by name. */
  datatype SortKey = PriceLow | PriceHigh | Rating | Newest | ByName

  function KeyOf(sortBy: string): SortKey {
    if sortBy == "price_low" then PriceLow
    else if sortBy == "price_high" then PriceHigh
    else if sortBy == "rating" then Rating
    else if sortBy == "newest" then Newest
    else ByName
  }

  /** Lexicographic comparison of names (-1, 0 or 1), standing for
      `localeCompare`. */
  function NameCompare(a: string, b: string): (r: int)
    ensures -1 <= r <= 1
  {
    if a == [] && b == [] then 0
    else if a == [] then -1
    else if b == [] then 1
    else if a[0] < b[0] then -1
    else if a[0] > b[0] then 1
    else NameCompare(a[1..], b[1..])
  }

  lemma {:induction false} NameCompareAntisymmetric(a: string, b: string)
    ensures NameCompare(a, b) == -NameCompare(b, a)
    ensures NameCompare(a, b) == 0 <==> a == b
  {
    if a != [] && b != [] && a[0] == b[0] {
      NameCompareAntisymmetric(a[1..], b[1..]);
      if a[1..] == b[1..] { assert a == [a[0]] + a[1..] && b == [b[0]] + b[1..]; }
    }
  }

  lemma {:induction false} NameCompareTransitive(a: string, b: string, c: string)
    requires NameCompare(a, b) <= 0 && NameCompare(b, c) <= 0
    ensures NameCompare(a, c) <= 0
  {
    if a != [] && b != [] && c != [] && a[0] == b[0] == c[0] {
      NameCompareTransitive(a[1..], b[1..], c[1..]);
    }
  }

  /** The comparator passed to `sort`: negative when `a` goes first. */
  function Compare(key: SortKey, a: Product, b: Product): real {
    match key
    case PriceLow => EffectivePrice(a) - EffectivePrice(b)
    case PriceHigh => EffectivePrice(b) - EffectivePrice(a)
    case Rating => b.rating - a.rating
    case Newest => (b.createdAt - a.createdAt) as real
    case ByName => NameCompare(a.name, b.name) as real
  }

  /** `a` may stand before `b` in a sorted result. */
  predicate Precedes(key: SortKey, a: Product, b: Product) {
    Compare(key, a, b) <= 0.0
  }

  lemma PrecedesTotal(key: SortKey, a: Product, b: Product)
    ensures Precedes(key, a, b) || Precedes(key, b, a)
  {
    if key == ByName { NameCompareAntisymmetric(a.name, b.name); }
  }

  lemma PrecedesTransitive(key: SortKey, a: Product, b: Product, c: Product)
    requires Precedes(key, a, b) && Precedes(key, b, c)
    ensures Precedes(key, a, c)
  {
    if key == ByName { NameCompareTransitive(a.name, b.name, c.name); }
  }

  ghost predicate SortedBy(s: seq<Product>, key: SortKey) {
    forall i, j :: 0 <= i < j < |s| ==> Precedes(key, s[i], s[j])
  }

  /** What sortedness means for each `sortBy` value. */
  lemma SortedMeaning(s: seq<Product>, sortBy: string)
    requires SortedBy(s, KeyOf(sortBy))
    ensures sortBy == "price_low" ==> forall i, j :: 0 <= i < j < |s| ==> EffectivePrice(s[i]) <= EffectivePrice(s[j])
    ensures sortBy == "price_high" ==> forall i, j :: 0 <= i < j < |s| ==> EffectivePrice(s[i]) >= EffectivePrice(s[j])
    ensures sortBy == "rating" ==> forall i, j :: 0 <= i < j < |s| ==> s[i].rating >= s[j].rating
    ensures sortBy == "newest" ==> forall i, j :: 0 <= i < j < |s| ==> s[i].createdAt >= s[j].createdAt
    ensures sortBy !in {"price_low", "price_high", "rating", "newest"} ==>
      forall i, j :: 0 <= i < j < |s| ==> NameCompare(s[i].name, s[j].name) <= 0
  {
    forall i, j | 0 <= i < j < |s| ensures Precedes(KeyOf(sortBy), s[i], s[j]) { }
  }

  /** `filtered.sort(comparator)`, in place, as an insertion sort. */
  method SortProducts(a: array<Product>, key: SortKey)
    modifies a
    ensures SortedBy(a[..], key)
    ensures multiset(a[..]) == multiset(old(a[..]))
  {
    var i := 0;
    while i < a.Length
      invariant 0 <= i <= a.Length
      invariant forall x, y :: 0 <= x < y < i ==> Precedes(key, a[x], a[y])
      invariant multiset(a[..]) == multiset(old(a[..]))
    {
      var j := i;
      while j > 0 && !Precedes(key, a[j - 1], a[j])
        invariant 0 <= j <= i
        invariant forall x, y :: 0 <= x < y <= i && x != j && y != j ==> Precedes(key, a[x], a[y])
        invariant forall y :: j < y <= i ==> Precedes(key, a[j], a[y])
        invariant multiset(a[..]) == multiset(old(a[..]))
      {
        PrecedesTotal(key, a[j - 1], a[j]);
        a[j - 1], a[j] := a[j], a[j - 1];
        j := j - 1;
      }
      forall x | 0 <= x < j ensures Precedes(key, a[x], a[j]) {
        if x < j - 1 { PrecedesTransitive(key, a[x], a[j - 1], a[j]); }
      }
      i := i + 1;
    }
  }

  // ---------------------------------------------------------------------
  // The effect

  /** The effect body: start from a copy of the products, apply each active
      filter in turn, then sort. The result holds exactly the products that
      pass every filter, each as often as in the catalog, in `sortBy` order. */
  method FilterAndSort(products: seq<Product>, f: Filters, sortBy: string) returns (result: seq<Product>)
    ensures multiset(result) == multiset(Matching(products, f))
    ensures SortedBy(result, KeyOf(sortBy))
  {
    var filtered := products;
    ghost var prev := filtered;
    if f.category != "" {
      filtered := Filter(filtered, CategoryIs(f.category));
    }
    CountsStep(prev, filtered, products, f, 0, CategoryIs(f.category), f.category != "");
    prev := filtered;
    if f.brand != "" {
      filtered := Filter(filtered, BrandIs(f.brand));
    }
    CountsStep(prev, filtered, products, f, 1, BrandIs(f.brand), f.brand != "");
    prev := filtered;
    filtered := Filter(filtered, PriceWithin(f));
    CountsStep(prev, filtered, products, f, 2, PriceWithin(f), true);
    prev := filtered;
    if f.minRating > 0.0 {
      filtered := Filter(filtered, RatedAtLeast(f.minRating));
    }
    CountsStep(prev, filtered, products, f, 3, RatedAtLeast(f.minRating), f.minRating > 0.0);
    CountsMatching(filtered, products, f);
    result := SortedCopy(filtered, KeyOf(sortBy));
  }

  /** One filter step of the effect: an active step applies `keep`, an
      inactive one leaves the list as it is. */
  lemma CountsStep(prev: seq<Product>, next: seq<Product>, products: seq<Product>, f: Filters, steps: nat,
                   keep: Product -> bool, active: bool)
    requires steps == 0 ==> prev == products
    requires steps > 0 ==> Counts(prev, products, f, steps)
    requires next == if active then Filter(prev, keep) else prev
    requires forall x :: PassesFirst(x, f, steps + 1) == (PassesFirst(x, f, steps) && (!active || keep(x)))
    ensures Counts(next, products, f, steps + 1)
  {
    forall x ensures multiset(next)[x] == if PassesFirst(x, f, steps + 1) then multiset(products)[x] else 0 {
      assert multiset(prev)[x] == if PassesFirst(x, f, steps) then multiset(products)[x] else 0;
      if active {
        assert multiset(next)[x] == if keep(x) then multiset(prev)[x] else 0;
      }
    }
  }

  /** After all four steps the list counts like the reference. */
  lemma CountsMatching(filtered: seq<Product>, products: seq<Product>, f: Filters)
    requires Counts(filtered, products, f, 4)
    ensures multiset(filtered) == multiset(Matching(products, f))
  {
    forall x ensures multiset(filtered)[x] == multiset(Matching(products, f))[x] {
      assert PassesFirst(x, f, 4) == Passes(x, f);
    }
  }

  /** The first `steps` filters of the effect, in source order. */
  predicate PassesFirst(p: Product, f: Filters, steps: nat) {
    (steps >= 1 ==> MatchesCategory(p, f))
    && (steps >= 2 ==> MatchesBrand(p, f))
    && (steps >= 3 ==> InPriceRange(p, f))
    && (steps >= 4 ==> MeetsRating(p, f))
  }

  /** After `steps` filters, each product occurs as often as in the catalog
      if it passed them, and not at all otherwise. */
  ghost predicate Counts(filtered: seq<Product>, products: seq<Product>, f: Filters, steps: nat) {
    forall x :: multiset(filtered)[x] == if PassesFirst(x, f, steps) then multiset(products)[x] else 0
  }

  /** Copy into an array, sort it in place, and read it back. */
  method SortedCopy(s: seq<Product>, key: SortKey) returns (r: seq<Product>)
    ensures multiset(r) == multiset(s)
    ensures SortedBy(r, key)
  {
    var a := new Product[|s|](i requires 0 <= i < |s| => s[i]);
    assert a[..] == s;
    SortProducts(a, key);
    r := a[..];
  }

  // ---------------------------------------------------------------------
  // Filter menus

  /** `[...new Set(values)]`: each value once, in order of first occurrence. */
  function Distinct(s: seq<string>): (r: seq<string>)
    ensures forall x :: x in r <==> x in s
    ensures forall i, j :: 0 <= i < j < |r| ==> r[i] != r[j]
    ensures forall i, j :: 0 <= i < j < |r| ==> FirstIndex(s, r[i]) < FirstIndex(s, r[j])
  {
    if s == [] then []
    else
      var init, last := s[..|s| - 1], s[|s| - 1];
      assert s == init + [last];
      var r := Distinct(init);
      FirstIndexExtend(init, last);
      if last in r then r else r + [last]
  }

  /** Appending leaves the first occurrence of earlier values where it was. */
  lemma {:induction false} FirstIndexExtend(s: seq<string>, last: string)
    ensures forall x :: x in s ==> FirstIndex(s + [last], x) == FirstIndex(s, x)
    ensures last !in s ==> FirstIndex(s + [last], last) == |s|
  {
    if s != [] {
      FirstIndexExtend(s[1..], last);
      assert (s + [last])[1..] == s[1..] + [last];
    }
  }

  function CategoriesOf(products: seq<Product>): seq<string> {
    seq(|products|, i requires 0 <= i < |products| => products[i].category)
  }

  function BrandsOf(products: seq<Product>): seq<string> {
    seq(|products|, i requires 0 <= i < |products| => products[i].brand)
  }

  /** The category menu lists every category of the catalog exactly once and
      nothing else; likewise the brand menu. */
  lemma MenusListEachValueOnce(products: seq<Product>)
    ensures forall c :: c in Distinct(CategoriesOf(products)) <==> exists p :: p in products && p.category == c
    ensures forall b :: b in Distinct(BrandsOf(products)) <==> exists p :: p in products && p.brand == b
    ensures forall i, j :: 0 <= i < j < |Distinct(CategoriesOf(products))| ==>
      Distinct(CategoriesOf(products))[i] != Distinct(CategoriesOf(products))[j]
    ensures forall i, j :: 0 <= i < j < |Distinct(BrandsOf(products))| ==>
      Distinct(BrandsOf(products))[i] != Distinct(BrandsOf(products))[j]
  {
    forall c ensures c in CategoriesOf(products) <==> exists p :: p in products && p.category == c {
      if c in CategoriesOf(products) {
        var i :| 0 <= i < |products| && CategoriesOf(products)[i] == c;
        assert products[i] in products;
      }
      if exists p :: p in products && p.category == c {
        var p :| p in products && p.category == c;
        var i :| 0 <= i < |products| && products[i] == p;
        assert CategoriesOf(products)[i] == c;
      }
    }
    forall b ensures b in BrandsOf(products) <==> exists p :: p in products && p.brand == b {
      if b in BrandsOf(products) {
        var i :| 0 <= i < |products| && BrandsOf(products)[i] == b;
        assert products[i] in products;
      }
      if exists p :: p in products && p.brand == b {
        var p :| p in products && p.brand == b;
        var i :| 0 <= i < |products| && products[i] == p;
        assert BrandsOf(products)[i] == b;
      }
    }
  }

  // ---------------------------------------------------------------------
  // Component state

  /** The catalog component: the full product list, the filter and sort
      state, and the filtered list the effect derives from them. */
  class CatalogView {
    const products: seq<Product>
    var filters: Filters
    var sortBy: string
    var filteredProducts: seq<Product>

    /** The shown list always reflects the current filters and sort key. */
    ghost predicate Valid()
      reads this
    {
      multiset(filteredProducts) == multiset(Matching(products, filters))
      && SortedBy(filteredProducts, KeyOf(sortBy))
    }

    /** Mounting: default filters, sort by name, and the effect's first run. */
    constructor (products: seq<Product>)
      ensures Valid()
      ensures this.products == products && filters == DefaultFilters && sortBy == "name"
    {
      this.products := products;
      filters := DefaultFilters;
      sortBy := "name";
      new;
      filteredProducts := FilterAndSort(products, DefaultFilters, "name");
    }

    /** `setFilters(next)`, followed by the effect it triggers. */
    method SetFilters(next: Filters)
      requires Valid()
      modifies this`filters, this`filteredProducts
      ensures Valid()
      ensures filters == next
    {
      filters := next;
      filteredProducts := FilterAndSort(products, filters, sortBy);
    }

    /** "Clear All Filters". */
    method ClearFilters()
      requires Valid()
      modifies this`filters, this`filteredProducts
      ensures Valid()
      ensures filters == DefaultFilters
    {
      SetFilters(DefaultFilters);
    }

    /** The sort drop-down, followed by the effect it triggers. */
    method SetSortBy(next: string)
      requires Valid()
      modifies this`sortBy, this`filteredProducts
      ensures Valid()
      ensures sortBy == next
    {
      sortBy := next;
      filteredProducts := FilterAndSort(products, filters, sortBy);
    }

    /** "Showing N of M products": N never exceeds M. */
    lemma ShownAtMostAll()
      requires Valid()
      ensures |filteredProducts| <= |products|
    {
      assert |multiset(filteredProducts)| == |multiset(Matching(products, filters))|;
    }
  }
}
