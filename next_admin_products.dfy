/**
 * The product administration page of the Next.js app: the filtering of the
 * product table, the brand names offered by the filter panel, the slug
 * generator, and the product form. Requests are returned as values; the
 * responses they get are inputs of the methods that react to them.
 */
module NextAdminProducts {
  import opened Wrappers
  import opened Text
  import opened Numbers
  import Seqs
  import Dashes
  import ImageUtils
  import opened AdminProductFilters

  /** `categoryId` as the API returns it: a populated category document, or its raw id. */
  datatype CategoryRef = Populated(id: string) | Raw(id: string)

  datatype AdminProduct = AdminProduct(
    id: string,
    name: string,
    slug: string,
    description: Option<string>,
    price: string,
    originalPrice: Option<string>,
    brand: string,
    imageUrl: string,
    rating: Option<string>,
    inStock: bool,
    featured: bool,
    specifications: Option<string>,
    categoryId: CategoryRef)

  /**
   * `product.categoryId._id || product.categoryId` where a string results;
   * a populated document with an empty id yields the document, which no id
   * list contains.
   */
  function CategoryKey(r: CategoryRef): Option<string> {
    match r
    case Populated(id) => if id != "" then Some(id) else None
    case Raw(id) => Some(id)
  }

  // ---- applyFilters ----

  /** No key of the filter object switches a criterion on. */
  predicate NoFilterSet(f: AdminFilters) {
    && !Truthy(f.search) && !NonEmptyList(f.categories) && !NonEmptyList(f.brands)
    && !Truthy(f.priceRange) && !Truthy(f.stockStatus) && !Truthy(f.featured)
  }

  /** The term, lower-cased, occurs in the lower-cased name, brand or slug. */
  predicate MatchesSearch(term: string, p: AdminProduct) {
    var t := Lower(term);
    Contains(Lower(p.name), t) || Contains(Lower(p.brand), t) || Contains(Lower(p.slug), t)
  }

  predicate InCategories(ids: seq<string>, p: AdminProduct) {
    CategoryKey(p.categoryId).Some? && CategoryKey(p.categoryId).value in ids
  }

  /** `parseInt(price.replace(/,/g, ""))`; `None` is `NaN`. */
  function PriceValue(price: string): Option<int> {
    ParseInt(Seqs.RemoveAll(price, ','))
  }

  /** The price ranges of the filter panel; every comparison with `NaN` is false. */
  predicate InPriceBucket(range: string, n: Option<int>) {
    if range == "under-25" then n.Some? && n.value < 2500
    else if range == "25-100" then n.Some? && 2500 <= n.value <= 10000
    else if range == "100-500" then n.Some? && 10000 < n.value <= 50000
    else if range == "over-500" then n.Some? && n.value > 50000
    else true
  }

  const PriceRanges: seq<string> := ["under-25", "25-100", "100-500", "over-500"]

  /** The four ranges split the integers: each parsed price is in exactly one, `NaN` in none. */
  lemma PriceBucketsPartition(n: Option<int>)
    ensures n.None? ==> forall r :: r in PriceRanges ==> !InPriceBucket(r, n)
    ensures n.Some? ==> exists r :: r in PriceRanges && InPriceBucket(r, n)
    ensures forall i, j :: 0 <= i < j < |PriceRanges| ==> !(InPriceBucket(PriceRanges[i], n) && InPriceBucket(PriceRanges[j], n))
  {
    if n.Some? {
      var v := n.value;
      if v < 2500 {
        assert InPriceBucket(PriceRanges[0], n);
      } else if v <= 10000 {
        assert InPriceBucket(PriceRanges[1], n);
      } else if v <= 50000 {
        assert InPriceBucket(PriceRanges[2], n);
      } else {
        assert InPriceBucket(PriceRanges[3], n);
      }
    }
  }

  predicate SearchPasses(f: AdminFilters, p: AdminProduct) {
    Truthy(f.search) ==> MatchesSearch(f.search.value, p)
  }

  predicate CategoryPasses(f: AdminFilters, p: AdminProduct) {
    NonEmptyList(f.categories) ==> InCategories(f.categories.value, p)
  }

  predicate BrandPasses(f: AdminFilters, p: AdminProduct) {
    NonEmptyList(f.brands) ==> p.brand in f.brands.value
  }

  predicate PricePasses(f: AdminFilters, p: AdminProduct) {
    Truthy(f.priceRange) ==> InPriceBucket(f.priceRange.value, PriceValue(p.price))
  }

  /** "in-stock" keeps stocked products; any other non-empty value keeps the others. */
  predicate StockPasses(f: AdminFilters, p: AdminProduct) {
    Truthy(f.stockStatus) ==> p.inStock == (f.stockStatus.value == "in-stock")
  }

  /** "featured" keeps featured products; any other non-empty value keeps the others. */
  predicate FeaturedPasses(f: AdminFilters, p: AdminProduct) {
    Truthy(f.featured) ==> p.featured == (f.featured.value == "featured")
  }

  /** The first `k` criteria of `applyFilters`, in the order it applies them. */
  predicate PassesFirst(f: AdminFilters, k: nat, p: AdminProduct) {
    && (k > 0 ==> SearchPasses(f, p))
    && (k > 1 ==> CategoryPasses(f, p))
    && (k > 2 ==> BrandPasses(f, p))
    && (k > 3 ==> PricePasses(f, p))
    && (k > 4 ==> StockPasses(f, p))
    && (k > 5 ==> FeaturedPasses(f, p))
  }

  /** A product passes every active criterion. */
  predicate Passes(f: AdminFilters, p: AdminProduct) {
    && SearchPasses(f, p) && CategoryPasses(f, p) && BrandPasses(f, p)
    && PricePasses(f, p) && StockPasses(f, p) && FeaturedPasses(f, p)
  }

  function PassesTest(f: AdminFilters): AdminProduct -> bool {
    p => Passes(f, p)
  }

  function StageTest(f: AdminFilters, k: nat): AdminProduct -> bool {
    p => PassesFirst(f, k, p)
  }

  function SearchTest(term: string): AdminProduct -> bool { (p: AdminProduct) => MatchesSearch(term, p) }

  function CategoryTest(ids: seq<string>): AdminProduct -> bool { (p: AdminProduct) => InCategories(ids, p) }

  function BrandTest(brands: seq<string>): AdminProduct -> bool { (p: AdminProduct) => p.brand in brands }

  function PriceTest(range: string): AdminProduct -> bool { (p: AdminProduct) => InPriceBucket(range, PriceValue(p.price)) }

  function StockTest(inStock: bool): AdminProduct -> bool { (p: AdminProduct) => p.inStock == inStock }

  function FeaturedTest(featured: bool): AdminProduct -> bool { (p: AdminProduct) => p.featured == featured }

  /** One step of `applyFilters`: the `k`-th test applied to what passed the tests before it. */
  lemma Step(products: seq<AdminProduct>, f: AdminFilters, k: nat, active: bool, g: AdminProduct -> bool)
    requires k < 6
    requires active ==> forall p :: PassesFirst(f, k + 1, p) == (PassesFirst(f, k, p) && g(p))
    requires !active ==> forall p :: PassesFirst(f, k + 1, p) == PassesFirst(f, k, p)
    ensures active ==> Seqs.Filter(Seqs.Filter(products, StageTest(f, k)), g) == Seqs.Filter(products, StageTest(f, k + 1))
    ensures !active ==> Seqs.Filter(products, StageTest(f, k)) == Seqs.Filter(products, StageTest(f, k + 1))
  {
    if active {
      Seqs.FilterCompose(products, StageTest(f, k), g, StageTest(f, k + 1));
    } else {
      Seqs.FilterExt(products, StageTest(f, k), StageTest(f, k + 1));
    }
  }

  lemma SearchStep(products: seq<AdminProduct>, f: AdminFilters)
    ensures Truthy(f.search) ==>
      Seqs.Filter(Seqs.Filter(products, StageTest(f, 0)), SearchTest(f.search.value)) == Seqs.Filter(products, StageTest(f, 1))
    ensures !Truthy(f.search) ==> Seqs.Filter(products, StageTest(f, 0)) == Seqs.Filter(products, StageTest(f, 1))
  {
    Step(products, f, 0, Truthy(f.search), SearchTest(if Truthy(f.search) then f.search.value else ""));
  }

  lemma CategoryStep(products: seq<AdminProduct>, f: AdminFilters)
    ensures NonEmptyList(f.categories) ==>
      Seqs.Filter(Seqs.Filter(products, StageTest(f, 1)), CategoryTest(f.categories.value)) == Seqs.Filter(products, StageTest(f, 2))
    ensures !NonEmptyList(f.categories) ==> Seqs.Filter(products, StageTest(f, 1)) == Seqs.Filter(products, StageTest(f, 2))
  {
    Step(products, f, 1, NonEmptyList(f.categories), CategoryTest(if NonEmptyList(f.categories) then f.categories.value else []));
  }

  lemma BrandStep(products: seq<AdminProduct>, f: AdminFilters)
    ensures NonEmptyList(f.brands) ==>
      Seqs.Filter(Seqs.Filter(products, StageTest(f, 2)), BrandTest(f.brands.value)) == Seqs.Filter(products, StageTest(f, 3))
    ensures !NonEmptyList(f.brands) ==> Seqs.Filter(products, StageTest(f, 2)) == Seqs.Filter(products, StageTest(f, 3))
  {
    Step(products, f, 2, NonEmptyList(f.brands), BrandTest(if NonEmptyList(f.brands) then f.brands.value else []));
  }

  lemma PriceStep(products: seq<AdminProduct>, f: AdminFilters)
    ensures Truthy(f.priceRange) ==>
      Seqs.Filter(Seqs.Filter(products, StageTest(f, 3)), PriceTest(f.priceRange.value)) == Seqs.Filter(products, StageTest(f, 4))
    ensures !Truthy(f.priceRange) ==> Seqs.Filter(products, StageTest(f, 3)) == Seqs.Filter(products, StageTest(f, 4))
  {
    Step(products, f, 3, Truthy(f.priceRange), PriceTest(if Truthy(f.priceRange) then f.priceRange.value else ""));
  }

  lemma StockStep(products: seq<AdminProduct>, f: AdminFilters)
    ensures Truthy(f.stockStatus) ==>
      Seqs.Filter(Seqs.Filter(products, StageTest(f, 4)), StockTest(f.stockStatus.value == "in-stock")) == Seqs.Filter(products, StageTest(f, 5))
    ensures !Truthy(f.stockStatus) ==> Seqs.Filter(products, StageTest(f, 4)) == Seqs.Filter(products, StageTest(f, 5))
  {
    Step(products, f, 4, Truthy(f.stockStatus), StockTest(Truthy(f.stockStatus) && f.stockStatus.value == "in-stock"));
  }

  lemma FeaturedStep(products: seq<AdminProduct>, f: AdminFilters)
    ensures Truthy(f.featured) ==>
      Seqs.Filter(Seqs.Filter(products, StageTest(f, 5)), FeaturedTest(f.featured.value == "featured")) == Seqs.Filter(products, StageTest(f, 6))
    ensures !Truthy(f.featured) ==> Seqs.Filter(products, StageTest(f, 5)) == Seqs.Filter(products, StageTest(f, 6))
  {
    Step(products, f, 5, Truthy(f.featured), FeaturedTest(Truthy(f.featured) && f.featured.value == "featured"));
  }

  /** Before any step nothing is removed; after the last the stages are `Passes`. */
  lemma StageBounds(products: seq<AdminProduct>, f: AdminFilters)
    ensures Seqs.Filter(products, StageTest(f, 0)) == products
    ensures Seqs.Filter(products, StageTest(f, 6)) == Seqs.Filter(products, PassesTest(f))
  {
    Seqs.FilterAll(products, StageTest(f, 0));
    Seqs.FilterExt(products, StageTest(f, 6), PassesTest(f));
  }

  /** The test `applyFilters` amounts to keeps exactly the passing products, in order, and all of them without filters. */
  lemma PassesFilterFacts(products: seq<AdminProduct>, f: AdminFilters)
    ensures forall p :: p in Seqs.Filter(products, PassesTest(f)) <==> p in products && Passes(f, p)
    ensures Seqs.IsSubsequence(Seqs.Filter(products, PassesTest(f)), products)
    ensures NoFilterSet(f) ==> Seqs.Filter(products, PassesTest(f)) == products
  {
    Seqs.FilterMembers(products, PassesTest(f));
    Seqs.FilterIsSubsequence(products, PassesTest(f));
    if NoFilterSet(f) {
      Seqs.FilterAll(products, PassesTest(f));
    }
  }

  /** The stage of `applyFilters` for the search term: a `filter` only when it is set. */
  method FilterBySearch(products: seq<AdminProduct>, f: AdminFilters, filtered: seq<AdminProduct>) returns (r: seq<AdminProduct>)
    requires filtered == Seqs.Filter(products, StageTest(f, 0))
    ensures r == Seqs.Filter(products, StageTest(f, 1))
    ensures Truthy(f.search) ==> r == Seqs.Filter(filtered, SearchTest(f.search.value))
    ensures !Truthy(f.search) ==> r == filtered
  {
    SearchStep(products, f);
    r := filtered;
    if Truthy(f.search) {
      r := Seqs.Filter(filtered, SearchTest(f.search.value));
    }
  }

  /** The stage of `applyFilters` for the selected categories: a `filter` only when it is set. */
  method FilterByCategory(products: seq<AdminProduct>, f: AdminFilters, filtered: seq<AdminProduct>) returns (r: seq<AdminProduct>)
    requires filtered == Seqs.Filter(products, StageTest(f, 1))
    ensures r == Seqs.Filter(products, StageTest(f, 2))
    ensures NonEmptyList(f.categories) ==> r == Seqs.Filter(filtered, CategoryTest(f.categories.value))
    ensures !NonEmptyList(f.categories) ==> r == filtered
  {
    CategoryStep(products, f);
    r := filtered;
    if NonEmptyList(f.categories) {
      r := Seqs.Filter(filtered, CategoryTest(f.categories.value));
    }
  }

  /** The stage of `applyFilters` for the selected brands: a `filter` only when it is set. */
  method FilterByBrand(products: seq<AdminProduct>, f: AdminFilters, filtered: seq<AdminProduct>) returns (r: seq<AdminProduct>)
    requires filtered == Seqs.Filter(products, StageTest(f, 2))
    ensures r == Seqs.Filter(products, StageTest(f, 3))
    ensures NonEmptyList(f.brands) ==> r == Seqs.Filter(filtered, BrandTest(f.brands.value))
    ensures !NonEmptyList(f.brands) ==> r == filtered
  {
    BrandStep(products, f);
    r := filtered;
    if NonEmptyList(f.brands) {
      r := Seqs.Filter(filtered, BrandTest(f.brands.value));
    }
  }

  /** The stage of `applyFilters` for the price range: a `filter` only when it is set. */
  method FilterByPrice(products: seq<AdminProduct>, f: AdminFilters, filtered: seq<AdminProduct>) returns (r: seq<AdminProduct>)
    requires filtered == Seqs.Filter(products, StageTest(f, 3))
    ensures r == Seqs.Filter(products, StageTest(f, 4))
    ensures Truthy(f.priceRange) ==> r == Seqs.Filter(filtered, PriceTest(f.priceRange.value))
    ensures !Truthy(f.priceRange) ==> r == filtered
  {
    PriceStep(products, f);
    r := filtered;
    if Truthy(f.priceRange) {
      r := Seqs.Filter(filtered, PriceTest(f.priceRange.value));
    }
  }

  /** The stage of `applyFilters` for the stock status: a `filter` only when it is set. */
  method FilterByStock(products: seq<AdminProduct>, f: AdminFilters, filtered: seq<AdminProduct>) returns (r: seq<AdminProduct>)
    requires filtered == Seqs.Filter(products, StageTest(f, 4))
    ensures r == Seqs.Filter(products, StageTest(f, 5))
    ensures Truthy(f.stockStatus) ==> r == Seqs.Filter(filtered, StockTest(f.stockStatus.value == "in-stock"))
    ensures !Truthy(f.stockStatus) ==> r == filtered
  {
    StockStep(products, f);
    r := filtered;
    if Truthy(f.stockStatus) {
      r := Seqs.Filter(filtered, StockTest(f.stockStatus.value == "in-stock"));
    }
  }

  /** The stage of `applyFilters` for the featured status: a `filter` only when it is set. */
  method FilterByFeatured(products: seq<AdminProduct>, f: AdminFilters, filtered: seq<AdminProduct>) returns (r: seq<AdminProduct>)
    requires filtered == Seqs.Filter(products, StageTest(f, 5))
    ensures r == Seqs.Filter(products, StageTest(f, 6))
    ensures Truthy(f.featured) ==> r == Seqs.Filter(filtered, FeaturedTest(f.featured.value == "featured"))
    ensures !Truthy(f.featured) ==> r == filtered
  {
    FeaturedStep(products, f);
    r := filtered;
    if Truthy(f.featured) {
      r := Seqs.Filter(filtered, FeaturedTest(f.featured.value == "featured"));
    }
  }

  /**
   * `applyFilters`: one `filter` per active criterion, applied in turn; the
   * result is the products that pass them all, in their old order.
   */
  method ApplyFilters(products: seq<AdminProduct>, filters: AdminFilters) returns (filtered: seq<AdminProduct>)
    ensures filtered == Seqs.Filter(products, PassesTest(filters))
    ensures forall p :: p in filtered <==> p in products && Passes(filters, p)
    ensures Seqs.IsSubsequence(filtered, products)
    ensures NoFilterSet(filters) ==> filtered == products
  {
    StageBounds(products, filters);
    filtered := products;
    filtered := FilterBySearch(products, filters, filtered);
    filtered := FilterByCategory(products, filters, filtered);
    filtered := FilterByBrand(products, filters, filtered);
    filtered := FilterByPrice(products, filters, filtered);
    filtered := FilterByStock(products, filters, filtered);
    filtered := FilterByFeatured(products, filters, filtered);
    PassesFilterFacts(products, filters);
  }

  // ---- the brand names of fetchProducts ----

  function Brand(p: AdminProduct): string { p.brand }

  /** One more product adds its brand to the names unless it is already there. */
  lemma BrandNamesStep(products: seq<AdminProduct>, i: nat)
    requires i < |products|
    ensures Seqs.Dedup(Seqs.Map(products[..i + 1], Brand))
      == Seqs.AppendIfAbsent(Seqs.Dedup(Seqs.Map(products[..i], Brand)), products[i].brand)
  {
    var m := Seqs.Map(products[..i + 1], Brand);
    assert m[..|m| - 1] == Seqs.Map(products[..i], Brand);
  }

  /**
   * The `forEach` over the fetched products that pushes each brand not yet
   * in the `Set`: every brand once, in the order of first occurrence.
   */
  method UniqueBrandNames(products: seq<AdminProduct>) returns (names: seq<string>)
    ensures names == Seqs.Dedup(Seqs.Map(products, Brand))
    ensures forall b :: b in names <==> exists p :: p in products && p.brand == b
    ensures Seqs.NoDuplicates(names)
  {
    names := [];
    var seen: set<string> := {};
    var i := 0;
    while i < |products|
      invariant 0 <= i <= |products|
      invariant names == Seqs.Dedup(Seqs.Map(products[..i], Brand))
      invariant forall b :: b in seen <==> b in names
    {
      var b := products[i].brand;
      BrandNamesStep(products, i);
      if b !in seen {
        assert Seqs.AppendIfAbsent(names, b) == names + [b];
        seen := seen + {b};
        names := names + [b];
      } else {
        assert Seqs.AppendIfAbsent(names, b) == names;
      }
      i := i + 1;
    }
    assert products[..i] == products;
    BrandNamesMembers(products);
  }

  /** The collected names are the brands of the products. */
  lemma BrandNamesMembers(products: seq<AdminProduct>)
    ensures forall b :: b in Seqs.Dedup(Seqs.Map(products, Brand)) <==> exists p :: p in products && p.brand == b
  {
    Seqs.MapMembers(products, Brand);
  }

  // ---- generateSlug ----

  predicate IsWordOrSpace(c: char) { IsWordChar(c) || c == ' ' }

  predicate IsSpace(c: char) { c == ' ' }

  /** The characters of this page's slugs: `[a-z0-9_-]`. */
  predicate IsSlugChar(c: char) { IsLowerLetter(c) || IsDigit(c) || c == '_' || c == '-' }

  /** Neither a space nor a hyphen: what the space rewrite leaves in place. */
  predicate IsKept(c: char) { c != ' ' && c != '-' }

  /** The word characters of the lower-cased name, and its spaces. */
  function SlugSource(name: string): (kept: string)
    ensures forall i :: 0 <= i < |kept| ==> IsWordOrSpace(kept[i]) && !IsUpper(kept[i])
    ensures '-' !in kept
  {
    var l := Lower(name);
    assert forall c :: c in l ==> !IsUpper(c);
    Seqs.Filter(l, IsWordOrSpace)
  }

  /** Each run of spaces of `SlugSource(name)` as one hyphen; nothing in it is whitespace. */
  function SpacesToHyphens(name: string): (d: string)
    ensures forall i :: 0 <= i < |d| ==> IsSlugChar(d[i])
    ensures Dashes.NoDoubleHyphen(d)
    ensures Trim(d) == d
  {
    var kept := SlugSource(name);
    var d := Dashes.Dashed(kept, IsSpace);
    Dashes.DashedNoDoubleHyphen(kept, IsSpace);
    Dashes.DashedAlphabet(kept, IsSpace);
    assert forall i :: 0 <= i < |d| ==> d[i] in d;
    assert forall i :: 0 <= i < |d| ==> IsSlugChar(d[i]);
    TrimNoWhitespace(d);
    d
  }

  /**
   * `generateSlug`: lower-case, drop everything but word characters and
   * spaces, and turn each run of spaces into one hyphen; the final `trim`
   * finds nothing to remove.
   */
  function GenerateSlug(name: string): (r: string)
    ensures forall i :: 0 <= i < |r| ==> IsSlugChar(r[i])
    ensures Dashes.NoDoubleHyphen(r)
  {
    Trim(SpacesToHyphens(name))
  }

  /** The word characters of the lower-cased name all survive, in order; only hyphens are added. */
  lemma GenerateSlugKeepsWordChars(name: string)
    ensures Seqs.Filter(GenerateSlug(name), IsKept) == Seqs.Filter(Lower(name), IsWordChar)
  {
    Dashes.DashedKeeps(SlugSource(name), IsSpace, IsKept);
    Seqs.FilterCompose(Lower(name), IsWordOrSpace, IsKept, IsWordChar);
  }

  /** A non-empty run of lower-case letters and digits. */
  predicate IsWord(w: string) {
    w != [] && forall i :: 0 <= i < |w| ==> IsLowerAlnum(w[i])
  }

  lemma SpacedWordsSource(a: string, b: string)
    requires IsWord(a) && IsWord(b)
    ensures SlugSource(a + " " + b) == a + " " + b
  {
    var s := a + " " + b;
    assert forall i :: 0 <= i < |s| ==> s[i] == ' ' || IsLowerAlnum(s[i]) by {
      forall i | 0 <= i < |s| ensures s[i] == ' ' || IsLowerAlnum(s[i]) {
        if i > |a| { assert s[i] == b[i - |a| - 1]; }
        else if i < |a| { assert s[i] == a[i]; }
      }
    }
    LowerOfLowered(s);
    Seqs.FilterAll(s, IsWordOrSpace);
  }

  lemma WordHasNoSpace(w: string)
    requires IsWord(w)
    ensures forall i :: 0 <= i < |w| ==> !IsSpace(w[i])
  {
  }

  lemma SpacedWordsDashed(a: string, b: string)
    requires IsWord(a) && IsWord(b)
    ensures Dashes.Dashed(a + " " + b, IsSpace) == a + "-" + b
  {
    var t := " " + b;
    WordHasNoSpace(a);
    WordHasNoSpace(b);
    Dashes.DashedOfFree(b, IsSpace);
    calc {
      Dashes.Dashed(a + " " + b, IsSpace);
      { assert a + " " + b == a + t; }
      Dashes.Dashed(a + t, IsSpace);
      { Dashes.DashedFreePrefix(a, t, IsSpace); }
      a + Dashes.Dashed(t, IsSpace);
      { assert t == [' '] + b; Dashes.DashedSepHead(' ', b, IsSpace); }
      a + ("-" + b);
      a + "-" + b;
    }
  }

  /** Two words with a space between them become the words joined by a hyphen. */
  lemma SpacedWordsSlug(a: string, b: string)
    requires IsWord(a) && IsWord(b)
    ensures GenerateSlug(a + " " + b) == a + "-" + b
  {
    SpacedWordsSource(a, b);
    SpacedWordsDashed(a, b);
    assert SpacesToHyphens(a + " " + b) == a + "-" + b;
  }

  /** A hyphen between two words is dropped, so the words run together. */
  lemma HyphenatedWordsSlug(a: string, b: string)
    requires IsWord(a) && IsWord(b)
    ensures GenerateSlug(a + "-" + b) == a + b
  {
    var s := a + "-" + b;
    assert forall i :: 0 <= i < |s| ==> !IsUpper(s[i]) by {
      forall i | 0 <= i < |s| ensures !IsUpper(s[i]) {
        if i > |a| { assert s[i] == b[i - |a| - 1]; }
        else if i < |a| { assert s[i] == a[i]; }
      }
    }
    LowerOfLowered(s);
    Seqs.FilterConcat(a + "-", b, IsWordOrSpace);
    Seqs.FilterConcat(a, "-", IsWordOrSpace);
    Seqs.FilterAll(a, IsWordOrSpace);
    Seqs.FilterAll(b, IsWordOrSpace);
    assert Seqs.Filter("-", IsWordOrSpace) == [];
    assert Seqs.Filter(a + "-", IsWordOrSpace) == a;
    assert Seqs.Filter(s, IsWordOrSpace) == a + b;
    assert Lower(s) == s;
    var ab := a + b;
    assert forall i :: 0 <= i < |ab| ==> !IsSpace(ab[i]) by {
      forall i | 0 <= i < |ab| ensures !IsSpace(ab[i]) {
        if i >= |a| { assert ab[i] == b[i - |a|]; }
        else { assert ab[i] == a[i]; }
      }
    }
    assert SlugSource(s) == ab;
    Dashes.DashedOfFree(ab, IsSpace);
    assert SpacesToHyphens(s) == ab;
  }

  /** Generating a slug from a slug can change it: the hyphen a space became is dropped the second time. */
  lemma GenerateSlugNotIdempotent(a: string, b: string)
    requires IsWord(a) && IsWord(b)
    ensures GenerateSlug(GenerateSlug(a + " " + b)) != GenerateSlug(a + " " + b)
  {
    SpacedWordsSlug(a, b);
    HyphenatedWordsSlug(a, b);
    assert |a + b| < |a + "-" + b|;
  }

  // ---- the product form ----

  datatype AdminForm = AdminForm(
    name: string,
    slug: string,
    description: string,
    price: string,
    originalPrice: string,
    brand: string,
    categoryId: string,
    imageUrl: string,
    rating: string,
    inStock: bool,
    featured: bool,
    specifications: string)

  /** The initial form and the one `resetForm` restores; the rating starts empty here. */
  const EmptyForm := AdminForm("", "", "", "", "", "", "", "", "", true, false, "")

  /** The form `handleEdit` fills in. */
  function EditForm(p: AdminProduct): (f: AdminForm)
    ensures f.description == p.description.GetOr("") && f.originalPrice == p.originalPrice.GetOr("")
    ensures f.rating == p.rating.GetOr("") && f.specifications == p.specifications.GetOr("")
    ensures f.categoryId == CategoryKey(p.categoryId).GetOr("")
    ensures (f.name, f.slug, f.price, f.brand, f.imageUrl, f.inStock, f.featured) ==
      (p.name, p.slug, p.price, p.brand, p.imageUrl, p.inStock, p.featured)
  {
    AdminForm(
      p.name, p.slug, p.description.GetOr(""), p.price, p.originalPrice.GetOr(""), p.brand,
      CategoryKey(p.categoryId).GetOr(""), p.imageUrl, p.rating.GetOr(""), p.inStock, p.featured,
      p.specifications.GetOr(""))
  }

  /** The text inputs, and the brand, category and image controls that set their key the same way. */
  datatype TextField =
    | NameField | SlugField | DescriptionField | PriceField | OriginalPriceField
    | BrandField | CategoryIdField | ImageUrlField | RatingField | SpecificationsField

  datatype FlagField = InStockField | FeaturedField

  /** `{ ...prev, [name]: value }` */
  function SetText(f: AdminForm, field: TextField, value: string): AdminForm {
    match field
    case NameField => f.(name := value)
    case SlugField => f.(slug := value)
    case DescriptionField => f.(description := value)
    case PriceField => f.(price := value)
    case OriginalPriceField => f.(originalPrice := value)
    case BrandField => f.(brand := value)
    case CategoryIdField => f.(categoryId := value)
    case ImageUrlField => f.(imageUrl := value)
    case RatingField => f.(rating := value)
    case SpecificationsField => f.(specifications := value)
  }

  /** Only the slug input itself writes the slug. */
  lemma SetTextKeepsSlug(f: AdminForm, field: TextField, value: string)
    requires field != SlugField
    ensures SetText(f, field, value).slug == f.slug
  {
  }

  /** The request `handleSubmit` sends: a PUT of the edited product or a POST of a new one. */
  datatype SaveRequest = SaveRequest(httpMethod: string, url: string, body: AdminForm)

  /** `handleSubmit`: without an image nothing is sent. */
  function SubmitRequest(editing: Option<AdminProduct>, form: AdminForm): (r: Option<SaveRequest>)
    ensures r.None? <==> form.imageUrl == ""
    ensures r.Some? ==> r.value.body == form
    ensures r.Some? && editing.Some? ==>
      r.value.httpMethod == "PUT" && r.value.url == "/api/admin/products/" + editing.value.id
    ensures r.Some? && editing.None? ==> r.value.httpMethod == "POST" && r.value.url == "/api/admin/products"
  {
    if form.imageUrl == "" then None
    else match editing
      case Some(p) => Some(SaveRequest("PUT", "/api/admin/products/" + p.id, form))
      case None => Some(SaveRequest("POST", "/api/admin/products", form))
  }

  predicate HasId(id: string, p: AdminProduct) { p.id == id }

  datatype DeleteRequests = DeleteRequests(deleteProduct: bool, deleteImage: Option<string>)

  /**
   * `handleDelete(id)`: `confirmed` is the answer to `confirm`, `deleted`
   * whether the product's DELETE succeeded. The image of the product found
   * by id is deleted only when it is a Cloudinary URL.
   */
  function DeleteEffects(products: seq<AdminProduct>, id: string, confirmed: bool, deleted: bool): (r: DeleteRequests)
    ensures r.deleteProduct <==> confirmed
    ensures r.deleteImage.Some? ==> confirmed && deleted
    ensures r.deleteImage.Some? ==>
      r.deleteImage.value != "" && ImageUtils.IsCloudinaryUrl(r.deleteImage.value) &&
      exists i :: 0 <= i < |products| && products[i].id == id && products[i].imageUrl == r.deleteImage.value
    ensures confirmed && deleted && (exists p :: p in products && p.id == id) ==>
      var first := products[Seqs.FindIndex(products, p => HasId(id, p))];
      (r.deleteImage.Some? <==> first.imageUrl != "" && ImageUtils.IsCloudinaryUrl(first.imageUrl))
  {
    if !confirmed then DeleteRequests(false, None)
    else
      var product := Seqs.Find(products, p => HasId(id, p));
      var image :=
        if deleted && product.Some? && product.value.imageUrl != "" && ImageUtils.IsCloudinaryUrl(product.value.imageUrl)
        then Some(product.value.imageUrl) else None;
      DeleteRequests(true, image)
  }

  /** The page's state: the fetched products, the filtered table, the brand list and the form. */
  class ProductsPage {
    var products: seq<AdminProduct>
    var filteredProducts: seq<AdminProduct>
    var brandNames: seq<string>
    var filters: AdminFilters
    var isDialogOpen: bool
    var editingProduct: Option<AdminProduct>
    var formData: AdminForm

    /** The table shows only fetched products, and the brand list is the products' brands. */
    predicate Valid()
      reads this
    {
      && Seqs.IsSubsequence(filteredProducts, products)
      && brandNames == Seqs.Dedup(Seqs.Map(products, Brand))
    }

    constructor ()
      ensures Valid()
      ensures products == [] && filteredProducts == [] && brandNames == [] && filters == NoFilters
      ensures !isDialogOpen && editingProduct.None? && formData == EmptyForm
    {
      products := [];
      filteredProducts := [];
      brandNames := [];
      filters := NoFilters;
      isDialogOpen := false;
      editingProduct := None;
      formData := EmptyForm;
    }

    /** A successful `fetchProducts`. */
    method ProductsLoaded(data: seq<AdminProduct>)
      modifies this`products, this`filteredProducts, this`brandNames
      ensures Valid()
      ensures products == data && filteredProducts == data
    {
      products := data;
      filteredProducts := data;
      Seqs.SubsequenceRefl(data);
      brandNames := UniqueBrandNames(data);
    }

    /** The filter panel's `onFiltersChange`. */
    method SetFilters(f: AdminFilters)
      modifies this`filters
      ensures filters == f
    {
      filters := f;
    }

    /** The effect on `[products, filters]`. */
    method FilterEffect()
      requires Valid()
      modifies this`filteredProducts
      ensures Valid()
      ensures filteredProducts == Seqs.Filter(products, PassesTest(filters))
    {
      filteredProducts := ApplyFilters(products, filters);
    }

    method ResetForm()
      modifies this`formData
      ensures formData == EmptyForm
    {
      formData := EmptyForm;
    }

    /** The "Add Product" button. */
    method AddProductClicked()
      modifies this`formData, this`editingProduct, this`isDialogOpen
      ensures formData == EmptyForm && editingProduct.None? && isDialogOpen
    {
      ResetForm();
      editingProduct := None;
      isDialogOpen := true;
    }

    /** The dialog's "Cancel" button. */
    method CancelClicked()
      modifies this`formData, this`editingProduct, this`isDialogOpen
      ensures formData == EmptyForm && editingProduct.None? && !isDialogOpen
    {
      isDialogOpen := false;
      editingProduct := None;
      ResetForm();
    }

    /** `handleEdit(product)` */
    method HandleEdit(product: AdminProduct)
      modifies this`formData, this`editingProduct, this`isDialogOpen
      ensures editingProduct == Some(product) && formData == EditForm(product) && isDialogOpen
    {
      editingProduct := Some(product);
      formData := EditForm(product);
      isDialogOpen := true;
    }

    /** `handleChange` for a text input: the slug follows the name only while creating. */
    method HandleTextChange(field: TextField, value: string)
      modifies this`formData
      ensures field == NameField && editingProduct.None? ==>
        formData == old(formData).(name := value, slug := GenerateSlug(value))
      ensures !(field == NameField && editingProduct.None?) ==> formData == SetText(old(formData), field, value)
      ensures formData.slug != old(formData).slug ==> field == SlugField || (field == NameField && editingProduct.None?)
    {
      formData := SetText(formData, field, value);
      if field == NameField && editingProduct.None? {
        formData := formData.(slug := GenerateSlug(value));
      }
    }

    /** `handleChange` for a checkbox. */
    method HandleCheckboxChange(field: FlagField, checked: bool)
      modifies this`formData
      ensures field == InStockField ==> formData == old(formData).(inStock := checked)
      ensures field == FeaturedField ==> formData == old(formData).(featured := checked)
    {
      match field
      case InStockField => formData := formData.(inStock := checked);
      case FeaturedField => formData := formData.(featured := checked);
    }

    /** `handleSubmit`: the request, or `None` when the alert about the missing image is shown. */
    method HandleSubmit() returns (request: Option<SaveRequest>)
      ensures request == SubmitRequest(editingProduct, formData)
    {
      request := SubmitRequest(editingProduct, formData);
    }

    /** A successful save: the form is reset and the dialog closes. */
    method SaveSucceeded()
      modifies this`formData, this`editingProduct, this`isDialogOpen
      ensures formData == EmptyForm && editingProduct.None? && !isDialogOpen
    {
      ResetForm();
      isDialogOpen := false;
      editingProduct := None;
    }
  }
}
