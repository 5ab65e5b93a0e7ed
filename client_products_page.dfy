/**
 * The storefront product listing of the Vite client. The products come from
 * the server already searched; the page filters them by price range, brand
 * and category, sorts them and shows the first twelve (the page number never
 * changes). Three of its expressions do not do what their shape says; for
 * each the model keeps the expression as written next to the corrected one
 * that the listing uses.
 */
module ClientProductsPage {
  import opened Wrappers
  import opened Numbers
  import opened Storage
  import Seqs
  import Sorting
  import Paging
  import NextProductsPage
  import opened ClientProductFilters

  function PriceValue(p: Product): Option<real> { ParseFloat(p.price) }

  // ---- the price switch ----

  /**
   * The price `switch` as written: the "100-500" and "over-500" cases test
   * their bounds but have no `return false`, so they fall through to `break`.
   */
  function KeptByPriceRangeAsWritten(range: string, price: Option<real>): (r: bool)
    ensures range == "100-500" || range == "over-500" ==> r
    ensures range == "under-25" && price.Some? ==> (r <==> price.value < 2500.0)
    ensures range == "25-100" && price.Some? ==> (r <==> 2500.0 <= price.value <= 10000.0)
  {
    match price
    case None => true
    case Some(x) =>
      if range == "under-25" then !(x >= 2500.0)
      else if range == "25-100" then !(x < 2500.0 || x > 10000.0)
      else true
  }

  /** A price of 5 is shown under "over-500", which the bound written there excludes. */
  lemma FallThroughKeepsCheapProduct()
    ensures KeptByPriceRangeAsWritten("over-500", Some(5.0))
    ensures !KeptByPriceRange("over-500", Some(5.0))
  {
  }

  /** The switch with the missing `return false` in place; the storefront of the Next.js app has it. */
  function KeptByPriceRange(range: string, price: Option<real>): (r: bool)
    ensures price.None? ==> r
    ensures range == "under-25" && price.Some? ==> (r <==> price.value < 2500.0)
    ensures range == "25-100" && price.Some? ==> (r <==> 2500.0 <= price.value <= 10000.0)
    ensures range == "100-500" && price.Some? ==> (r <==> 10000.0 <= price.value <= 50000.0)
    ensures range == "over-500" && price.Some? ==> (r <==> price.value > 50000.0)
    ensures range !in NextProductsPage.PriceRanges ==> r
  {
    NextProductsPage.KeptByPriceRange(range, price)
  }

  // ---- the category filter ----

  function SlugTest(slug: string): Category -> bool { c => HasSlug(slug, c) }

  /** The JavaScript truthiness of the `category` value: an array, even an empty one, is truthy. */
  predicate CategorySet(category: Option<CategoryValue>) {
    match category
    case None => false
    case Some(SlugText(s)) => s != ""
    case Some(SlugList(_)) => true
  }

  /**
   * The category filter as written: `c.slug === filters.category`, which an
   * array (what the filter panel sends) never equals.
   */
  function KeptByCategoryAsWritten(categories: seq<Category>, category: Option<CategoryValue>, p: Product): (r: bool)
    ensures category.Some? && category.value.SlugList? ==> r
    ensures !CategorySet(category) ==> r
    ensures category.Some? && category.value.SlugText? && CategorySet(category) ==>
      (r <==> match Seqs.Find(categories, SlugTest(category.value.slug))
               case None => true
               case Some(c) => p.categoryId == c.id)
  {
    if !CategorySet(category) then true
    else match category.value
      case SlugList(_) => true
      case SlugText(s) =>
        var found := Seqs.Find(categories, SlugTest(s));
        !(found.Some? && p.categoryId != found.value.id)
  }

  /**
   * Selecting one category in the panel keeps a product of another
   * category (here `c` is the only category with its slug).
   */
  lemma SelectedCategoryIgnored(categories: seq<Category>, c: Category, p: Product)
    requires c in categories && p.categoryId != c.id
    requires forall d :: d in categories && d.slug == c.slug ==> d == c
    ensures KeptByCategoryAsWritten(categories, Some(SlugList([c.slug])), p)
    ensures !KeptByCategory(categories, Some(SlugList([c.slug])), p)
  {
  }

  /** Whether some loaded category with a slug in `slugs` is the product's category. */
  predicate InListedCategory(categories: seq<Category>, slugs: seq<string>, p: Product) {
    exists c :: c in categories && c.slug in slugs && c.id == p.categoryId
  }

  /**
   * The category filter as evidently intended: one slug keeps the products
   * of the first category with that slug, as written; a non-empty list of
   * slugs keeps the products of any listed category; an empty list keeps all.
   */
  function KeptByCategory(categories: seq<Category>, category: Option<CategoryValue>, p: Product): (r: bool)
    ensures category.Some? && category.value.SlugList? && category.value.slugs != [] ==>
      (r <==> InListedCategory(categories, category.value.slugs, p))
    ensures category.Some? && category.value.SlugList? && category.value.slugs == [] ==> r
    ensures !(category.Some? && category.value.SlugList?) ==> r == KeptByCategoryAsWritten(categories, category, p)
  {
    match category
    case Some(SlugList(slugs)) => slugs == [] || InListedCategory(categories, slugs, p)
    case _ => KeptByCategoryAsWritten(categories, category, p)
  }

  /**
   * With slugs unique among the loaded categories, the slugs the panel
   * sends for the selected ids keep exactly the products of a selected,
   * loaded category.
   */
  lemma SelectionKeepsSelectedCategories(categories: seq<Category>, ids: seq<int>, p: Product)
    requires forall c, d :: c in categories && d in categories && c.slug == d.slug ==> c == d
    requires SelectedSlugs(categories, ids) != []
    ensures KeptByCategory(categories, Some(SlugList(SelectedSlugs(categories, ids))), p)
      <==> exists c :: c in categories && c.id in ids && c.id == p.categoryId
  {
    SelectedSlugsFacts(categories, ids);
  }

  // ---- filteredProducts ----

  /** The filter callback as written. */
  predicate PassesAsWritten(categories: seq<Category>, f: ClientFilters, p: Product) {
    (Truthy(f.priceRange) ==> KeptByPriceRangeAsWritten(f.priceRange.value, PriceValue(p)))
    && (NonEmptyList(f.brands) ==> p.brand in f.brands.value)
    && KeptByCategoryAsWritten(categories, f.category, p)
  }

  /** The filter callback with both corrections. */
  predicate Passes(categories: seq<Category>, f: ClientFilters, p: Product) {
    (Truthy(f.priceRange) ==> KeptByPriceRange(f.priceRange.value, PriceValue(p)))
    && (NonEmptyList(f.brands) ==> p.brand in f.brands.value)
    && KeptByCategory(categories, f.category, p)
  }

  /** Away from the two faulty cases the corrected callback is the written one. */
  lemma CorrectionsAgreeElsewhere(categories: seq<Category>, f: ClientFilters, p: Product)
    requires !(f.category.Some? && f.category.value.SlugList?)
    requires Truthy(f.priceRange) ==> f.priceRange.value != "100-500" && f.priceRange.value != "over-500"
    ensures Passes(categories, f, p) == PassesAsWritten(categories, f, p)
  {
  }

  function PassesTest(categories: seq<Category>, f: ClientFilters): Product -> bool {
    p => Passes(categories, f, p)
  }

  /** `filteredProducts`: the products that pass, in their fetched order. */
  function FilteredProducts(products: seq<Product>, categories: seq<Category>, f: ClientFilters): (r: seq<Product>)
    ensures forall p :: p in r <==> p in products && Passes(categories, f, p)
    ensures Seqs.IsSubsequence(r, products)
  {
    Seqs.FilterMembers(products, PassesTest(categories, f));
    Seqs.FilterIsSubsequence(products, PassesTest(categories, f));
    Seqs.Filter(products, PassesTest(categories, f))
  }

  // ---- sortedProducts ----

  predicate IsFeatured(p: Product) { p.featured == Some(true) }

  /** The default comparator as written: `b.featured ? 1 : -1`, whatever `a` is. */
  function FeaturedFirstAsWritten(a: Product, b: Product): (r: real)
    ensures IsFeatured(b) ==> r == 1.0
    ensures !IsFeatured(b) ==> r == -1.0
  {
    if IsFeatured(b) then 1.0 else -1.0
  }

  /**
   * The written comparator is not consistent: it puts each of two featured
   * products after the other, and a featured product after itself, where
   * the language standard requires opposite signs and 0.
   */
  lemma FeaturedComparatorInconsistent(a: Product, b: Product)
    requires IsFeatured(a) && IsFeatured(b)
    ensures FeaturedFirstAsWritten(a, b) > 0.0 && FeaturedFirstAsWritten(b, a) > 0.0
    ensures FeaturedFirstAsWritten(a, a) != 0.0
  {
  }

  function FeaturedKey(p: Product): real { if IsFeatured(p) then 0.0 else 1.0 }

  /** The default comparator as evidently intended: featured first, a tie otherwise. */
  function FeaturedFirst(a: Product, b: Product): (r: real)
    ensures r == FeaturedKey(a) - FeaturedKey(b)
  {
    if IsFeatured(b) == IsFeatured(a) then 0.0 else if IsFeatured(b) then 1.0 else -1.0
  }

  function PriceLow(a: Product, b: Product): real { Sorting.Difference(PriceValue(a), PriceValue(b)) }

  function PriceHigh(a: Product, b: Product): real { Sorting.Difference(PriceValue(b), PriceValue(a)) }

  /** `createdAt` is always a date here. */
  function Newest(a: Product, b: Product): real { (b.createdAt - a.createdAt) as real }

  /** `parseFloat(rating || "0")` */
  function RatingValue(p: Product): Option<real> {
    ParseFloat(if Truthy(p.rating) then p.rating.value else "0")
  }

  function ByRating(a: Product, b: Product): real { Sorting.Difference(RatingValue(b), RatingValue(a)) }

  /** The comparator `sortBy` selects, with the corrected default. */
  function Comparator(sortBy: string): (Product, Product) -> real {
    if sortBy == "price-low" then PriceLow
    else if sortBy == "price-high" then PriceHigh
    else if sortBy == "newest" then Newest
    else if sortBy == "rating" then ByRating
    else FeaturedFirst
  }

  /** `sortedProducts`: a rearrangement of the filtered products. */
  function SortedProducts(sortBy: string, s: seq<Product>): (r: seq<Product>)
    ensures multiset(r) == multiset(s)
  {
    Sorting.SortPermutes(Comparator(sortBy), s);
    Sorting.Sort(Comparator(sortBy), s)
  }

  /** The default sort puts every featured product before every other one. */
  lemma FeaturedOrder(sortBy: string, s: seq<Product>)
    requires sortBy !in ["price-low", "price-high", "newest", "rating"]
    ensures var r := SortedProducts(sortBy, s);
      forall i, j :: 0 <= i < j < |r| && IsFeatured(r[j]) ==> IsFeatured(r[i])
  {
    assert Comparator(sortBy) == FeaturedFirst;
    Sorting.SortOrdersByKey(FeaturedFirst, FeaturedKey, s);
  }

  /**
   * The default sort is stable: featured products keep their filtered order,
   * followed by the others in theirs.
   */
  lemma FeaturedStable(sortBy: string, s: seq<Product>)
    requires sortBy !in ["price-low", "price-high", "newest", "rating"]
    ensures SortedProducts(sortBy, s) == Seqs.Filter(s, IsFeatured) + Seqs.Filter(s, Sorting.Not(IsFeatured))
  {
    assert Comparator(sortBy) == FeaturedFirst;
    assert forall a, b :: FeaturedFirst(a, b) == Sorting.Rank(IsFeatured, a) - Sorting.Rank(IsFeatured, b);
    Sorting.SortPartitions(FeaturedFirst, IsFeatured, s);
  }

  function PriceKey(p: Product): real { PriceValue(p).GetOr(0.0) }

  function NegatedPriceKey(p: Product): real { -PriceKey(p) }

  /** With every price a number, "price-low" is non-decreasing and "price-high" non-increasing in price. */
  lemma PriceOrders(s: seq<Product>)
    requires forall p :: p in s ==> PriceValue(p).Some?
    ensures var r := SortedProducts("price-low", s);
      forall i, j :: 0 <= i < j < |r| ==> PriceKey(r[i]) <= PriceKey(r[j])
    ensures var r := SortedProducts("price-high", s);
      forall i, j :: 0 <= i < j < |r| ==> PriceKey(r[i]) >= PriceKey(r[j])
  {
    Sorting.SortOrdersByKey(PriceLow, PriceKey, s);
    Sorting.SortOrdersByKey(PriceHigh, NegatedPriceKey, s);
  }

  function NegatedTime(p: Product): real { -(p.createdAt as real) }

  /** "newest" puts later products first. */
  lemma NewestOrder(s: seq<Product>)
    ensures var r := SortedProducts("newest", s);
      forall i, j :: 0 <= i < j < |r| ==> r[i].createdAt >= r[j].createdAt
  {
    Sorting.SortOrdersByKey(Newest, NegatedTime, s);
  }

  function RatingKey(p: Product): real { RatingValue(p).GetOr(0.0) }

  function NegatedRating(p: Product): real { -RatingKey(p) }

  /** With every rating a number, "rating" is non-increasing in rating. */
  lemma RatingOrder(s: seq<Product>)
    requires forall p :: p in s ==> RatingValue(p).Some?
    ensures var r := SortedProducts("rating", s);
      forall i, j :: 0 <= i < j < |r| ==> RatingKey(r[i]) >= RatingKey(r[j])
  {
    RatingComparator();
    forall a, b | a in s && b in s ensures ByRating(a, b) == NegatedRating(a) - NegatedRating(b) {
      RatingDifference(a, b);
    }
    Sorting.SortOrdersByKey(ByRating, NegatedRating, s);
  }

  lemma RatingComparator()
    ensures Comparator("rating") == ByRating
  {
  }

  lemma RatingDifference(a: Product, b: Product)
    requires RatingValue(a).Some? && RatingValue(b).Some?
    ensures ByRating(a, b) == NegatedRating(a) - NegatedRating(b)
  {
  }

  // ---- the listing ----

  /** The filters the URL effect sets: `search` and `category`, each only when non-empty. */
  function UrlFilters(search: Option<string>, category: Option<string>): (f: ClientFilters)
    ensures f.categories.None? && f.priceRange.None? && f.brands.None?
    ensures Truthy(search) ==> f.search == search
    ensures !Truthy(search) ==> f.search.None?
    ensures Truthy(category) ==> f.category == Some(SlugText(category.value))
    ensures !Truthy(category) ==> f.category.None?
  {
    NoFilters.(search := if Truthy(search) then search else None,
               category := if Truthy(category) then Some(SlugText(category.value)) else None)
  }

  /** `paginatedProducts` with `currentPage` fixed at 1: the first twelve sorted products. */
  function Shown(products: seq<Product>, categories: seq<Category>, f: ClientFilters, sortBy: string): (r: seq<Product>)
    ensures var sorted := SortedProducts(sortBy, FilteredProducts(products, categories, f));
      r == sorted[..Paging.Min(Paging.ProductsPerPage, |sorted|)]
    ensures |r| <= Paging.ProductsPerPage
    ensures forall p :: p in r ==> p in products && Passes(categories, f, p)
  {
    var sorted := SortedProducts(sortBy, FilteredProducts(products, categories, f));
    Paging.FirstPage(sorted);
    assert forall p :: p in sorted[..Paging.Min(Paging.ProductsPerPage, |sorted|)] ==> p in multiset(sorted);
    Paging.Page(sorted, 1)
  }
  /** `totalPages`: enough pages of twelve for the filtered products, and no more. */
  function PageCount(products: seq<Product>, categories: seq<Category>, f: ClientFilters, sortBy: string): (t: nat)
    ensures var n := |FilteredProducts(products, categories, f)|;
      t * Paging.ProductsPerPage >= n && (t == 0 || (t - 1) * Paging.ProductsPerPage < n)
    ensures Shown(products, categories, f, sortBy) != [] <==> t >= 1
  {
    var filtered := FilteredProducts(products, categories, f);
    var sorted := SortedProducts(sortBy, filtered);
    assert |sorted| == |multiset(sorted)| == |multiset(filtered)| == |filtered|;
    Paging.PageNonEmptyIff(sorted, 1);
    Paging.FirstPage(sorted);
    Paging.TotalPages(|sorted|)
  }
}
