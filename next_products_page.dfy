/**
 * The storefront product listing of the Next.js app: the filter callback,
 * the comparators of the sort menu and the page of twelve shown. The filters
 * are those of the admin filter panel the page embeds; the fetched products
 * and the URL's query values are inputs.
 */
module NextProductsPage {
  import opened Wrappers
  import opened Text
  import opened Numbers
  import Seqs
  import Sorting
  import Paging
  import opened AdminProductFilters

  /**
   * A product after the page's transformation: `id` is the database id and
   * `categoryId` the category's id as a string. `createdAt` is the time
   * `new Date(createdAt ?? "")` reads, `None` when that is an invalid date.
   */
  datatype ShopProduct = ShopProduct(
    id: string,
    name: string,
    slug: string,
    description: Option<string>,
    price: string,
    originalPrice: Option<string>,
    brand: string,
    categoryId: string,
    imageUrl: string,
    rating: Option<string>,
    inStock: bool,
    featured: bool,
    createdAt: Option<int>)

  // ---- filteredProducts ----

  /** The search term in the name, the brand or the description (missing is ""), ignoring case. */
  predicate MatchesSearch(term: string, p: ShopProduct) {
    ContainsIgnoringCase(p.name, term) || ContainsIgnoringCase(p.brand, term)
    || ContainsIgnoringCase(p.description.GetOr(""), term)
  }

  /** `parseFloat(product.price)`, `None` for `NaN`. */
  function PriceValue(p: ShopProduct): Option<real> { ParseFloat(p.price) }

  /** Whether the price `switch` lets the product through; a `NaN` price fails no comparison. */
  predicate KeptByPriceRange(range: string, price: Option<real>) {
    match price
    case None => true
    case Some(x) =>
      if range == "under-25" then !(x >= 2500.0)
      else if range == "25-100" then !(x < 2500.0 || x > 10000.0)
      else if range == "100-500" then !(x < 10000.0 || x > 50000.0)
      else if range == "over-500" then !(x <= 50000.0)
      else true
  }

  /** The keys of the price menu. */
  const PriceRanges: seq<string> := ["under-25", "25-100", "100-500", "over-500"]

  /**
   * The buckets cover every parsed price, and both 25-100 and 100-500 hold
   * 10000; a price that does not parse passes every range, and an unknown
   * key keeps every product.
   */
  lemma PriceRangesFacts(x: real, range: string)
    ensures exists r :: r in PriceRanges && KeptByPriceRange(r, Some(x))
    ensures KeptByPriceRange("25-100", Some(10000.0)) && KeptByPriceRange("100-500", Some(10000.0))
    ensures KeptByPriceRange(range, None)
    ensures range !in PriceRanges ==> KeptByPriceRange(range, Some(x))
  {
    if x < 2500.0 {
      assert KeptByPriceRange(PriceRanges[0], Some(x));
    } else if x <= 10000.0 {
      assert KeptByPriceRange(PriceRanges[1], Some(x));
    } else if x <= 50000.0 {
      assert KeptByPriceRange(PriceRanges[2], Some(x));
    } else {
      assert KeptByPriceRange(PriceRanges[3], Some(x));
    }
  }

  /** A status filter acts only for its two exact values. */
  predicate KeptByStatus(value: string, yes: string, no: string, flag: bool) {
    !(value == yes && !flag) && !(value == no && flag)
  }

  /** The filter callback: every criterion whose key is set must hold. */
  predicate Passes(f: AdminFilters, p: ShopProduct) {
    (Truthy(f.search) ==> MatchesSearch(Lower(f.search.value), p))
    && (NonEmptyList(f.categories) ==> p.categoryId in f.categories.value)
    && (NonEmptyList(f.brands) ==> p.brand in f.brands.value)
    && (Truthy(f.priceRange) ==> KeptByPriceRange(f.priceRange.value, PriceValue(p)))
    && (Truthy(f.stockStatus) ==> KeptByStatus(f.stockStatus.value, "in-stock", "out-of-stock", p.inStock))
    && (Truthy(f.featured) ==> KeptByStatus(f.featured.value, "featured", "not-featured", p.featured))
  }

  function PassesTest(f: AdminFilters): ShopProduct -> bool { p => Passes(f, p) }

  /** No key switches a criterion on. */
  predicate NoCriterion(f: AdminFilters) {
    !Truthy(f.search) && !NonEmptyList(f.categories) && !NonEmptyList(f.brands)
    && !Truthy(f.priceRange) && !Truthy(f.stockStatus) && !Truthy(f.featured)
  }

  /** `filteredProducts` */
  function FilteredProducts(products: seq<ShopProduct>, f: AdminFilters): (r: seq<ShopProduct>)
    ensures forall p :: p in r <==> p in products && Passes(f, p)
    ensures Seqs.IsSubsequence(r, products)
  {
    Seqs.FilterMembers(products, PassesTest(f));
    Seqs.FilterIsSubsequence(products, PassesTest(f));
    Seqs.Filter(products, PassesTest(f))
  }

  /** Without criteria nothing is removed; the `category` key (set from the URL) is never read. */
  lemma FilteredProductsFacts(products: seq<ShopProduct>, f: AdminFilters, category: Option<string>)
    ensures NoCriterion(f) ==> FilteredProducts(products, f) == products
    ensures FilteredProducts(products, f.(category := category)) == FilteredProducts(products, f)
  {
    if NoCriterion(f) {
      Seqs.FilterAll(products, PassesTest(f));
    }
    Seqs.FilterExt(products, PassesTest(f.(category := category)), PassesTest(f));
  }

  // ---- sortedProducts ----

  function PriceLow(a: ShopProduct, b: ShopProduct): real { Sorting.Difference(PriceValue(a), PriceValue(b)) }

  function PriceHigh(a: ShopProduct, b: ShopProduct): real { Sorting.Difference(PriceValue(b), PriceValue(a)) }

  function Time(p: ShopProduct): Option<real> {
    if p.createdAt.Some? then Some(p.createdAt.value as real) else None
  }

  function Newest(a: ShopProduct, b: ShopProduct): real { Sorting.Difference(Time(b), Time(a)) }

  /** `parseFloat(rating || "0")` */
  function RatingValue(p: ShopProduct): Option<real> {
    ParseFloat(if Truthy(p.rating) then p.rating.value else "0")
  }

  function ByRating(a: ShopProduct, b: ShopProduct): real { Sorting.Difference(RatingValue(b), RatingValue(a)) }

  /** The default comparator: featured products first, otherwise a tie. */
  function FeaturedFirst(a: ShopProduct, b: ShopProduct): real {
    if b.featured == a.featured then 0.0 else if b.featured then 1.0 else -1.0
  }

  /** The comparator `sortBy` selects. */
  function Comparator(sortBy: string): (ShopProduct, ShopProduct) -> real {
    if sortBy == "price-low" then PriceLow
    else if sortBy == "price-high" then PriceHigh
    else if sortBy == "newest" then Newest
    else if sortBy == "rating" then ByRating
    else FeaturedFirst
  }

  /** `sortedProducts`: a rearrangement of the filtered products. */
  function SortedProducts(sortBy: string, s: seq<ShopProduct>): (r: seq<ShopProduct>)
    ensures multiset(r) == multiset(s)
  {
    Sorting.SortPermutes(Comparator(sortBy), s);
    Sorting.Sort(Comparator(sortBy), s)
  }

  function PriceKey(p: ShopProduct): real { PriceValue(p).GetOr(0.0) }

  function NegatedPriceKey(p: ShopProduct): real { -PriceKey(p) }

  /** With every price a number, "price-low" is non-decreasing and "price-high" non-increasing in price. */
  lemma PriceOrders(s: seq<ShopProduct>)
    requires forall p :: p in s ==> PriceValue(p).Some?
    ensures var r := SortedProducts("price-low", s);
      forall i, j :: 0 <= i < j < |r| ==> PriceKey(r[i]) <= PriceKey(r[j])
    ensures var r := SortedProducts("price-high", s);
      forall i, j :: 0 <= i < j < |r| ==> PriceKey(r[i]) >= PriceKey(r[j])
  {
    Sorting.SortOrdersByKey(PriceLow, PriceKey, s);
    Sorting.SortOrdersByKey(PriceHigh, NegatedPriceKey, s);
  }

  function TimeKey(p: ShopProduct): real { Time(p).GetOr(0.0) }

  function NegatedTime(p: ShopProduct): real { -TimeKey(p) }

  /** With every date valid, "newest" puts later products first. */
  lemma NewestOrder(s: seq<ShopProduct>)
    requires forall p :: p in s ==> p.createdAt.Some?
    ensures var r := SortedProducts("newest", s);
      forall i, j :: 0 <= i < j < |r| ==> TimeKey(r[i]) >= TimeKey(r[j])
  {
    Sorting.SortOrdersByKey(Newest, NegatedTime, s);
  }

  function RatingKey(p: ShopProduct): real { RatingValue(p).GetOr(0.0) }

  function NegatedRating(p: ShopProduct): real { -RatingKey(p) }

  /** A product without a rating is rated 0. */
  lemma MissingRatingIsZero(p: ShopProduct)
    requires !Truthy(p.rating)
    ensures RatingValue(p) == Some(0.0)
  {
    ParseFloatRoundTrip(0);
    assert DecimalString(0) == "0";
  }

  /** With every rating a number, "rating" is non-increasing in rating, a missing one counting as 0. */
  lemma RatingOrder(s: seq<ShopProduct>)
    requires forall p :: p in s ==> RatingValue(p).Some?
    ensures var r := SortedProducts("rating", s);
      forall i, j :: 0 <= i < j < |r| ==> RatingKey(r[i]) >= RatingKey(r[j])
  {
    RatingComparator();
    forall a, b | a in s && b in s ensures ByRating(a, b) == NegatedRating(a) - NegatedRating(b) {
      RatingDifference(a, b);
    }
    Sorting.SortOrdersByKey(ByRating, NegatedRating, s);
  }

  lemma RatingComparator()
    ensures Comparator("rating") == ByRating
  {
  }

  lemma RatingDifference(a: ShopProduct, b: ShopProduct)
    requires RatingValue(a).Some? && RatingValue(b).Some?
    ensures ByRating(a, b) == NegatedRating(a) - NegatedRating(b)
  {
  }

  function FeaturedKey(p: ShopProduct): real { if p.featured then 0.0 else 1.0 }

  /** The default sort puts every featured product before every other one. */
  lemma FeaturedOrder(sortBy: string, s: seq<ShopProduct>)
    requires sortBy !in ["price-low", "price-high", "newest", "rating"]
    ensures var r := SortedProducts(sortBy, s);
      forall i, j :: 0 <= i < j < |r| && r[j].featured ==> r[i].featured
  {
    assert Comparator(sortBy) == FeaturedFirst;
    Sorting.SortOrdersByKey(FeaturedFirst, FeaturedKey, s);
  }

  predicate IsFeatured(p: ShopProduct) { p.featured }

  /**
   * The default sort is stable: featured products keep their filtered order,
   * followed by the others in theirs.
   */
  lemma FeaturedStable(sortBy: string, s: seq<ShopProduct>)
    requires sortBy !in ["price-low", "price-high", "newest", "rating"]
    ensures SortedProducts(sortBy, s) == Seqs.Filter(s, IsFeatured) + Seqs.Filter(s, Sorting.Not(IsFeatured))
  {
    assert Comparator(sortBy) == FeaturedFirst;
    assert forall a, b :: FeaturedFirst(a, b) == Sorting.Rank(IsFeatured, a) - Sorting.Rank(IsFeatured, b);
    Sorting.SortPartitions(FeaturedFirst, IsFeatured, s);
  }

  // ---- URL parameters ----

  /** The filters the URL effect sets: `search` and `category`, each only when non-empty. */
  function UrlFilters(search: Option<string>, category: Option<string>): (f: AdminFilters)
    ensures f.(search := None, category := None) == NoFilters
    ensures Truthy(search) ==> f.search == search
    ensures !Truthy(search) ==> f.search.None?
    ensures Truthy(category) ==> f.category == category
    ensures !Truthy(category) ==> f.category.None?
  {
    NoFilters.(search := if Truthy(search) then search else None,
               category := if Truthy(category) then category else None)
  }

  class ProductsContent {
    var products: seq<ShopProduct>
    var filters: AdminFilters
    var sortBy: string
    var currentPage: int

    predicate Valid()
      reads this
    {
      currentPage >= 1
    }

    constructor ()
      ensures Valid()
      ensures products == [] && filters == NoFilters && sortBy == "featured" && currentPage == 1
    {
      products := [];
      filters := NoFilters;
      sortBy := "featured";
      currentPage := 1;
    }

    /** `sortedProducts` of the current state. */
    function Sorted(): (r: seq<ShopProduct>)
      reads this
      ensures multiset(r) == multiset(FilteredProducts(products, filters))
      ensures forall p :: p in r <==> p in products && Passes(filters, p)
    {
      var s := SortedProducts(sortBy, FilteredProducts(products, filters));
      assert forall p :: p in s <==> p in multiset(s);
      s
    }

    /** `paginatedProducts`: at most twelve, from position `(currentPage - 1) * 12` of the sorted list. */
    function Paginated(): (r: seq<ShopProduct>)
      requires Valid()
      reads this
      ensures |r| <= Paging.ProductsPerPage
      ensures r == Sorted()[Paging.Min((currentPage - 1) * Paging.ProductsPerPage, |Sorted()|)..Paging.Min(currentPage * Paging.ProductsPerPage, |Sorted()|)]
    {
      Paging.Page(Sorted(), currentPage)
    }

    function TotalPages(): nat
      reads this
    {
      Paging.TotalPages(|Sorted()|)
    }

    /** The URL effect. */
    method ParseUrl(search: Option<string>, category: Option<string>)
      modifies this`filters
      ensures filters == UrlFilters(search, category)
    {
      filters := UrlFilters(search, category);
    }

    /** The products of a successful fetch. */
    method ProductsLoaded(data: seq<ShopProduct>)
      modifies this`products
      ensures products == data
    {
      products := data;
    }

    /** `handleFiltersChange`: new filters and back to the first page. */
    method HandleFiltersChange(newFilters: AdminFilters)
      modifies this`filters, this`currentPage
      ensures filters == newFilters && currentPage == 1 && Valid()
    {
      filters := newFilters;
      currentPage := 1;
    }

    /** The sort menu. */
    method SetSortBy(value: string)
      modifies this`sortBy
      ensures sortBy == value
    {
      sortBy := value;
    }

    /** The previous-page button, disabled on page 1. */
    method PreviousPage()
      requires Valid() && currentPage != 1
      modifies this`currentPage
      ensures currentPage == old(currentPage) - 1 && Valid()
    {
      currentPage := currentPage - 1;
    }

    /** A numbered button: one of the first five pages, or the last. */
    method GoToPage(page: int)
      requires TotalPages() > 1
      requires 1 <= page <= Paging.Min(5, TotalPages()) || page == TotalPages()
      modifies this`currentPage
      ensures currentPage == page && Valid()
    {
      currentPage := page;
    }

    /** The next-page button, disabled on the last page. */
    method NextPage()
      requires Valid() && TotalPages() > 1 && currentPage != TotalPages()
      modifies this`currentPage
      ensures currentPage == old(currentPage) + 1 && Valid()
    {
      currentPage := currentPage + 1;
    }
  }
}
