/**
 * The storefront filter panel of the Vite client. Categories are selected by
 * numeric id; on "apply" the ids become the slugs of the loaded categories,
 * sent under `category`. The loaded categories are a parameter (the query
 * result, `[]` while loading).
 */
module ClientProductFilters {
  import opened Wrappers
  import opened Storage
  import Seqs
  import Selections

  /** The `category` key holds one slug from the URL or the slugs the panel sends. */
  datatype CategoryValue = SlugText(slug: string) | SlugList(slugs: seq<string>)

  datatype ClientFilters = ClientFilters(
    search: Option<string>,
    category: Option<CategoryValue>,
    categories: Option<seq<int>>,
    priceRange: Option<string>,
    brands: Option<seq<string>>)

  /** `{}` */
  const NoFilters := ClientFilters(None, None, None, None, None)

  predicate HasSlug(slug: string, c: Category) { c.slug == slug }

  /**
   * The category the preselect effect picks for `currentFilters.category`:
   * only a non-empty string can equal a slug, and the first loaded category
   * with that slug wins.
   */
  function PreselectedCategory(current: Option<CategoryValue>, categories: seq<Category>): (r: Option<Category>)
    ensures r.Some? ==> current == Some(SlugText(r.value.slug)) && r.value in categories
    ensures r.Some? ==> forall j :: 0 <= j < |categories| && categories[j].slug == r.value.slug ==>
      exists k :: 0 <= k <= j && categories[k] == r.value
    ensures (exists c :: c in categories && current == Some(SlugText(c.slug)) && c.slug != "") ==> r.Some?
  {
    match current
    case Some(SlugText(s)) =>
      if s != "" && |categories| > 0 then
        var i := Seqs.FindIndex(categories, c => HasSlug(s, c));
        if i >= 0 then Some(categories[i]) else None
      else None
    case _ => None
  }

  predicate IsSelected(ids: seq<int>, c: Category) { c.id in ids }

  function Slug(c: Category): string { c.slug }

  /** `categories.filter(c => ids.includes(c.id)).map(c => c.slug)` */
  function SelectedSlugs(categories: seq<Category>, ids: seq<int>): seq<string> {
    Seqs.Map(Seqs.Filter(categories, c => IsSelected(ids, c)), Slug)
  }

  /** The slugs sent are those of the selected loaded categories, in the loaded order. */
  lemma SelectedSlugsFacts(categories: seq<Category>, ids: seq<int>)
    ensures forall s :: s in SelectedSlugs(categories, ids) <==> exists c :: c in categories && c.id in ids && c.slug == s
    ensures Seqs.IsSubsequence(SelectedSlugs(categories, ids), Seqs.Map(categories, Slug))
    ensures SelectedSlugs(categories, ids) == [] <==> forall c :: c in categories ==> c.id !in ids
  {
    var f := c => IsSelected(ids, c);
    var picked := Seqs.Filter(categories, f);
    Seqs.FilterMembers(categories, f);
    Seqs.MapMembers(picked, Slug);
    Seqs.FilterIsSubsequence(categories, f);
    Seqs.MapSubsequence(picked, categories, Slug);
    if picked != [] {
      assert picked[0] in picked;
    }
  }

  /** What `applyFilters` sends to the parent. */
  function SentFilters(local: ClientFilters, categories: seq<Category>): (r: ClientFilters)
    ensures r.(category := local.category) == local
    ensures local.categories.None? || local.categories.value == [] || categories == [] ==>
      r.category == Some(SlugList([]))
    ensures r.category != local.category ==> r.category.Some? && r.category.value.SlugList?
  {
    match local.categories
    case Some(ids) =>
      if |ids| > 0 && |categories| > 0 then
        var slugs := SelectedSlugs(categories, ids);
        if |slugs| > 0 then local.(category := Some(SlugList(slugs))) else local
      else local.(category := Some(SlugList([])))
    case None => local.(category := Some(SlugList([])))
  }

  /** With ids selected and categories loaded, `category` lists exactly the selected slugs, or is left alone when none is loaded. */
  lemma SentCategoryFacts(local: ClientFilters, categories: seq<Category>)
    requires local.categories.Some? && local.categories.value != [] && categories != []
    ensures var ids := local.categories.value;
      (exists c :: c in categories && c.id in ids) ==>
        SentFilters(local, categories).category == Some(SlugList(SelectedSlugs(categories, ids)))
    ensures (forall c :: c in categories ==> c.id !in local.categories.value) ==>
      SentFilters(local, categories) == local
  {
    SelectedSlugsFacts(categories, local.categories.value);
  }

  class FilterPanel {
    var localFilters: ClientFilters

    constructor (currentFilters: ClientFilters)
      ensures localFilters == currentFilters
    {
      localFilters := currentFilters;
    }

    /** The effect that copies new `currentFilters` from the parent. */
    method SyncFromParent(currentFilters: ClientFilters)
      modifies this
      ensures localFilters == currentFilters
    {
      localFilters := currentFilters;
    }

    /** The effect on `currentFilters.category` and the loaded categories. */
    method PreselectCategory(currentCategory: Option<CategoryValue>, categories: seq<Category>)
      modifies this
      ensures PreselectedCategory(currentCategory, categories).None? ==> localFilters == old(localFilters)
      ensures PreselectedCategory(currentCategory, categories).Some? ==>
        var c := PreselectedCategory(currentCategory, categories).value;
        localFilters == old(localFilters).(categories := Some([c.id]), category := Some(SlugText(c.slug)))
    {
      var selected := PreselectedCategory(currentCategory, categories);
      if selected.Some? {
        localFilters := localFilters.(categories := Some([selected.value.id]), category := Some(SlugText(selected.value.slug)));
      }
    }

    method HandleCategoryChange(categoryId: int, checked: bool)
      modifies this
      ensures localFilters == old(localFilters).(categories := Some(Selections.ToggleUnique(old(localFilters).categories, categoryId, checked)))
      ensures (categoryId in localFilters.categories.value) == checked
      ensures Seqs.NoDuplicates(old(localFilters).categories.GetOr([])) ==> Seqs.NoDuplicates(localFilters.categories.value)
    {
      if Seqs.NoDuplicates(localFilters.categories.GetOr([])) {
        Selections.ToggleUniqueKeepsNoDuplicates(localFilters.categories, categoryId, checked);
      }
      localFilters := localFilters.(categories := Some(Selections.ToggleUnique(localFilters.categories, categoryId, checked)));
    }

    method HandlePriceRangeChange(priceRange: string)
      modifies this
      ensures localFilters == old(localFilters).(priceRange := Some(priceRange))
    {
      localFilters := localFilters.(priceRange := Some(priceRange));
    }

    method HandleBrandChange(brand: string, checked: bool)
      modifies this
      ensures localFilters == old(localFilters).(brands := Some(Selections.ToggleAppend(old(localFilters).brands, brand, checked)))
    {
      localFilters := localFilters.(brands := Some(Selections.ToggleAppend(localFilters.brands, brand, checked)));
    }

    /** `applyFilters`: the local state itself is not changed. */
    method ApplyFilters(categories: seq<Category>) returns (emitted: ClientFilters)
      ensures emitted == SentFilters(localFilters, categories)
    {
      emitted := localFilters;
      if localFilters.categories.Some? && |localFilters.categories.value| > 0 && |categories| > 0 {
        var slugs := SelectedSlugs(categories, localFilters.categories.value);
        if |slugs| > 0 {
          emitted := emitted.(category := Some(SlugList(slugs)));
        }
      } else {
        emitted := emitted.(category := Some(SlugList([])));
      }
    }

    /** `clearFilters`: both the local and the parent's filters become `{}`. */
    method ClearFilters() returns (emitted: ClientFilters)
      modifies this
      ensures localFilters == NoFilters && emitted == NoFilters
    {
      localFilters := NoFilters;
      emitted := localFilters;
    }
  }
}
