/**
 * The filter panel of the Next.js admin product list. It edits a local copy
 * of the filters and hands it to its parent only on "apply" or "clear".
 * A key that the filter object does not have is `None`. The panel has no
 * control for `category`, the slug the storefront reads from its URL; it is
 * carried along like any other key.
 */
module AdminProductFilters {
  import opened Wrappers
  import Seqs
  import Selections

  datatype AdminFilters = AdminFilters(
    search: Option<string>,
    categories: Option<seq<string>>,
    priceRange: Option<string>,
    brands: Option<seq<string>>,
    stockStatus: Option<string>,
    featured: Option<string>,
    category: Option<string>)

  /** `{}` */
  const NoFilters := AdminFilters(None, None, None, None, None, None, None)

  /** Whether a category's checkbox is shown checked. */
  predicate CategoryChecked(filters: AdminFilters, categoryId: string) {
    categoryId in filters.categories.GetOr([])
  }

  class FilterPanel {
    var localFilters: AdminFilters

    constructor (currentFilters: AdminFilters)
      ensures localFilters == currentFilters
    {
      localFilters := currentFilters;
    }

    /** The effect that copies new `currentFilters` from the parent. */
    method SyncFromParent(currentFilters: AdminFilters)
      modifies this
      ensures localFilters == currentFilters
    {
      localFilters := currentFilters;
    }

    method HandleSearchChange(value: string)
      modifies this
      ensures localFilters == old(localFilters).(search := Some(value))
    {
      localFilters := localFilters.(search := Some(value));
    }

    /** After the click the box shows `checked`, no other box changes, and a duplicate-free list stays so. */
    method HandleCategoryChange(categoryId: string, checked: bool)
      modifies this
      ensures localFilters == old(localFilters).(categories := Some(Selections.ToggleUnique(old(localFilters).categories, categoryId, checked)))
      ensures CategoryChecked(localFilters, categoryId) == checked
      ensures forall c :: c != categoryId ==> CategoryChecked(localFilters, c) == CategoryChecked(old(localFilters), c)
      ensures Seqs.NoDuplicates(old(localFilters).categories.GetOr([])) ==> Seqs.NoDuplicates(localFilters.categories.value)
    {
      if Seqs.NoDuplicates(localFilters.categories.GetOr([])) {
        Selections.ToggleUniqueKeepsNoDuplicates(localFilters.categories, categoryId, checked);
      }
      localFilters := localFilters.(categories := Some(Selections.ToggleUnique(localFilters.categories, categoryId, checked)));
    }

    method HandlePriceRangeChange(priceRange: string)
      modifies this
      ensures localFilters == old(localFilters).(priceRange := Some(priceRange))
    {
      localFilters := localFilters.(priceRange := Some(priceRange));
    }

    method HandleBrandChange(brand: string, checked: bool)
      modifies this
      ensures localFilters == old(localFilters).(brands := Some(Selections.ToggleAppend(old(localFilters).brands, brand, checked)))
    {
      localFilters := localFilters.(brands := Some(Selections.ToggleAppend(localFilters.brands, brand, checked)));
    }

    method HandleStockStatusChange(status: string)
      modifies this
      ensures localFilters == old(localFilters).(stockStatus := Some(status))
    {
      localFilters := localFilters.(stockStatus := Some(status));
    }

    method HandleFeaturedChange(featured: string)
      modifies this
      ensures localFilters == old(localFilters).(featured := Some(featured))
    {
      localFilters := localFilters.(featured := Some(featured));
    }

    /** `applyFilters`: the local filters go to the parent unchanged. */
    method ApplyFilters() returns (emitted: AdminFilters)
      ensures emitted == localFilters
    {
      emitted := localFilters;
    }

    /** `clearFilters`: both the local and the parent's filters become `{}`. */
    method ClearFilters() returns (emitted: AdminFilters)
      modifies this
      ensures localFilters == NoFilters && emitted == NoFilters
    {
      localFilters := NoFilters;
      emitted := localFilters;
    }
  }
}
