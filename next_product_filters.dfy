/**
 * The storefront filter panel of the Next.js app: categories, one price
 * range and brands, edited locally and handed to the parent on "apply" or
 * "clear". A key the filter object does not have is `None`.
 */
module NextProductFilters {
  import opened Wrappers
  import Seqs
  import Selections

  datatype PanelFilters = PanelFilters(
    categories: Option<seq<string>>,
    priceRange: Option<string>,
    brands: Option<seq<string>>)

  /** `{}` */
  const NoFilters := PanelFilters(None, None, None)

  /** Whether a category's checkbox is shown checked. */
  predicate CategoryChecked(filters: PanelFilters, categoryId: string) {
    categoryId in filters.categories.GetOr([])
  }

  class FilterPanel {
    var localFilters: PanelFilters

    constructor (currentFilters: PanelFilters)
      ensures localFilters == currentFilters
    {
      localFilters := currentFilters;
    }

    /** The effect that copies new `currentFilters` from the parent. */
    method SyncFromParent(currentFilters: PanelFilters)
      modifies this
      ensures localFilters == currentFilters
    {
      localFilters := currentFilters;
    }

    /** After the click the box shows `checked`, and no other box changes. */
    method HandleCategoryChange(categoryId: string, checked: bool)
      modifies this
      ensures localFilters == old(localFilters).(categories := Some(Selections.ToggleUnique(old(localFilters).categories, categoryId, checked)))
      ensures CategoryChecked(localFilters, categoryId) == checked
      ensures forall c :: c != categoryId ==> CategoryChecked(localFilters, c) == CategoryChecked(old(localFilters), c)
      ensures Seqs.NoDuplicates(old(localFilters).categories.GetOr([])) ==> Seqs.NoDuplicates(localFilters.categories.value)
    {
      if Seqs.NoDuplicates(localFilters.categories.GetOr([])) {
        Selections.ToggleUniqueKeepsNoDuplicates(localFilters.categories, categoryId, checked);
      }
      localFilters := localFilters.(categories := Some(Selections.ToggleUnique(localFilters.categories, categoryId, checked)));
    }

    method HandlePriceRangeChange(priceRange: string)
      modifies this
      ensures localFilters == old(localFilters).(priceRange := Some(priceRange))
    {
      localFilters := localFilters.(priceRange := Some(priceRange));
    }

    method HandleBrandChange(brand: string, checked: bool)
      modifies this
      ensures localFilters == old(localFilters).(brands := Some(Selections.ToggleAppend(old(localFilters).brands, brand, checked)))
    {
      localFilters := localFilters.(brands := Some(Selections.ToggleAppend(localFilters.brands, brand, checked)));
    }

    /** `applyFilters`: the local filters go to the parent unchanged. */
    method ApplyFilters() returns (emitted: PanelFilters)
      ensures emitted == localFilters
    {
      emitted := localFilters;
    }

    /** `clearFilters`: both the local and the parent's filters become `{}`. */
    method ClearFilters() returns (emitted: PanelFilters)
      modifies this
      ensures localFilters == NoFilters && emitted == NoFilters
    {
      localFilters := NoFilters;
      emitted := localFilters;
    }
  }
}
