/**
 * The admin brands API of the Next.js app: `POST` creates a brand after
 * checking the caller and the name, `GET` lists the brands newest first.
 * The brand collection is a value passed in and, for `POST`, returned
 * updated; the admin check is `AdminAuth.AuthenticateAdmin` on the request's
 * token. The duplicate query is a case-insensitive whole-name match.
 */
module BrandsRoute {
  import opened Wrappers
  import opened Text
  import Sorting
  import opened AdminAuth

  datatype Brand = Brand(name: string, createdAt: int)

  datatype Response =
    | Status(code: int, message: string)
    | Saved(code: int, brand: Brand)
    | Listed(brands: seq<Brand>)

  const Forbidden := Status(403, "Admin access required")
  const NameRequired := Status(400, "Name is required")
  const Duplicate := Status(400, "Brand with this name already exists")

  /** The duplicate query: a brand whose name equals `name`, ignoring case. */
  predicate SameName(a: string, b: string) { Lower(a) == Lower(b) }

  /** No two brands share a name, ignoring case. */
  predicate NamesUnique(brands: seq<Brand>) {
    forall i, j :: 0 <= i < |brands| && 0 <= j < |brands| && i != j ==> !SameName(brands[i].name, brands[j].name)
  }

  /**
   * `POST`: who asks is checked first, then the name, then the collection;
   * a new brand gets the trimmed name and the time `now`.
   */
  function Post(token: Option<string>, verify: Verification, name: Option<string>, brands: seq<Brand>, now: int):
    (result: (Response, seq<Brand>))
    ensures AuthenticateAdmin(token, verify).None? ==> result == (Forbidden, brands)
    ensures AuthenticateAdmin(token, verify).Some? && (name.None? || Trim(name.value) == "") ==>
      result == (NameRequired, brands)
    ensures result.0 == Duplicate ==>
      result.1 == brands && exists b :: b in brands && SameName(b.name, Trim(name.value))
    ensures result.0.Saved? ==>
      result.0.code == 201 && result.0.brand == Brand(Trim(name.value), now) &&
      result.1 == brands + [result.0.brand] &&
      forall b :: b in brands ==> !SameName(b.name, result.0.brand.name)
    ensures result.0.Saved? || result.1 == brands
  {
    if AuthenticateAdmin(token, verify).None? then (Forbidden, brands)
    else if name.None? || Trim(name.value) == "" then (NameRequired, brands)
    else
      var trimmed := Trim(name.value);
      if exists b :: b in brands && SameName(b.name, trimmed) then (Duplicate, brands)
      else
        var brand := Brand(trimmed, now);
        (Saved(201, brand), brands + [brand])
  }

  /** Every admin request with a usable name either saves it or finds its duplicate. */
  lemma PostOutcomes(token: Option<string>, verify: Verification, name: string, brands: seq<Brand>, now: int)
    requires AuthenticateAdmin(token, verify).Some? && Trim(name) != ""
    ensures var (response, after) := Post(token, verify, Some(name), brands, now);
      (response == Duplicate <==> exists b :: b in brands && SameName(b.name, Trim(name))) &&
      (response.Saved? <==> !exists b :: b in brands && SameName(b.name, Trim(name)))
  {
  }

  /** `POST` keeps brand names unique, ignoring case. */
  lemma PostKeepsNamesUnique(token: Option<string>, verify: Verification, name: Option<string>, brands: seq<Brand>, now: int)
    requires NamesUnique(brands)
    ensures NamesUnique(Post(token, verify, name, brands, now).1)
  {
    var (response, after) := Post(token, verify, name, brands, now);
    if response.Saved? {
      var n := |brands|;
      forall i, j | 0 <= i < |after| && 0 <= j < |after| && i != j
        ensures !SameName(after[i].name, after[j].name)
      {
        if i < n && j < n {
        } else if i == n {
          assert after[j] in brands;
        } else {
          assert after[i] in brands;
        }
      }
    }
  }

  /** The list order: later brands first. */
  function Newest(a: Brand, b: Brand): real { (b.createdAt - a.createdAt) as real }

  function NegatedTime(b: Brand): real { -(b.createdAt as real) }

  /** `GET`: the brands, newest first, to an administrator only. */
  function Get(token: Option<string>, verify: Verification, brands: seq<Brand>): (r: Response)
    ensures AuthenticateAdmin(token, verify).None? ==> r == Forbidden
    ensures AuthenticateAdmin(token, verify).Some? ==> r.Listed? && multiset(r.brands) == multiset(brands)
  {
    if AuthenticateAdmin(token, verify).None? then Forbidden
    else
      Sorting.SortPermutes(Newest, brands);
      Listed(Sorting.Sort(Newest, brands))
  }

  /** The listed brands are ordered by `createdAt`, descending. */
  lemma GetNewestFirst(token: Option<string>, verify: Verification, brands: seq<Brand>)
    requires AuthenticateAdmin(token, verify).Some?
    ensures var r := Get(token, verify, brands).brands;
      forall i, j :: 0 <= i < j < |r| ==> r[i].createdAt >= r[j].createdAt
  {
    Sorting.SortOrdersByKey(Newest, NegatedTime, brands);
  }
}
