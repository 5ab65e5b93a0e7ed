/**
 * The Express routes over `MemStorage`: how the query string becomes the
 * filters of `getProducts`, and the 400/404 answers of the product, category
 * and cart handlers. A query or body value that is absent is `None`.
 */
module Routes {
  import opened Wrappers
  import opened Numbers
  import opened Storage

  /** A JSON answer with status 200, or an error status with its message. */
  datatype Reply<T> = Ok(value: T) | Failure(status: int, message: string)

  /** `featured`: the exact strings "true" and "false"; anything else leaves the filter unset. */
  function FeaturedParam(q: Option<string>): (r: Option<bool>)
    ensures r == Some(true) <==> q == Some("true")
    ensures r == Some(false) <==> q == Some("false")
  {
    if q == Some("true") then Some(true) else if q == Some("false") then Some(false) else None
  }

  /** `categoryId`: `parseInt` of a non-empty parameter; `NaN` and an absent parameter leave it unset. */
  function CategoryIdParam(q: Option<string>): (r: Option<int>)
    ensures q.None? || q == Some("") ==> r.None?
    ensures q.Some? && q.value != [] ==> r == ParseInt(q.value)
  {
    if q.Some? && q.value != [] then ParseInt(q.value) else None
  }

  /** The digits of a natural number select that category. */
  lemma CategoryIdOfDigits(n: nat)
    ensures CategoryIdParam(Some(DecimalString(n))) == Some(n)
  {
    ParseIntRoundTrip(n);
  }

  function ProductQuery(categoryId: Option<string>, featured: Option<string>, search: Option<string>): ProductFilters {
    ProductFilters(CategoryIdParam(categoryId), FeaturedParam(featured), search)
  }

  /** `featured=true` keeps only featured products, `featured=false` only the others. */
  lemma FeaturedQuery(categoryId: Option<string>, search: Option<string>, p: Product)
    ensures MatchesFilters(ProductQuery(categoryId, Some("true"), search), p) ==> p.featured == Some(true)
    ensures MatchesFilters(ProductQuery(categoryId, Some("false"), search), p) ==> p.featured == Some(false)
    ensures forall f :: f != "true" && f != "false" ==>
      (MatchesFilters(ProductQuery(categoryId, Some(f), search), p) <==> MatchesFilters(ProductQuery(categoryId, None, search), p))
  {
  }

  /** `GET /api/products` */
  function GetProductsRoute(store: MemStorage, categoryId: Option<string>, featured: Option<string>, search: Option<string>)
    : (r: Reply<seq<Product>>)
    reads store
    requires store.Valid()
    ensures r.Ok?
    ensures forall p :: p in r.value <==>
      p.id in store.products && store.products[p.id] == p && MatchesFilters(ProductQuery(categoryId, featured, search), p)
  {
    Ok(store.GetProducts(ProductQuery(categoryId, featured, search)))
  }

  /** `GET /api/products/:slug` */
  function GetProductRoute(store: MemStorage, slug: string): (r: Reply<Product>)
    reads store
    requires store.Valid()
    ensures r.Failure? <==> forall k :: k in store.products ==> store.products[k].slug != slug
    ensures r.Failure? ==> r.status == 404
    ensures r.Ok? ==> r.value.slug == slug && r.value.id in store.products && store.products[r.value.id] == r.value
  {
    match store.GetProductBySlug(slug)
    case None => Failure(404, "Product not found")
    case Some(p) => Ok(p)
  }

  /** `GET /api/categories/:slug` */
  function GetCategoryRoute(store: MemStorage, slug: string): (r: Reply<Category>)
    reads store
    requires store.Valid()
    ensures r.Failure? <==> forall k :: k in store.categories ==> store.categories[k].slug != slug
    ensures r.Failure? ==> r.status == 404
    ensures r.Ok? ==> r.value.slug == slug && r.value.id in store.categories && store.categories[r.value.id] == r.value
  {
    match store.GetCategoryBySlug(slug)
    case None => Failure(404, "Category not found")
    case Some(c) => Ok(c)
  }

  /** The quantity test of `PUT /api/cart/:id`: missing, zero and negative quantities are refused. */
  predicate AcceptableQuantity(quantity: Option<int>) {
    quantity.Some? && quantity.value >= 1
  }

  /**
   * `PUT /api/cart/:id`: 400 for an unacceptable quantity before storage is
   * touched, 404 when the id is not a number or names no line, and otherwise
   * the line with its new quantity.
   */
  method PutCartRoute(store: MemStorage, idParam: string, quantity: Option<int>) returns (r: Reply<CartItem>)
    requires store.Valid()
    modifies store`cartItems
    ensures store.Valid()
    ensures r.Failure? ==> store.cartItems == old(store.cartItems)
    ensures r.Failure? && r.status == 400 <==> !AcceptableQuantity(quantity)
    ensures r.Failure? && r.status == 404 <==>
      AcceptableQuantity(quantity) && (ParseInt(idParam).None? || ParseInt(idParam).value !in old(store.cartItems))
    ensures r.Ok? ==>
      && ParseInt(idParam).Some? && ParseInt(idParam).value in old(store.cartItems)
      && r.value == old(store.cartItems)[ParseInt(idParam).value].(quantity := quantity.value)
      && store.cartItems == old(store.cartItems)[ParseInt(idParam).value := r.value]
  {
    if !AcceptableQuantity(quantity) {
      return Failure(400, "Invalid quantity");
    }
    var id := ParseInt(idParam);
    if id.None? {
      return Failure(404, "Cart item not found");
    }
    var item := store.UpdateCartItem(id.value, quantity.value);
    if item.None? {
      return Failure(404, "Cart item not found");
    }
    r := Ok(item.value);
  }

  /** `DELETE /api/cart/:id`: 404 unless a line was removed. */
  method DeleteCartRoute(store: MemStorage, idParam: string) returns (r: Reply<bool>)
    requires store.Valid()
    modifies store`cartItems
    ensures store.Valid()
    ensures r.Ok? <==> ParseInt(idParam).Some? && ParseInt(idParam).value in old(store.cartItems)
    ensures r.Ok? ==> r.value
    ensures r.Failure? ==> r.status == 404 && store.cartItems == old(store.cartItems)
    ensures ParseInt(idParam).Some? ==> store.cartItems == old(store.cartItems) - {ParseInt(idParam).value}
  {
    var id := ParseInt(idParam);
    if id.None? {
      return Failure(404, "Cart item not found");
    }
    var removed := store.RemoveFromCart(id.value);
    if !removed {
      return Failure(404, "Cart item not found");
    }
    r := Ok(true);
  }

  /** `POST /api/cart`: a body the item schema refuses (`None`) gives 400; otherwise `addToCart`. */
  method PostCartRoute(store: MemStorage, body: Option<CartItem>) returns (r: Reply<CartItem>)
    requires store.Valid()
    modifies store`cartItems, store`currentCartItemId
    ensures store.Valid()
    ensures r.Failure? <==> body.None?
    ensures r.Failure? ==> r.status == 400 && store.cartItems == old(store.cartItems)
    ensures r.Failure? ==> store.currentCartItemId == old(store.currentCartItemId)
    ensures r.Ok? ==> r.value.sessionId == body.value.sessionId && r.value.productId == body.value.productId
    ensures r.Ok? ==> store.cartItems == old(store.cartItems)[r.value.id := r.value]
  {
    if body.None? {
      return Failure(400, "Invalid cart item data");
    }
    var item := store.AddToCart(body.value);
    r := Ok(item);
  }
}
