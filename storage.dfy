/**
 * The in-memory store of the Express server (`MemStorage`): five maps keyed
 * by id, one id counter per map, and a shopping cart whose lines are keyed
 * by session and product.
 *
 * A JavaScript `Map` iterates in insertion order. Every key of these maps is
 * issued by a counter that only grows, and re-setting an existing key keeps
 * its place, so `Array.from(map.values())` is the values in ascending key
 * order; that is how the model lists a map.
 */
module Storage {
  import opened Wrappers
  import opened Text
  import Seqs
  import Sorting

  /** Timestamps are milliseconds since the epoch, as `Date.getTime()` gives. */
  type Instant = int

  datatype User = User(id: int, username: string, password: string, accessLevel: string, createdAt: Option<Instant>)

  datatype Category = Category(id: int, name: string, slug: string, description: Option<string>, parentId: Option<int>)

  datatype Product = Product(
    id: int,
    name: string,
    slug: string,
    description: Option<string>,
    price: string,
    originalPrice: Option<string>,
    brand: string,
    categoryId: int,
    imageUrl: string,
    rating: Option<string>,
    inStock: Option<bool>,
    featured: Option<bool>,
    specifications: Option<string>,
    createdAt: Instant)

  datatype CartItem = CartItem(id: int, sessionId: string, productId: int, quantity: int)

  datatype Inquiry = Inquiry(
    id: int,
    firstName: string,
    lastName: string,
    email: string,
    phone: Option<string>,
    projectType: Option<string>,
    message: string,
    createdAt: Instant)

  /** A cart line joined with its product, as `getCartItems` returns it. */
  datatype CartLine = CartLine(item: CartItem, product: Product)

  /** The optional filters of `getProducts`; a `NaN` category id is `None`. */
  datatype ProductFilters = ProductFilters(categoryId: Option<int>, featured: Option<bool>, search: Option<string>)

  /** The keys of `ks` in `[lo, hi)`, ascending. */
  function KeysBetween(ks: set<int>, lo: int, hi: int): (r: seq<int>)
    ensures forall k :: k in r <==> k in ks && lo <= k < hi
    ensures forall i, j :: 0 <= i < j < |r| ==> r[i] < r[j]
    decreases hi - lo
  {
    if lo >= hi then []
    else if lo in ks then
      var rest := KeysBetween(ks, lo + 1, hi);
      assert forall i :: 0 <= i < |rest| ==> rest[i] in rest;
      [lo] + rest
    else KeysBetween(ks, lo + 1, hi)
  }

  /** The values of `m` under the keys `ks`, in that order. */
  function ValuesAt<T>(m: map<int, T>, ks: seq<int>): (r: seq<T>)
    requires forall i :: 0 <= i < |ks| ==> ks[i] in m
    ensures |r| == |ks| && forall i :: 0 <= i < |ks| ==> r[i] == m[ks[i]]
  {
    seq(|ks|, i requires 0 <= i < |ks| => m[ks[i]])
  }

  /** Every record sits under its own id, and every id is below the counter. */
  ghost predicate Keyed<T>(m: map<int, T>, idOf: T -> int, next: int) {
    && 1 <= next
    && forall k :: k in m ==> 1 <= k < next && idOf(m[k]) == k
  }

  lemma KeyedInsert<T>(m: map<int, T>, idOf: T -> int, next: int, x: T)
    requires Keyed(m, idOf, next) && idOf(x) == next
    ensures Keyed(m[next := x], idOf, next + 1)
  {
    var m' := m[next := x];
    forall k | k in m' ensures 1 <= k < next + 1 && idOf(m'[k]) == k {
      if k != next {
        assert k in m && m'[k] == m[k];
        assert 1 <= k < next && idOf(m[k]) == k;
      } else {
        assert m'[k] == x;
      }
    }
  }

  /** Some line of `m` holds `productId` for `sessionId`. */
  predicate HasLine(m: map<int, CartItem>, sessionId: string, productId: int) {
    exists k :: k in m && m[k].sessionId == sessionId && m[k].productId == productId
  }

  /** At most one cart line per (session, product) pair. */
  ghost predicate OneLinePerProduct(m: map<int, CartItem>) {
    forall a, b :: a in m && b in m && a != b ==>
      m[a].sessionId != m[b].sessionId || m[a].productId != m[b].productId
  }

  /** The three filters of `getProducts`, each only when it is set. */
  predicate InCategory(filters: ProductFilters, p: Product) {
    filters.categoryId.None? || filters.categoryId.value == 0 || p.categoryId == filters.categoryId.value
  }

  predicate IsFeaturedAs(filters: ProductFilters, p: Product) {
    filters.featured.None? || p.featured == filters.featured
  }

  /** Case-insensitive substring search over name, brand and a non-empty description. */
  predicate MatchesSearch(p: Product, needle: string) {
    Contains(Lower(p.name), needle)
    || Contains(Lower(p.brand), needle)
    || (p.description.Some? && p.description.value != [] && Contains(Lower(p.description.value), needle))
  }

  predicate FoundBySearch(filters: ProductFilters, p: Product) {
    filters.search.None? || filters.search.value == [] || MatchesSearch(p, Lower(filters.search.value))
  }

  predicate MatchesFilters(filters: ProductFilters, p: Product) {
    InCategory(filters, p) && IsFeaturedAs(filters, p) && FoundBySearch(filters, p)
  }

  /** The comparator of `getProducts`: `b.createdAt - a.createdAt`. */
  function NewestFirst(a: Product, b: Product): real {
    (b.createdAt - a.createdAt) as real
  }

  function Age(p: Product): real {
    -(p.createdAt as real)
  }

  function ProductId(p: Product): int { p.id }
  function CategoryId(c: Category): int { c.id }
  function UserId(u: User): int { u.id }
  function CartItemId(c: CartItem): int { c.id }
  function InquiryId(q: Inquiry): int { q.id }

  /** The two seeded categories. */
  function Electrical(id: int): Category {
    Category(id, "Electrical", "electrical",
      Some("Electrical products including switches, wires, and circuit breakers"), None)
  }

  function Sanitary(id: int): Category {
    Category(id, "Sanitary", "sanitary",
      Some("Sanitary products including faucets, pipes, and bathroom fittings"), None)
  }

  /** The six seeded products, without their ids; `now` is the clock reading. */
  function SampleProducts(electrical: int, sanitary: int, now: Instant): (r: seq<Product>)
    ensures |r| == 6
  {
    [ WallSwitch(electrical, now), KitchenFaucet(sanitary, now), SmartBulb(electrical, now),
      CopperPipe(sanitary, now), BasinMixer(sanitary, now), CircuitBreaker(electrical, now) ]
  }

  function WallSwitch(category: int, now: Instant): Product {
    Product(0, "Premium Wall Switch - White", "premium-wall-switch-white",
      Some("High-quality wall switch with modern design and reliable performance"),
      "2499", Some("2999"), "Schneider Electric", category,
      "https://images.unsplash.com/photo-1621905251918-48416bd8575a?ixlib=rb-4.0.3&auto=format&fit=crop&w=400&h=300",
      Some("4.8"), Some(true), Some(true),
      Some("{\"voltage\":\"240V\",\"current\":\"16A\",\"color\":\"White\",\"material\":\"Polycarbonate\"}"), now)
  }

  function KitchenFaucet(category: int, now: Instant): Product {
    Product(0, "Chrome Kitchen Faucet", "chrome-kitchen-faucet",
      Some("Modern chrome kitchen faucet with pull-out spray function"),
      "18999", None, "Kohler", category,
      "https://images.unsplash.com/photo-1556909114-f6e7ad7d3136?ixlib=rb-4.0.3&auto=format&fit=crop&w=400&h=300",
      Some("4.6"), Some(true), Some(true),
      Some("{\"finish\":\"Chrome\",\"type\":\"Pull-out spray\",\"mounting\":\"Single hole\",\"warranty\":\"Lifetime\"}"), now)
  }

  function SmartBulb(category: int, now: Instant): Product {
    Product(0, "LED Smart Bulb - 9W", "led-smart-bulb-9w",
      Some("Energy-efficient LED smart bulb with WiFi connectivity"),
      "1599", Some("1999"), "Philips", category,
      "https://images.unsplash.com/photo-1565814329452-e1efa11c5b89?ixlib=rb-4.0.3&auto=format&fit=crop&w=400&h=300",
      Some("4.9"), Some(true), Some(true),
      Some("{\"wattage\":\"9W\",\"lumens\":\"800\",\"colorTemp\":\"2700K-6500K\",\"connectivity\":\"WiFi\"}"), now)
  }

  function CopperPipe(category: int, now: Instant): Product {
    Product(0, "Copper Pipe - 22mm x 3m", "copper-pipe-22mm-3m",
      Some("High-grade copper pipe for plumbing installations"),
      "3499", None, "ProPlumb", category,
      "https://images.unsplash.com/photo-1504307651254-35680f356dfd?ixlib=rb-4.0.3&auto=format&fit=crop&w=400&h=300",
      Some("4.7"), Some(true), Some(false),
      Some("{\"diameter\":\"22mm\",\"length\":\"3m\",\"material\":\"Copper\",\"grade\":\"Commercial\"}"), now)
  }

  function BasinMixer(category: int, now: Instant): Product {
    Product(0, "Basin Mixer Tap - Chrome", "basin-mixer-tap-chrome",
      Some("Modern basin mixer tap with ceramic disc technology"),
      "12999", None, "Hansgrohe", category,
      "https://images.unsplash.com/photo-1620626011761-996317b8d101?ixlib=rb-4.0.3&auto=format&fit=crop&w=400&h=300",
      Some("4.5"), Some(true), Some(false),
      Some("{\"finish\":\"Chrome\",\"type\":\"Single lever\",\"cartridge\":\"Ceramic disc\",\"warranty\":\"5 years\"}"), now)
  }

  function CircuitBreaker(category: int, now: Instant): Product {
    Product(0, "Circuit Breaker 20A", "circuit-breaker-20a",
      Some("Industrial-grade circuit breaker for electrical protection"),
      "4599", None, "ABB", category,
      "https://images.unsplash.com/photo-1621905252507-b35492cc74b4?ixlib=rb-4.0.3&auto=format&fit=crop&w=400&h=300",
      Some("4.8"), Some(true), Some(false),
      Some("{\"current\":\"20A\",\"voltage\":\"240V\",\"poles\":\"Single pole\",\"type\":\"MCB\"}"), now)
  }

  /** The samples stored under the ids 1, 2, ... in order. */
  function Numbered(samples: seq<Product>): (r: map<int, Product>)
    ensures Keyed(r, ProductId, |samples| + 1)
    ensures forall k :: k in r <==> 1 <= k <= |samples|
  {
    map k | 1 <= k <= |samples| :: Stamped(samples, k)
  }

  /** The `k`-th sample (counting from 1) under the id `k`. */
  function Stamped(samples: seq<Product>, k: int): Product
    requires 1 <= k <= |samples|
  {
    samples[k - 1].(id := k)
  }

  /** Numbering one more sample adds it under the next id. */
  lemma NumberedStep(samples: seq<Product>, i: nat)
    requires i < |samples|
    ensures Numbered(samples[..i + 1]) == Numbered(samples[..i])[i + 1 := samples[i].(id := i + 1)]
  {
    var before, after := samples[..i], samples[..i + 1];
    forall k | 1 <= k <= i
      ensures Stamped(after, k) == Stamped(before, k)
    {
      assert after[k - 1] == before[k - 1];
    }
  }

  /** `Array.from(m.values())` for a map whose keys are below `next`. */
  function Listed<T>(m: map<int, T>, next: int): seq<T> {
    ValuesAt(m, KeysBetween(m.Keys, 1, next))
  }

  /** A listed record is a stored one, every stored one is listed, and ids ascend. */
  lemma ListedIsStored<T>(m: map<int, T>, idOf: T -> int, next: int)
    requires Keyed(m, idOf, next)
    ensures forall x :: x in Listed(m, next) <==> idOf(x) in m && m[idOf(x)] == x
    ensures forall i, j :: 0 <= i < j < |Listed(m, next)| ==> idOf(Listed(m, next)[i]) < idOf(Listed(m, next)[j])
  {
    var ks := KeysBetween(m.Keys, 1, next);
    var r := Listed(m, next);
    forall x ensures x in r <==> idOf(x) in m && m[idOf(x)] == x {
      if idOf(x) in m && m[idOf(x)] == x {
        var i :| 0 <= i < |ks| && ks[i] == idOf(x);
        assert r[i] == x;
      }
    }
  }

  /**
   * `Array.from(m.values()).find(f)`: `undefined` exactly when no stored
   * record passes, and otherwise the passing record with the smallest id.
   */
  lemma FindStored<T>(m: map<int, T>, idOf: T -> int, next: int, f: T -> bool)
    requires Keyed(m, idOf, next)
    ensures Seqs.Find(Listed(m, next), f).None? <==> forall k :: k in m ==> !f(m[k])
    ensures Seqs.Find(Listed(m, next), f).Some? ==>
      && idOf(Seqs.Find(Listed(m, next), f).value) in m
      && m[idOf(Seqs.Find(Listed(m, next), f).value)] == Seqs.Find(Listed(m, next), f).value
      && f(Seqs.Find(Listed(m, next), f).value)
      && forall k :: k in m && f(m[k]) ==> idOf(Seqs.Find(Listed(m, next), f).value) <= k
  {
    var s := Listed(m, next);
    ListedIsStored(m, idOf, next);
    FindFirstByKey(s, idOf, f);
    forall k | k in m ensures m[k] in s {
      assert idOf(m[k]) == k;
    }
  }

  /** In a sequence ordered by key, `find` returns the passing element with the least key. */
  lemma FindFirstByKey<T>(s: seq<T>, key: T -> int, f: T -> bool)
    requires forall i, j :: 0 <= i < j < |s| ==> key(s[i]) < key(s[j])
    ensures Seqs.Find(s, f).Some? ==> forall x :: x in s && f(x) ==> key(Seqs.Find(s, f).value) <= key(x)
  {
    var idx := Seqs.FindIndex(s, f);
    if idx != -1 {
      forall x | x in s && f(x) ensures key(s[idx]) <= key(x) {
        var j :| 0 <= j < |s| && s[j] == x;
        assert idx <= j;
      }
    }
  }

  /** Changing a line's quantity keeps the cart well formed. */
  lemma SetQuantityKeepsLines(m: map<int, CartItem>, next: int, k: int, q: int)
    requires Keyed(m, CartItemId, next) && OneLinePerProduct(m) && k in m
    ensures Keyed(m[k := m[k].(quantity := q)], CartItemId, next)
    ensures OneLinePerProduct(m[k := m[k].(quantity := q)])
  {
    var m' := m[k := m[k].(quantity := q)];
    forall j | j in m' ensures m'[j].sessionId == m[j].sessionId && m'[j].productId == m[j].productId && m'[j].id == m[j].id {
      if j == k { assert m'[j] == m[k].(quantity := q); } else { assert m'[j] == m[j]; }
    }
  }

  /** A new line for a pair the cart does not hold yet keeps the cart well formed. */
  lemma NewLineKeepsLines(m: map<int, CartItem>, next: int, x: CartItem)
    requires Keyed(m, CartItemId, next) && OneLinePerProduct(m) && x.id == next
    requires !HasLine(m, x.sessionId, x.productId)
    ensures Keyed(m[next := x], CartItemId, next + 1)
    ensures OneLinePerProduct(m[next := x])
  {
    KeyedInsert(m, CartItemId, next, x);
    var m' := m[next := x];
    forall a, b | a in m' && b in m' && a != b
      ensures m'[a].sessionId != m'[b].sessionId || m'[a].productId != m'[b].productId
    {
      if a == next {
        assert b in m && m'[b] == m[b];
      } else if b == next {
        assert a in m && m'[a] == m[a];
      } else {
        assert m'[a] == m[a] && m'[b] == m[b];
      }
    }
  }

  /** Deleting lines keeps the cart well formed. */
  lemma RemoveKeepsLines(m: map<int, CartItem>, next: int, ks: set<int>)
    requires Keyed(m, CartItemId, next) && OneLinePerProduct(m)
    ensures Keyed(m - ks, CartItemId, next) && OneLinePerProduct(m - ks)
  {
  }

  lemma SubmapKeepsLines(m: map<int, CartItem>, m': map<int, CartItem>, next: int)
    requires Keyed(m, CartItemId, next) && OneLinePerProduct(m)
    requires forall k :: k in m' ==> k in m && m'[k] == m[k]
    ensures Keyed(m', CartItemId, next) && OneLinePerProduct(m')
  {
  }

  /** A rearrangement has the same members. */
  lemma SortedMembers(a: seq<Product>, b: seq<Product>)
    requires multiset(a) == multiset(b)
    ensures forall p :: p in a <==> p in b
  {
    forall p ensures p in a <==> p in b {
      assert p in a <==> p in multiset(a);
      assert p in b <==> p in multiset(b);
    }
  }

  /** The category filter of `getProducts` keeps the products of the category, each once. */
  lemma CategoryStep(filters: ProductFilters, s: seq<Product>, r: seq<Product>)
    requires Seqs.NoDuplicates(s)
    requires r ==
      if filters.categoryId.Some? && filters.categoryId.value != 0
      then Seqs.Filter(s, (p: Product) => p.categoryId == filters.categoryId.value)
      else s
    ensures Seqs.NoDuplicates(r)
    ensures forall p :: p in r <==> p in s && InCategory(filters, p)
  {
    if filters.categoryId.Some? && filters.categoryId.value != 0 {
      Seqs.FilterMembers(s, (p: Product) => p.categoryId == filters.categoryId.value);
      Seqs.FilterKeepsNoDuplicates(s, (p: Product) => p.categoryId == filters.categoryId.value);
    }
  }

  /** The featured filter of `getProducts` keeps the products flagged as asked, each once. */
  lemma FeaturedStep(filters: ProductFilters, s: seq<Product>, r: seq<Product>)
    requires Seqs.NoDuplicates(s)
    requires r ==
      if filters.featured.Some?
      then Seqs.Filter(s, (p: Product) => p.featured == filters.featured)
      else s
    ensures Seqs.NoDuplicates(r)
    ensures forall p :: p in r <==> p in s && IsFeaturedAs(filters, p)
  {
    if filters.featured.Some? {
      Seqs.FilterMembers(s, (p: Product) => p.featured == filters.featured);
      Seqs.FilterKeepsNoDuplicates(s, (p: Product) => p.featured == filters.featured);
    }
  }

  /** The search of `getProducts` keeps the products that match it, each once. */
  lemma SearchStep(filters: ProductFilters, s: seq<Product>, r: seq<Product>)
    requires Seqs.NoDuplicates(s)
    requires r ==
      if filters.search.Some? && filters.search.value != []
      then Seqs.Filter(s, (p: Product) => MatchesSearch(p, Lower(filters.search.value)))
      else s
    ensures Seqs.NoDuplicates(r)
    ensures forall p :: p in r <==> p in s && FoundBySearch(filters, p)
  {
    if filters.search.Some? && filters.search.value != [] {
      Seqs.FilterMembers(s, (p: Product) => MatchesSearch(p, Lower(filters.search.value)));
      Seqs.FilterKeepsNoDuplicates(s, (p: Product) => MatchesSearch(p, Lower(filters.search.value)));
    }
  }

  /** The stored products, listed by id, hold no product twice. */
  lemma ListedNoDuplicates(products: map<int, Product>, next: int)
    requires Keyed(products, ProductId, next)
    ensures Seqs.NoDuplicates(Listed(products, next))
    ensures forall p :: p in Listed(products, next) <==> p.id in products && products[p.id] == p
  {
    var all := Listed(products, next);
    ListedIsStored(products, ProductId, next);
    forall i, j | 0 <= i < j < |all| ensures all[i] != all[j] {
      assert all[i].id < all[j].id;
    }
  }

  /** The three filters of `getProducts` in turn keep exactly the matching products, each once. */
  lemma ProductsQueryFacts(products: map<int, Product>, next: int, filters: ProductFilters,
                           all: seq<Product>, byCategory: seq<Product>, byFeatured: seq<Product>, bySearch: seq<Product>)
    requires Keyed(products, ProductId, next) && all == Listed(products, next)
    requires byCategory ==
      if filters.categoryId.Some? && filters.categoryId.value != 0
      then Seqs.Filter(all, (p: Product) => p.categoryId == filters.categoryId.value)
      else all
    requires byFeatured ==
      if filters.featured.Some?
      then Seqs.Filter(byCategory, (p: Product) => p.featured == filters.featured)
      else byCategory
    requires bySearch ==
      if filters.search.Some? && filters.search.value != []
      then Seqs.Filter(byFeatured, (p: Product) => MatchesSearch(p, Lower(filters.search.value)))
      else byFeatured
    ensures forall p :: p in bySearch <==> p.id in products && products[p.id] == p && MatchesFilters(filters, p)
    ensures Seqs.NoDuplicates(bySearch)
    ensures forall a, b :: a in bySearch && b in bySearch ==> NewestFirst(a, b) == Age(a) - Age(b)
  {
    ListedNoDuplicates(products, next);
    CategoryStep(filters, all, byCategory);
    FeaturedStep(filters, byCategory, byFeatured);
    SearchStep(filters, byFeatured, bySearch);
  }

  /** The keys of the lines of `m` that belong to `sessionId`, in key order. */
  function SessionIds(m: map<int, CartItem>, next: int, sessionId: string): seq<int> {
    Seqs.Filter(KeysBetween(m.Keys, 1, next), (k: int) => k in m && m[k].sessionId == sessionId)
  }

  /**
   * The first step of `clearCart`: the ids of the entries whose line belongs
   * to the session.
   */
  method CollectSessionIds(m: map<int, CartItem>, next: int, sessionId: string) returns (ids: seq<int>)
    requires Keyed(m, CartItemId, next)
    ensures forall k :: k in ids <==> k in m && m[k].sessionId == sessionId
  {
    Seqs.FilterMembers(KeysBetween(m.Keys, 1, next), (k: int) => k in m && m[k].sessionId == sessionId);
    ids := SessionIds(m, next, sessionId);
  }

  /** With no line of the session left, the session's cart is empty. */
  lemma NoSessionLines(items: map<int, CartItem>, next: int, ps: map<int, Product>, sessionId: string)
    requires Keyed(items, CartItemId, next)
    requires forall k :: k in items ==> items[k].sessionId != sessionId
    ensures SessionLines(items, next, ps, sessionId) == []
  {
    SessionLinesFacts(items, next, ps, sessionId);
  }

  /** `getCartItems` on the store's values: the session's lines joined with their products. */
  function SessionLines(items: map<int, CartItem>, next: int, ps: map<int, Product>, sessionId: string): seq<CartLine> {
    Attach(Seqs.Filter(Listed(items, next), (it: CartItem) => it.sessionId == sessionId), ps)
  }

  lemma SessionLinesFacts(items: map<int, CartItem>, next: int, ps: map<int, Product>, sessionId: string)
    requires Keyed(items, CartItemId, next)
    ensures forall l :: l in SessionLines(items, next, ps, sessionId) <==>
      && l.item.sessionId == sessionId
      && l.item.id in items && items[l.item.id] == l.item
      && l.item.productId in ps && l.product == ps[l.item.productId]
    ensures forall i, j :: 0 <= i < j < |SessionLines(items, next, ps, sessionId)| ==>
      SessionLines(items, next, ps, sessionId)[i].item.id < SessionLines(items, next, ps, sessionId)[j].item.id
  {
    var all := Listed(items, next);
    var f := (it: CartItem) => it.sessionId == sessionId;
    var mine := Seqs.Filter(all, f);
    ListedIsStored(items, CartItemId, next);
    Seqs.FilterMembers(all, f);
    Seqs.FilterKeepsOrder(all, f, (a: CartItem, b: CartItem) => a.id < b.id);
    AttachMembers(mine, ps);
    AttachOrder(mine, ps);
    assert SessionLines(items, next, ps, sessionId) == Attach(mine, ps);
  }

  class MemStorage {
    var users: map<int, User>
    var categories: map<int, Category>
    var products: map<int, Product>
    var cartItems: map<int, CartItem>
    var inquiries: map<int, Inquiry>
    var currentUserId: int
    var currentCategoryId: int
    var currentProductId: int
    var currentCartItemId: int
    var currentInquiryId: int

    ghost predicate Valid()
      reads this
    {
      && Keyed(users, UserId, currentUserId)
      && Keyed(categories, CategoryId, currentCategoryId)
      && Keyed(products, ProductId, currentProductId)
      && Keyed(cartItems, CartItemId, currentCartItemId)
      && Keyed(inquiries, InquiryId, currentInquiryId)
      && OneLinePerProduct(cartItems)
    }

    /**
     * The store as the server starts it: two categories, then the products
     * `catalogue` lists for their ids, all stamped `now`. The server passes
     * `SampleProducts`.
     */
    constructor (now: Instant, catalogue: (int, int, Instant) -> seq<Product>)
      ensures Valid()
      ensures users == map[] && cartItems == map[] && inquiries == map[]
      ensures categories == map[1 := Electrical(1), 2 := Sanitary(2)]
      ensures products == Numbered(catalogue(1, 2, now))
      ensures currentUserId == 1 && currentCartItemId == 1 && currentInquiryId == 1
      ensures currentCategoryId == 3 && currentProductId == |catalogue(1, 2, now)| + 1
    {
      users := map[];
      categories := map[];
      products := map[];
      cartItems := map[];
      inquiries := map[];
      currentUserId := 1;
      currentCategoryId := 1;
      currentProductId := 1;
      currentCartItemId := 1;
      currentInquiryId := 1;
      new;
      InitializeData(now, catalogue);
    }

    /** `initializeData`: the two categories, then the sample products in order. */
    method InitializeData(now: Instant, catalogue: (int, int, Instant) -> seq<Product>)
      requires categories == map[] && products == map[]
      requires currentCategoryId == 1 && currentProductId == 1
      modifies this`categories, this`currentCategoryId, this`products, this`currentProductId
      ensures categories == map[1 := Electrical(1), 2 := Sanitary(2)]
      ensures products == Numbered(catalogue(1, 2, now))
      ensures currentCategoryId == 3 && currentProductId == |catalogue(1, 2, now)| + 1
      ensures Keyed(categories, CategoryId, currentCategoryId)
      ensures Keyed(products, ProductId, currentProductId)
    {
      var electrical := Electrical(currentCategoryId);
      currentCategoryId := currentCategoryId + 1;
      var sanitary := Sanitary(currentCategoryId);
      currentCategoryId := currentCategoryId + 1;
      categories := categories[electrical.id := electrical];
      categories := categories[sanitary.id := sanitary];
      LoadProducts(catalogue(electrical.id, sanitary.id, now));
    }

    /** The `forEach` of `initializeData`: each sample is stored under the next product id. */
    method LoadProducts(samples: seq<Product>)
      requires products == map[] && currentProductId == 1
      modifies this`products, this`currentProductId
      ensures products == Numbered(samples)
      ensures currentProductId == |samples| + 1
    {
      var i := 0;
      while i < |samples|
        invariant 0 <= i <= |samples|
        invariant currentProductId == i + 1
        invariant products == Numbered(samples[..i])
        modifies this`products, this`currentProductId
      {
        var withId := samples[i].(id := currentProductId);
        currentProductId := currentProductId + 1;
        NumberedStep(samples, i);
        products := products[withId.id := withId];
        i := i + 1;
      }
      assert samples[..|samples|] == samples;
    }

    /** `createUser`: the record is stored under the counter's old value, which then grows. */
    method CreateUser(user: User) returns (r: User)
      requires Valid()
      modifies this`users, this`currentUserId
      ensures Valid()
      ensures r == user.(id := old(currentUserId))
      ensures r.id !in old(users) && forall k :: k in old(users) ==> k < r.id
      ensures users == old(users)[r.id := r]
      ensures currentUserId == old(currentUserId) + 1
    {
      var id := currentUserId;
      currentUserId := currentUserId + 1;
      r := user.(id := id);
      KeyedInsert(users, UserId, id, r);
      users := users[id := r];
    }

    method CreateCategory(category: Category) returns (r: Category)
      requires Valid()
      modifies this`categories, this`currentCategoryId
      ensures Valid()
      ensures r == category.(id := old(currentCategoryId))
      ensures r.id !in old(categories) && forall k :: k in old(categories) ==> k < r.id
      ensures categories == old(categories)[r.id := r]
      ensures currentCategoryId == old(currentCategoryId) + 1
    {
      var id := currentCategoryId;
      currentCategoryId := currentCategoryId + 1;
      r := category.(id := id);
      KeyedInsert(categories, CategoryId, id, r);
      categories := categories[id := r];
    }

    /** `createProduct` also stamps the record with the clock reading `now`. */
    method CreateProduct(product: Product, now: Instant) returns (r: Product)
      requires Valid()
      modifies this`products, this`currentProductId
      ensures Valid()
      ensures r == product.(id := old(currentProductId), createdAt := now)
      ensures r.id !in old(products) && forall k :: k in old(products) ==> k < r.id
      ensures products == old(products)[r.id := r]
      ensures currentProductId == old(currentProductId) + 1
    {
      var id := currentProductId;
      currentProductId := currentProductId + 1;
      r := product.(id := id, createdAt := now);
      KeyedInsert(products, ProductId, id, r);
      products := products[id := r];
    }

    method CreateInquiry(inquiry: Inquiry, now: Instant) returns (r: Inquiry)
      requires Valid()
      modifies this`inquiries, this`currentInquiryId
      ensures Valid()
      ensures r == inquiry.(id := old(currentInquiryId), createdAt := now)
      ensures r.id !in old(inquiries) && forall k :: k in old(inquiries) ==> k < r.id
      ensures inquiries == old(inquiries)[r.id := r]
      ensures currentInquiryId == old(currentInquiryId) + 1
    {
      var id := currentInquiryId;
      currentInquiryId := currentInquiryId + 1;
      r := inquiry.(id := id, createdAt := now);
      KeyedInsert(inquiries, InquiryId, id, r);
      inquiries := inquiries[id := r];
    }

    /** `getUser`: a map lookup. */
    function GetUser(id: int): (r: Option<User>)
      reads this
      ensures r.Some? <==> id in users
      ensures r.Some? ==> r.value == users[id]
    {
      if id in users then Some(users[id]) else None
    }

    /** `getUserByUsername`: the first user, by id, with that name. */
    function GetUserByUsername(username: string): (r: Option<User>)
      reads this
      requires Valid()
      ensures r.Some? ==> r.value.username == username && r.value.id in users && users[r.value.id] == r.value
      ensures r.Some? ==> forall k :: k in users && users[k].username == username ==> r.value.id <= k
      ensures r.None? <==> forall k :: k in users ==> users[k].username != username
    {
      var named := (u: User) => u.username == username;
      FindStored(users, UserId, currentUserId, named);
      Seqs.Find(Listed(users, currentUserId), named)
    }

    /** `getCategories`: every stored category once, in id order. */
    function GetCategories(): (r: seq<Category>)
      reads this
      requires Valid()
      ensures forall c :: c in r <==> c.id in categories && categories[c.id] == c
      ensures forall i, j :: 0 <= i < j < |r| ==> r[i].id < r[j].id
    {
      ListedIsStored(categories, CategoryId, currentCategoryId);
      Listed(categories, currentCategoryId)
    }

    /** `getCategoryBySlug`: the first category, by id, with that slug. */
    function GetCategoryBySlug(slug: string): (r: Option<Category>)
      reads this
      requires Valid()
      ensures r.Some? ==> r.value.slug == slug && r.value.id in categories && categories[r.value.id] == r.value
      ensures r.Some? ==> forall k :: k in categories && categories[k].slug == slug ==> r.value.id <= k
      ensures r.None? <==> forall k :: k in categories ==> categories[k].slug != slug
    {
      var slugged := (c: Category) => c.slug == slug;
      FindStored(categories, CategoryId, currentCategoryId, slugged);
      Seqs.Find(Listed(categories, currentCategoryId), slugged)
    }

    function GetProductById(id: int): (r: Option<Product>)
      reads this
      ensures r.Some? <==> id in products
      ensures r.Some? ==> r.value == products[id]
    {
      if id in products then Some(products[id]) else None
    }

    /** `getProductBySlug`: the first product, by id, with that slug. */
    function GetProductBySlug(slug: string): (r: Option<Product>)
      reads this
      requires Valid()
      ensures r.Some? ==> r.value.slug == slug && r.value.id in products && products[r.value.id] == r.value
      ensures r.Some? ==> forall k :: k in products && products[k].slug == slug ==> r.value.id <= k
      ensures r.None? <==> forall k :: k in products ==> products[k].slug != slug
    {
      var slugged := (p: Product) => p.slug == slug;
      FindStored(products, ProductId, currentProductId, slugged);
      Seqs.Find(Listed(products, currentProductId), slugged)
    }

    /**
     * `getProducts`: each filter in turn, then newest first. The result holds
     * exactly the stored products that pass every filter that is set, each once.
     */
    function GetProducts(filters: ProductFilters): (r: seq<Product>)
      reads this
      requires Valid()
      ensures forall p :: p in r <==> p.id in products && products[p.id] == p && MatchesFilters(filters, p)
      ensures Seqs.NoDuplicates(r)
      ensures forall i, j :: 0 <= i < j < |r| ==> r[i].createdAt >= r[j].createdAt
    {
      var all := Listed(products, currentProductId);
      var byCategory :=
        if filters.categoryId.Some? && filters.categoryId.value != 0
        then Seqs.Filter(all, (p: Product) => p.categoryId == filters.categoryId.value)
        else all;
      var byFeatured :=
        if filters.featured.Some?
        then Seqs.Filter(byCategory, (p: Product) => p.featured == filters.featured)
        else byCategory;
      var bySearch :=
        if filters.search.Some? && filters.search.value != []
        then Seqs.Filter(byFeatured, (p: Product) => MatchesSearch(p, Lower(filters.search.value)))
        else byFeatured;
      ProductsQueryFacts(products, currentProductId, filters, all, byCategory, byFeatured, bySearch);
      Sorting.SortPermutes(NewestFirst, bySearch);
      Sorting.SortOrdersByKey(NewestFirst, Age, bySearch);
      Seqs.NoDuplicatesPermutation(bySearch, Sorting.Sort(NewestFirst, bySearch));
      SortedMembers(bySearch, Sorting.Sort(NewestFirst, bySearch));
      Sorting.Sort(NewestFirst, bySearch)
    }

    /**
     * `getCartItems`: this session's lines in store order, each joined with
     * its product; a line whose product is gone is dropped.
     */
    function GetCartItems(sessionId: string): (r: seq<CartLine>)
      reads this
      requires Valid()
      ensures forall l :: l in r <==>
        && l.item.sessionId == sessionId
        && l.item.id in cartItems && cartItems[l.item.id] == l.item
        && l.item.productId in products && l.product == products[l.item.productId]
      ensures forall i, j :: 0 <= i < j < |r| ==> r[i].item.id < r[j].item.id
    {
      SessionLinesFacts(cartItems, currentCartItemId, products, sessionId);
      SessionLines(cartItems, currentCartItemId, products, sessionId)
    }

    /**
     * `addToCart`: a line that already holds this product for this session
     * grows by the added quantity; otherwise a new line is stored under the
     * next cart id.
     */
    method AddToCart(item: CartItem) returns (r: CartItem)
      requires Valid()
      modifies this`cartItems, this`currentCartItemId
      ensures Valid()
      ensures cartItems == old(cartItems)[r.id := r]
      ensures r.sessionId == item.sessionId && r.productId == item.productId
      ensures HasLine(old(cartItems), item.sessionId, item.productId) ==>
        && r.id in old(cartItems)
        && r == old(cartItems)[r.id].(quantity := old(cartItems)[r.id].quantity + item.quantity)
        && currentCartItemId == old(currentCartItemId)
      ensures !HasLine(old(cartItems), item.sessionId, item.productId) ==>
        && r == item.(id := old(currentCartItemId))
        && r.id !in old(cartItems)
        && currentCartItemId == old(currentCartItemId) + 1
    {
      var same := (c: CartItem) => c.productId == item.productId && c.sessionId == item.sessionId;
      FindStored(cartItems, CartItemId, currentCartItemId, same);
      var existing := Seqs.Find(Listed(cartItems, currentCartItemId), same);
      if existing.Some? {
        var e := existing.value;
        SetQuantityKeepsLines(cartItems, currentCartItemId, e.id, e.quantity + item.quantity);
        r := e.(quantity := e.quantity + item.quantity);
        cartItems := cartItems[e.id := r];
      } else {
        var id := currentCartItemId;
        r := item.(id := id);
        NewLineKeepsLines(cartItems, id, r);
        currentCartItemId := currentCartItemId + 1;
        cartItems := cartItems[id := r];
      }
    }

    /** `updateCartItem`: the line's quantity is replaced; an unknown id changes nothing. */
    method UpdateCartItem(id: int, quantity: int) returns (r: Option<CartItem>)
      requires Valid()
      modifies this`cartItems
      ensures Valid()
      ensures r.Some? <==> id in old(cartItems)
      ensures r.Some? ==> r.value == old(cartItems)[id].(quantity := quantity) && cartItems == old(cartItems)[id := r.value]
      ensures r.None? ==> cartItems == old(cartItems)
    {
      if id !in cartItems {
        return None;
      }
      SetQuantityKeepsLines(cartItems, currentCartItemId, id, quantity);
      var updated := cartItems[id].(quantity := quantity);
      cartItems := cartItems[id := updated];
      r := Some(updated);
    }

    /** `removeFromCart`: `Map.delete`, which reports whether the key was there. */
    method RemoveFromCart(id: int) returns (removed: bool)
      requires Valid()
      modifies this`cartItems
      ensures Valid()
      ensures removed <==> id in old(cartItems)
      ensures cartItems == old(cartItems) - {id}
    {
      RemoveKeepsLines(cartItems, currentCartItemId, {id});
      removed := id in cartItems;
      cartItems := cartItems - {id};
    }

    /**
     * `clearCart`: the ids of this session's lines are collected first, then
     * deleted one by one. Every other session's lines stay as they were.
     */
    method ClearCart(sessionId: string)
      requires Valid()
      modifies this`cartItems
      ensures Valid()
      ensures forall k :: k in cartItems <==> k in old(cartItems) && old(cartItems)[k].sessionId != sessionId
      ensures forall k :: k in cartItems ==> cartItems[k] == old(cartItems)[k]
      ensures GetCartItems(sessionId) == []
    {
      ghost var before := cartItems;
      var ids := CollectSessionIds(cartItems, currentCartItemId, sessionId);
      var i := 0;
      while i < |ids|
        invariant 0 <= i <= |ids|
        invariant forall k :: k in cartItems <==> k in before && k !in ids[..i]
        invariant forall k :: k in cartItems ==> cartItems[k] == before[k]
        modifies this`cartItems
      {
        assert ids[..i + 1] == ids[..i] + [ids[i]];
        cartItems := cartItems - {ids[i]};
        i := i + 1;
      }
      assert ids[..|ids|] == ids;
      SubmapKeepsLines(before, cartItems, currentCartItemId);
      NoSessionLines(cartItems, currentCartItemId, products, sessionId);
    }
  }

  /** `items.map(item => ({...item, product})).filter(item => item.product)` */
  function Attach(items: seq<CartItem>, ps: map<int, Product>): (r: seq<CartLine>)
    decreases |items|
  {
    if items == [] then []
    else (if items[0].productId in ps then [CartLine(items[0], ps[items[0].productId])] else [])
         + Attach(items[1..], ps)
  }

  /** A line is attached exactly when its item is listed and its product is stored. */
  lemma {:induction false} AttachMembers(items: seq<CartItem>, ps: map<int, Product>)
    ensures forall l :: l in Attach(items, ps) <==>
      l.item in items && l.item.productId in ps && l.product == ps[l.item.productId]
    decreases |items|
  {
    if items != [] {
      AttachMembers(items[1..], ps);
      assert items == [items[0]] + items[1..];
    }
  }

  /** Attaching keeps the items' order. */
  lemma {:induction false} AttachOrder(items: seq<CartItem>, ps: map<int, Product>)
    requires forall i, j :: 0 <= i < j < |items| ==> items[i].id < items[j].id
    ensures forall i, j :: 0 <= i < j < |Attach(items, ps)| ==> Attach(items, ps)[i].item.id < Attach(items, ps)[j].item.id
    decreases |items|
  {
    if items != [] {
      var t := items[1..];
      forall i, j | 0 <= i < j < |t| ensures t[i].id < t[j].id { assert t[i] == items[i + 1] && t[j] == items[j + 1]; }
      AttachOrder(t, ps);
      AttachMembers(t, ps);
      var rest := Attach(t, ps);
      if items[0].productId in ps {
        forall l | l in rest ensures items[0].id < l.item.id {
          var k :| 0 <= k < |t| && t[k] == l.item;
          assert t[k] == items[k + 1];
        }
        var r := [CartLine(items[0], ps[items[0].productId])] + rest;
        forall i, j | 0 <= i < j < |r| ensures r[i].item.id < r[j].item.id {
          assert r[j] == rest[j - 1];
          assert rest[j - 1] in rest;
          if i > 0 { assert r[i] == rest[i - 1]; }
        }
      }
    }
  }
}
