/** `GET /api/products` and `GET /api/all-products` (backend/app.py): a
    conjunction of optional filters, one sort key chosen by `sortBy`, and
    page/limit slicing, over the products table held as a sequence. */
module Catalog {
  import opened Common
  import opened Text
  import opened Sorting
  import opened Models

  const DefaultPage: int := 1
  const DefaultLimit: int := 12

  /** The query-string arguments after Flask's `type=` conversion; `None` is
      an absent argument (or one that did not convert). */
  datatype Query = Query(
    category: Option<string>,
    minPrice: Option<int>,
    maxPrice: Option<int>,
    minRating: Option<int>,
    search: Option<string>,
    sortBy: Option<string>,
    page: Option<int>,
    limit: Option<int>)

  /** Python truthiness of a text argument: absent and empty both mean "no filter". */
  predicate Given(o: Option<string>) {
    o.Some? && o.value != ""
  }

  /** The `WHERE` clause: every supplied filter holds. The category filter
      is an inner join, so it also drops products without a category. */
  predicate Matches(cs: seq<Category>, q: Query, p: Product) {
    && (Given(q.category) ==>
          CategoryOf(cs, p).Some? && ContainsIgnoringCase(CategoryOf(cs, p).value.name, q.category.value))
    && (q.minPrice.Some? ==> p.price >= q.minPrice.value)
    && (q.maxPrice.Some? ==> p.price <= q.maxPrice.value)
    && (q.minRating.Some? ==> p.rating.Some? && p.rating.value >= q.minRating.value)
    && (Given(q.search) ==> ContainsIgnoringCase(p.name, q.search.value))
  }

  /** The rows the filters keep, in table order, each as often as in the table. */
  function Filter(ps: seq<Product>, cs: seq<Category>, q: Query): (r: seq<Product>)
    ensures |r| <= |ps|
    ensures forall p :: multiset(r)[p] == if Matches(cs, q, p) then multiset(ps)[p] else 0
  {
    if ps == [] then []
    else
      assert ps == [ps[0]] + ps[1..];
      if Matches(cs, q, ps[0]) then [ps[0]] + Filter(ps[1..], cs, q) else Filter(ps[1..], cs, q)
  }

  function SortKey(q: Query): string {
    q.sortBy.GetOr("name")
  }

  /** `rating DESC` as SQLite orders it: NULL sorts below every number, so
      unrated products come last. */
  predicate RatedAtLeast(a: Option<int>, b: Option<int>) {
    b.None? || (a.Some? && a.value >= b.value)
  }

  /** The `ORDER BY` chosen by `sortBy`: any value other than the three
      named ones sorts by name. */
  function Order(sortBy: string): (Product, Product) -> bool {
    if sortBy == "price-low" then (a: Product, b: Product) => a.price <= b.price
    else if sortBy == "price-high" then (a: Product, b: Product) => a.price >= b.price
    else if sortBy == "rating" then (a: Product, b: Product) => RatedAtLeast(a.rating, b.rating)
    else (a: Product, b: Product) => LexLe(a.name, b.name)
  }

  lemma OrderIsTotalPreorder(sortBy: string)
    ensures TotalPreorder(Order(sortBy))
  {
    if sortBy != "price-low" && sortBy != "price-high" && sortBy != "rating" {
      forall a: Product, b: Product ensures Order(sortBy)(a, b) || Order(sortBy)(b, a) {
        LexLeTotal(a.name, b.name);
      }
      forall a: Product, b: Product, c: Product | Order(sortBy)(a, b) && Order(sortBy)(b, c)
        ensures Order(sortBy)(a, c)
      {
        LexLeTransitive(a.name, b.name, c.name);
      }
    }
  }

  /** Under the default name order, two products tie only when their names
      are equal, so the stable sort's choice among ties only ever orders
      products of the same name. */
  lemma NameOrderTiesOnlyEqualNames(a: Product, b: Product)
    requires Order("name")(a, b) && Order("name")(b, a)
    ensures a.name == b.name
  {
    LexLeAntisymmetric(a.name, b.name);
  }

  /** Flask-SQLAlchemy's `paginate` is only modelled for page >= 1 and limit >= 1. */
  predicate WellFormed(q: Query) {
    (q.page.None? || q.page.value >= 1) && (q.limit.None? || q.limit.value >= 1)
  }

  function PageOf(q: Query): int { q.page.GetOr(DefaultPage) }

  function LimitOf(q: Query): int { q.limit.GetOr(DefaultLimit) }

  /** Where a page starts: `(page - 1) * limit`. */
  function Offset(page: int, limit: int): (start: nat)
    requires page >= 1 && limit >= 1
  {
    MulMonotone(0, page - 1, limit);
    (page - 1) * limit
  }

  /** At most `limit` rows of `s` from `start` on, as far as they exist. */
  function Window<T>(s: seq<T>, start: nat, limit: nat): (r: seq<T>)
    ensures |r| <= limit
    ensures forall i :: 0 <= i < |r| ==> start + i < |s| && r[i] == s[start + i]
    ensures |r| == if start >= |s| then 0 else if start + limit <= |s| then limit else |s| - start
  {
    if start >= |s| then [] else s[start..if start + limit <= |s| then start + limit else |s|]
  }

  lemma WindowHas<T>(s: seq<T>, start: nat, limit: nat, k: nat)
    requires start <= k < start + limit && k < |s|
    ensures s[k] in Window(s, start, limit)
  {
    assert Window(s, start, limit)[k - start] == s[k];
  }

  lemma WindowSorted<T>(s: seq<T>, start: nat, limit: nat, le: (T, T) -> bool)
    requires Sorted(s, le)
    ensures Sorted(Window(s, start, limit), le)
  {
    var r := Window(s, start, limit);
    forall i, j | 0 <= i < j < |r| ensures le(r[i], r[j]) {
      assert r[i] == s[start + i] && r[j] == s[start + j];
    }
  }

  /** `paginate(...).pages`: ceil(total / limit), and 0 for no rows. */
  function PageCount(total: nat, limit: int): (n: nat)
    requires limit >= 1
    ensures n == 0 <==> total == 0
    ensures n > 0 ==> (n - 1) * limit < total <= n * limit
  {
    var n := (total + limit - 1) / limit;
    assert n * limit <= total + limit - 1 < n * limit + limit;
    n
  }

  /** `has_next` is `page < pages`, which is "some row lies past this page". */
  lemma HasNextIff(page: int, limit: int, total: nat)
    requires page >= 1 && limit >= 1
    ensures page < PageCount(total, limit) <==> page * limit < total
  {
    var n := PageCount(total, limit);
    assert n * limit <= total + limit - 1 < (n + 1) * limit;
    if page < n {
      assert page + 1 <= n;
      MulMonotone(page + 1, n, limit);
    } else {
      MulMonotone(n, page, limit);
    }
  }

  lemma MulMonotone(a: int, b: int, k: int)
    requires a <= b && k >= 1
    ensures a * k <= b * k
  {
  }

  /** The whole filtered table in the order `sortBy` asks for. */
  function Ordered(ps: seq<Product>, cs: seq<Category>, q: Query): (r: seq<Product>)
    ensures Sorted(r, Order(SortKey(q)))
    ensures forall p :: p in r <==> p in ps && Matches(cs, q, p)
    ensures |r| == |Filter(ps, cs, q)|
  {
    OrderIsTotalPreorder(SortKey(q));
    var matching := Filter(ps, cs, q);
    var r := SortBy(matching, Order(SortKey(q)));
    assert forall p :: p in r <==> p in multiset(matching);
    assert |r| == |multiset(r)| == |multiset(matching)| == |matching|;
    r
  }

  /** The product rows of the requested page, after filtering and ordering. */
  function Results(ps: seq<Product>, cs: seq<Category>, q: Query): (r: seq<Product>)
    requires WellFormed(q)
    ensures |r| <= LimitOf(q)
    ensures forall p :: p in r ==> p in ps && Matches(cs, q, p)
    ensures Sorted(r, Order(SortKey(q)))
    ensures var start := Offset(PageOf(q), LimitOf(q));
      && |r| == (if start >= |Ordered(ps, cs, q)| then 0 else if start + LimitOf(q) <= |Ordered(ps, cs, q)| then LimitOf(q) else |Ordered(ps, cs, q)| - start)
      && forall i :: 0 <= i < |r| ==> start + i < |Ordered(ps, cs, q)| && r[i] == Ordered(ps, cs, q)[start + i]
  {
    var sorted := Ordered(ps, cs, q);
    WindowSorted(sorted, Offset(PageOf(q), LimitOf(q)), LimitOf(q), Order(SortKey(q)));
    Window(sorted, Offset(PageOf(q), LimitOf(q)), LimitOf(q))
  }

  /** Every product the filters keep is on some page. */
  lemma {:induction false} MatchingProductIsListed(ps: seq<Product>, cs: seq<Category>, q: Query, p: Product)
    requires WellFormed(q)
    requires p in ps && Matches(cs, q, p)
    ensures exists page :: page >= 1 && p in Results(ps, cs, q.(page := Some(page)))
  {
    var sorted := Ordered(ps, cs, q);
    var k :| 0 <= k < |sorted| && sorted[k] == p;
    var limit := LimitOf(q);
    var page := PageContaining(k, limit);
    var q' := q.(page := Some(page));
    var start := Offset(page, limit);
    FilterIgnoresPage(ps, cs, q, page);
    assert Ordered(ps, cs, q') == sorted;
    WindowHas(sorted, start, limit, k);
    assert Window(sorted, start, limit) == Results(ps, cs, q');
  }

  lemma {:induction false} FilterIgnoresPage(ps: seq<Product>, cs: seq<Category>, q: Query, page: int)
    ensures Filter(ps, cs, q.(page := Some(page))) == Filter(ps, cs, q)
  {
    if ps != [] {
      FilterIgnoresPage(ps[1..], cs, q, page);
    }
  }

  /** Row `k` of the ordered list lies on page `k / limit + 1`. */
  lemma PageContaining(k: nat, limit: int) returns (page: int)
    requires limit >= 1
    ensures page >= 1 && Offset(page, limit) <= k < Offset(page, limit) + limit
  {
    page := k / limit + 1;
    assert Offset(page, limit) == (k / limit) * limit;
  }

  datatype ProductsPage = ProductsPage(products: seq<map<string, Json>>, page: int, total: nat, pages: nat, hasMore: bool)

  function ToDicts(cs: seq<Category>, ps: seq<Product>): (ds: seq<map<string, Json>>)
    ensures |ds| == |ps| && forall i :: 0 <= i < |ps| ==> ds[i] == ProductToDict(cs, ps[i])
  {
    seq(|ps|, i requires 0 <= i < |ps| => ProductToDict(cs, ps[i]))
  }

  /** Each dictionary in the list comes from some listed row. */
  lemma ToDictsFromRows(cs: seq<Category>, ps: seq<Product>, d: map<string, Json>) returns (p: Product)
    requires d in ToDicts(cs, ps)
    ensures p in ps && d == ProductToDict(cs, p)
  {
    var ds := ToDicts(cs, ps);
    var i :| 0 <= i < |ds| && ds[i] == d;
    p := ps[i];
  }

  /** `get_products`: the page's dictionaries plus the counts the client pages with. */
  function GetProducts(ps: seq<Product>, cs: seq<Category>, q: Query): (r: ProductsPage)
    requires WellFormed(q)
    ensures r.page == PageOf(q)
    ensures r.total == |Filter(ps, cs, q)|
    ensures r.hasMore <==> PageOf(q) * LimitOf(q) < r.total
    ensures |r.products| <= LimitOf(q)
    ensures forall d :: d in r.products ==> exists p :: p in ps && Matches(cs, q, p) && d == ProductToDict(cs, p)
    ensures r.products == ToDicts(cs, Results(ps, cs, q))
    ensures r.pages == PageCount(r.total, LimitOf(q))
  {
    var matching := Filter(ps, cs, q);
    var pages := PageCount(|matching|, LimitOf(q));
    HasNextIff(PageOf(q), LimitOf(q), |matching|);
    var rows := Results(ps, cs, q);
    var dicts := ToDicts(cs, rows);
    forall d | d in dicts ensures exists p :: p in ps && Matches(cs, q, p) && d == ProductToDict(cs, p) {
      var p := ToDictsFromRows(cs, rows, d);
    }
    ProductsPage(dicts, PageOf(q), |matching|, pages, PageOf(q) < pages)
  }

  /** The products whose (undeclared) `featured` flag is set, in table order. */
  function FeaturedRows(ps: seq<Product>, featured: set<int>): (r: seq<Product>)
    ensures forall p :: p in r <==> p in ps && p.id in featured
  {
    if ps == [] then []
    else if ps[0].id in featured then [ps[0]] + FeaturedRows(ps[1..], featured)
    else FeaturedRows(ps[1..], featured)
  }

  /** The featured rows keep their table order. */
  lemma {:induction false} FeaturedRowsKeepTableOrder(ps: seq<Product>, featured: set<int>)
    ensures Subsequence(FeaturedRows(ps, featured), ps)
  {
    if ps != [] {
      FeaturedRowsKeepTableOrder(ps[1..], featured);
      if ps[0].id !in featured {
        SubsequenceOfTail(FeaturedRows(ps[1..], featured), ps);
      }
    }
  }

  datatype CombinedPage = CombinedPage(featured: seq<map<string, Json>>, shop: ProductsPage)

  /** `get_all_products_combined`: the same filter, sort and page code as
      `get_products`, repeated in the route, plus the featured list.
      `featured` is the set of product ids whose `featured` attribute is true. */
  function GetAllProductsCombined(ps: seq<Product>, cs: seq<Category>, featured: set<int>, q: Query): (r: CombinedPage)
    requires WellFormed(q)
    ensures r.shop == GetProducts(ps, cs, q)
    ensures forall d :: d in r.featured ==> exists p :: p in ps && p.id in featured && d == ProductToDict(cs, p)
    ensures forall p :: p in ps && p.id in featured ==> ProductToDict(cs, p) in r.featured
    ensures r.featured == ToDicts(cs, FeaturedRows(ps, featured))
  {
    var starred := FeaturedRows(ps, featured);
    var featuredDicts := ToDicts(cs, starred);
    forall d | d in featuredDicts ensures exists p :: p in ps && p.id in featured && d == ProductToDict(cs, p) {
      var p := ToDictsFromRows(cs, starred, d);
    }
    forall p | p in ps && p.id in featured ensures ProductToDict(cs, p) in featuredDicts {
      var k :| 0 <= k < |starred| && starred[k] == p;
      assert featuredDicts[k] == ProductToDict(cs, p);
    }
    OrderIsTotalPreorder(SortKey(q));
    var matching := Filter(ps, cs, q);
    var rows := Window(SortBy(matching, Order(SortKey(q))), Offset(PageOf(q), LimitOf(q)), LimitOf(q));
    var pages := PageCount(|matching|, LimitOf(q));
    CombinedPage(featuredDicts, ProductsPage(ToDicts(cs, rows), PageOf(q), |matching|, pages, PageOf(q) < pages))
  }

  /** What the browser's `res.json()` yields for a products request. */
  datatype ProductsBody =
    | FetchFailed
    | ArrayBody(items: seq<map<string, Json>>)
    | ObjectBody(products: Option<seq<map<string, Json>>>, hasMore: Option<bool>)

  /** The body `jsonify` writes for a `get_products` page. */
  function ResponseBody(r: ProductsPage): ProductsBody {
    ObjectBody(Some(r.products), Some(r.hasMore))
  }
}
