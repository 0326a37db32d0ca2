/** The shop page (frontend/src/pages/Shop.jsx): its filter object, the
    query string it sends to the product listing, and how each response
    replaces or extends the list shown. */
module Shop {
  import opened Common
  import Text
  import opened Models
  import Catalog

  /** A JavaScript object with string values, as its entries in insertion
      order (the order `Object.keys` visits them). */
  type Entries = seq<(string, string)>

  function Keys(f: Entries): (ks: seq<string>)
    ensures |ks| == |f|
    ensures forall i :: 0 <= i < |f| ==> ks[i] == f[i].0
  {
    if f == [] then [] else [f[0].0] + Keys(f[1..])
  }

  ghost predicate UniqueKeys(f: Entries) {
    forall i, j :: 0 <= i < j < |f| ==> f[i].0 != f[j].0
  }

  /** `f[key]`: the value under `key`, if the object has it. */
  function Lookup(f: Entries, key: string): (r: Option<string>)
    ensures r.Some? ==> (key, r.value) in f
    ensures r.None? <==> key !in Keys(f)
  {
    if f == [] then None
    else if f[0].0 == key then Some(f[0].1)
    else Lookup(f[1..], key)
  }

  /** `{ ...f, [key]: value }`: an existing key keeps its place with the new
      value; a new key goes last. */
  function Assign(f: Entries, key: string, value: string): (r: Entries)
    ensures Lookup(r, key) == Some(value)
    ensures forall k :: k != key ==> Lookup(r, k) == Lookup(f, k)
  {
    if f == [] then [(key, value)]
    else if f[0].0 == key then [(key, value)] + f[1..]
    else [f[0]] + Assign(f[1..], key, value)
  }

  /** The keys keep their order; a new key is added last. */
  lemma {:induction false} AssignKeys(f: Entries, key: string, value: string)
    ensures Keys(Assign(f, key, value)) == if key in Keys(f) then Keys(f) else Keys(f) + [key]
  {
    if f != [] && f[0].0 != key {
      AssignKeys(f[1..], key, value);
      assert Keys(f) == [f[0].0] + Keys(f[1..]);
      assert Keys(Assign(f, key, value)) == [f[0].0] + Keys(Assign(f[1..], key, value));
    }
  }

  /** The keys stay distinct under assignment. */
  lemma AssignKeepsKeysUnique(f: Entries, key: string, value: string)
    requires UniqueKeys(f)
    ensures UniqueKeys(Assign(f, key, value))
  {
    var r := Assign(f, key, value);
    AssignKeys(f, key, value);
    forall i, j | 0 <= i < j < |r| ensures r[i].0 != r[j].0 {
      assert Keys(r)[i] == r[i].0 && Keys(r)[j] == r[j].0;
      if key !in Keys(f) && j == |f| {
        assert Keys(f)[i] == f[i].0;
      } else {
        assert Keys(f)[i] == f[i].0 && Keys(f)[j] == f[j].0;
      }
    }
  }

  /** The filter object the page starts from and `clearFilters` restores. */
  const DefaultFilters: Entries :=
    [("category", ""), ("minPrice", ""), ("maxPrice", ""), ("minRating", ""), ("search", ""), ("sortBy", "name")]

  const PageSize: nat := 12

  /** The entries whose value is truthy, that is non-empty, in order. */
  function NonEmpty(f: Entries): (r: Entries)
    ensures |r| <= |f|
  {
    if f == [] then []
    else if f[0].1 != "" then [f[0]] + NonEmpty(f[1..])
    else NonEmpty(f[1..])
  }

  /** A filter is sent exactly when it has a non-empty value. */
  lemma {:induction false} NonEmptyExact(f: Entries, e: (string, string))
    ensures e in NonEmpty(f) <==> e in f && e.1 != ""
  {
    if f != [] {
      NonEmptyExact(f[1..], e);
    }
  }

  /** The query string `fetchProducts` sends, as its entries. */
  function Params(f: Entries, page: nat): Entries {
    NonEmpty(f) + [("page", Text.Decimal(page)), ("limit", Text.Decimal(PageSize))]
  }

  /** The `forEach` over the filter keys, then `page` and `limit`. */
  method BuildParams(f: Entries, page: nat) returns (params: Entries)
    ensures params == Params(f, page)
    ensures |params| == |NonEmpty(f)| + 2
    ensures params[|params| - 1] == ("limit", "12")
  {
    params := [];
    for i := 0 to |f|
      invariant params + NonEmpty(f[i..]) == NonEmpty(f)
    {
      assert f[i..] == [f[i]] + f[i + 1..];
      if f[i].1 != "" {
        params := params + [f[i]];
      }
    }
    assert f[|f|..] == [];
    params := params + [("page", Text.Decimal(page)), ("limit", Text.Decimal(PageSize))];
    assert Text.Decimal(1) == "1";
    assert Text.Decimal(PageSize) == Text.Decimal(1) + "2" == "12";
  }

  /** With the default filters only the sort order and the paging go out. */
  lemma DefaultParams(page: nat)
    ensures Params(DefaultFilters, page) == [("sortBy", "name"), ("page", Text.Decimal(page)), ("limit", Text.Decimal(PageSize))]
  {
  }

  /** `Array.isArray(data) ? data : data.products || []`. */
  function Fetched(body: Catalog.ProductsBody): seq<map<string, Json>>
    requires !body.FetchFailed?
  {
    match body
    case ArrayBody(items) => items
    case ObjectBody(products, _) => products.GetOr([])
  }

  /** `data.has_more ?? false`; an array has no such property. */
  function HasMore(body: Catalog.ProductsBody): bool
    requires !body.FetchFailed?
  {
    body.ObjectBody? && body.hasMore.GetOr(false)
  }

  /** The listing's own responses are read back unchanged. */
  lemma ReadsListingResponse(r: Catalog.ProductsPage)
    ensures Fetched(Catalog.ResponseBody(r)) == r.products
    ensures HasMore(Catalog.ResponseBody(r)) == r.hasMore
  {
  }

  class ShopPage {
    var filters: Entries
    var page: nat
    var products: seq<map<string, Json>>
    var hasMore: bool
    var loading: bool

    ghost predicate Valid()
      reads this
    {
      page >= 1 && UniqueKeys(filters)
    }

    constructor ()
      ensures Valid()
      ensures filters == DefaultFilters && page == 1 && products == [] && hasMore && loading
    {
      filters := DefaultFilters;
      page := 1;
      products := [];
      hasMore := true;
      loading := true;
    }

    /** `fetchProducts`, given what the request returns: the first page
        replaces the list, a later one is appended after it; a failed
        request or unreadable body leaves list and flag as they were. */
    method FetchProducts(body: Catalog.ProductsBody) returns (params: Entries)
      requires Valid()
      modifies this`products, this`hasMore, this`loading
      ensures Valid() && !loading
      ensures params == Params(filters, page)
      ensures body.FetchFailed? ==> products == old(products) && hasMore == old(hasMore)
      ensures !body.FetchFailed? ==>
        && products == (if page == 1 then Fetched(body) else old(products) + Fetched(body))
        && hasMore == HasMore(body)
    {
      loading := true;
      params := BuildParams(filters, page);
      if !body.FetchFailed? {
        var fetched := Fetched(body);
        if page == 1 {
          products := fetched;
        } else {
          products := products + fetched;
        }
        hasMore := HasMore(body);
      }
      loading := false;
    }

    /** `handleFilterChange(key, value)`: that key alone changes, and the
        listing goes back to page 1. */
    method HandleFilterChange(key: string, value: string)
      requires Valid()
      modifies this`filters, this`page
      ensures Valid()
      ensures filters == Assign(old(filters), key, value) && page == 1
    {
      AssignKeepsKeysUnique(filters, key, value);
      filters := Assign(filters, key, value);
      page := 1;
    }

    method ClearFilters()
      modifies this`filters, this`page
      ensures Valid()
      ensures filters == DefaultFilters && page == 1
    {
      filters := DefaultFilters;
      page := 1;
    }

    method LoadMore()
      requires Valid()
      modifies this`page
      ensures Valid() && page == old(page) + 1
    {
      page := page + 1;
    }
  }
}
