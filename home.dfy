/** The home page (frontend/src/pages/Home.jsx): the hero carousel's
    index, and the featured products it picks from the product listing. */
module Home {
  import opened Common
  import opened Models
  import opened Sorting
  import Catalog

  const SlideCount: nat := 3
  const FeaturedLimit: nat := 8

  /** The five-second step `(prev + 1) % slides.length`. */
  function NextSlide(i: nat): (r: nat)
    ensures r < SlideCount
    ensures i < SlideCount - 1 ==> r == i + 1
    ensures i == SlideCount - 1 ==> r == 0
  {
    (i + 1) % SlideCount
  }

  /** Three steps from any slide come back to it. */
  lemma CarouselCycles(i: nat)
    requires i < SlideCount
    ensures NextSlide(NextSlide(NextSlide(i))) == i
    ensures NextSlide(i) != i
  {
  }

  /** `filter((p) => p.featured)`: the products whose `featured` is truthy, in order. */
  function FeaturedOnly(items: seq<map<string, Json>>): (r: seq<map<string, Json>>)
    ensures |r| <= |items|
    ensures forall p :: p in r ==> p in items && TruthyField(p, "featured")
  {
    if items == [] then []
    else if TruthyField(items[0], "featured") then [items[0]] + FeaturedOnly(items[1..])
    else FeaturedOnly(items[1..])
  }

  /** Every featured product passes the filter. */
  lemma {:induction false} FeaturedOnlyComplete(items: seq<map<string, Json>>, p: map<string, Json>)
    requires p in items && TruthyField(p, "featured")
    ensures p in FeaturedOnly(items)
  {
    if items[0] != p {
      FeaturedOnlyComplete(items[1..], p);
    }
  }

  lemma {:induction false} FeaturedOnlyKeepsOrder(items: seq<map<string, Json>>)
    ensures Subsequence(FeaturedOnly(items), items)
  {
    if items != [] {
      FeaturedOnlyKeepsOrder(items[1..]);
      var rest := FeaturedOnly(items[1..]);
      if !TruthyField(items[0], "featured") {
        SubsequenceOfTail(rest, items);
      }
    }
  }

  /** `filter(...).slice(0, 8)`. */
  function Featured(items: seq<map<string, Json>>): seq<map<string, Json>> {
    var all := FeaturedOnly(items);
    if |all| <= FeaturedLimit then all else all[..FeaturedLimit]
  }

  /** At most eight products, each featured, in listing order; when there
      are no more than eight featured products, all of them. */
  lemma FeaturedSelection(items: seq<map<string, Json>>)
    ensures |Featured(items)| <= FeaturedLimit
    ensures forall p :: p in Featured(items) ==> p in items && TruthyField(p, "featured")
    ensures Subsequence(Featured(items), items)
    ensures |FeaturedOnly(items)| <= FeaturedLimit ==>
      forall p :: p in items && TruthyField(p, "featured") ==> p in Featured(items)
  {
    var all := FeaturedOnly(items);
    FeaturedOnlyKeepsOrder(items);
    if |all| > FeaturedLimit {
      PrefixIsSubsequence(all, items, FeaturedLimit);
      forall p | p in all[..FeaturedLimit] ensures p in all {
        var k :| 0 <= k < FeaturedLimit && all[..FeaturedLimit][k] == p;
        assert all[k] == p;
      }
    } else {
      forall p | p in items && TruthyField(p, "featured") ensures p in Featured(items) {
        FeaturedOnlyComplete(items, p);
      }
    }
  }

  /** The listing's dictionaries carry no `featured` key, so none is featured. */
  lemma ListingHasNoFeatured(cs: seq<Category>, ps: seq<Product>)
    ensures var ds := seq(|ps|, i requires 0 <= i < |ps| => ProductToDict(cs, ps[i]));
      Featured(ds) == []
  {
    var ds := seq(|ps|, i requires 0 <= i < |ps| => ProductToDict(cs, ps[i]));
    forall d | d in ds ensures "featured" !in d {
      var k :| 0 <= k < |ds| && ds[k] == d;
    }
    NoFlagNoneFeatured(ds);
  }

  /** Products without a `featured` key are all filtered out. */
  lemma {:induction false} NoFlagNoneFeatured(items: seq<map<string, Json>>)
    requires forall d :: d in items ==> "featured" !in d
    ensures FeaturedOnly(items) == []
  {
    if items != [] {
      NoFlagNoneFeatured(items[1..]);
    }
  }

  class HomePage {
    var featuredProducts: seq<map<string, Json>>
    var categories: seq<map<string, Json>>
    var currentSlide: nat
    var loading: bool

    ghost predicate Valid()
      reads this
    {
      currentSlide < SlideCount && |featuredProducts| <= FeaturedLimit
    }

    constructor ()
      ensures Valid()
      ensures featuredProducts == [] && categories == [] && currentSlide == 0 && loading
    {
      featuredProducts, categories, currentSlide, loading := [], [], 0, true;
    }

    /** `fetchData`, given the two response bodies (`None` for a request or
        a body that fails). Only an array body has `.filter`; anything else
        throws, and the catch leaves both lists as they were. */
    method FetchData(productsBody: Catalog.ProductsBody, categoriesBody: Option<seq<map<string, Json>>>)
      requires Valid()
      modifies this`featuredProducts, this`categories, this`loading
      ensures Valid() && !loading
      ensures productsBody.ArrayBody? && categoriesBody.Some? ==>
        featuredProducts == Featured(productsBody.items) && categories == categoriesBody.value
      ensures !(productsBody.ArrayBody? && categoriesBody.Some?) ==>
        featuredProducts == old(featuredProducts) && categories == old(categories)
    {
      loading := true;
      if productsBody.ArrayBody? && categoriesBody.Some? {
        FeaturedSelection(productsBody.items);
        featuredProducts := Featured(productsBody.items);
        categories := categoriesBody.value;
      }
      loading := false;
    }

    /** The interval tick. */
    method Tick()
      requires Valid()
      modifies this`currentSlide
      ensures Valid()
      ensures currentSlide == NextSlide(old(currentSlide))
    {
      currentSlide := NextSlide(currentSlide);
    }

    /** Clicking the dot at `index`; one dot is drawn per slide. */
    method SelectDot(index: nat)
      requires Valid() && index < SlideCount
      modifies this`currentSlide
      ensures Valid() && currentSlide == index
    {
      currentSlide := index;
    }
  }

  /** A page of the product listing is an object, not an array: the home
      page's fetch takes its failure path and shows nothing new. */
  lemma ListingBodyIsNotAnArray(r: Catalog.ProductsPage)
    ensures !Catalog.ResponseBody(r).ArrayBody?
  {
  }
}
