/** The product page (frontend/src/pages/ProductDetail.jsx): the quantity
    selector, the product and review queries, the wishlist toggle and the
    review form. */
module ProductDetail {
  import opened Common
  import Sorting
  import Cart
  import Wishlist

  /** The minus button: `Math.max(1, quantity - 1)`. */
  function StepDown(q: int): (r: int)
    ensures r >= 1
    ensures q > 1 ==> r == q - 1
    ensures q <= 1 ==> r == 1
  {
    if q - 1 > 1 then q - 1 else 1
  }

  /** Typing: `Math.max(1, parseInt(value) || 1)`; `parsed` is what
      `parseInt` gives, `None` for no number. */
  function Typed(parsed: Option<int>): (r: int)
    ensures r >= 1
    ensures parsed.Some? && parsed.value >= 1 ==> r == parsed.value
    ensures parsed.None? || parsed.value < 1 ==> r == 1
  {
    var n := if parsed.None? || parsed.value == 0 then 1 else parsed.value;
    if n > 1 then n else 1
  }

  /** The plus button: `Math.min(product.stock, quantity + 1)`. */
  function StepUp(q: int, stock: int): (r: int)
    ensures r <= stock && r <= q + 1
    ensures r == q + 1 || r == stock
  {
    if stock < q + 1 then stock else q + 1
  }

  /** Starting from 1 and pressing only minus or plus, the quantity stays
      between 1 and the stock while there is any; with no stock, plus drops
      it to 0. */
  lemma StepsStayInRange(q: int, stock: int)
    requires 1 <= q <= stock
    ensures 1 <= StepDown(q) <= stock
    ensures 1 <= StepUp(q, stock) <= stock
  {
  }

  lemma EmptyStockStepsToZero(q: int)
    requires q >= 0
    ensures StepUp(q, 0) == 0
  {
  }

  /** `disabled={product.stock === 0}`. */
  function AddToCartEnabled(p: Cart.Product): bool {
    p.stock != 0
  }

  datatype Review = Review(id: nat, productId: nat, userId: nat, rating: int, comment: string, createdAt: int)

  /** `.eq('slug', slug).maybeSingle()`: the row when exactly one matches;
      none, or more than one (an error), gives no data. */
  function BySlug(catalog: seq<Cart.Product>, slug: string): (r: Option<Cart.Product>)
    ensures r.Some? ==> r.value in catalog && r.value.slug == slug
    ensures r.Some? ==> |Matching(catalog, slug)| == 1
    ensures r.None? ==> |Matching(catalog, slug)| != 1
  {
    var m := Matching(catalog, slug);
    if |m| == 1 then Some(m[0]) else None
  }

  function Matching(catalog: seq<Cart.Product>, slug: string): (r: seq<Cart.Product>)
    ensures forall p :: p in r ==> p in catalog && p.slug == slug
  {
    if catalog == [] then []
    else if catalog[0].slug == slug then [catalog[0]] + Matching(catalog[1..], slug)
    else Matching(catalog[1..], slug)
  }

  /** A slug carried by exactly one product finds that product. */
  lemma {:induction false} UniqueSlugFound(catalog: seq<Cart.Product>, p: Cart.Product)
    requires p in catalog
    requires forall q :: q in catalog && q.slug == p.slug ==> q == p
    requires forall i, j :: 0 <= i < j < |catalog| ==> catalog[i] != catalog[j]
    ensures BySlug(catalog, p.slug) == Some(p)
  {
    SingleMatch(catalog, p);
  }

  lemma {:induction false} SingleMatch(catalog: seq<Cart.Product>, p: Cart.Product)
    requires p in catalog
    requires forall q :: q in catalog && q.slug == p.slug ==> q == p
    requires forall i, j :: 0 <= i < j < |catalog| ==> catalog[i] != catalog[j]
    ensures Matching(catalog, p.slug) == [p]
  {
    if catalog[0] == p {
      assert forall q :: q in catalog[1..] ==> q != p by {
        forall q | q in catalog[1..] ensures q != p {
          var j :| 0 <= j < |catalog[1..]| && catalog[1..][j] == q;
          assert catalog[0] != catalog[j + 1];
        }
      }
      NoMatch(catalog[1..], p.slug);
    } else {
      SingleMatch(catalog[1..], p);
    }
  }

  lemma {:induction false} NoMatch(catalog: seq<Cart.Product>, slug: string)
    requires forall q :: q in catalog ==> q.slug != slug
    ensures Matching(catalog, slug) == []
  {
    if catalog != [] {
      NoMatch(catalog[1..], slug);
    }
  }

  /** `.eq('category_id', c).neq('id', id)`, in table order. */
  function SameCategory(catalog: seq<Cart.Product>, p: Cart.Product): (r: seq<Cart.Product>)
    ensures |r| <= |catalog|
    ensures forall q :: q in r ==> q in catalog && q.categoryId == p.categoryId && q.id != p.id
  {
    if catalog == [] then []
    else if catalog[0].categoryId == p.categoryId && catalog[0].id != p.id then [catalog[0]] + SameCategory(catalog[1..], p)
    else SameCategory(catalog[1..], p)
  }

  const RelatedLimit: nat := 4

  /** The related-products query, with `.limit(4)`. */
  function Related(catalog: seq<Cart.Product>, p: Cart.Product): (r: seq<Cart.Product>)
    ensures |r| <= RelatedLimit
    ensures forall q :: q in r ==> q in catalog && q.categoryId == p.categoryId && q.id != p.id
  {
    var all := SameCategory(catalog, p);
    if |all| <= RelatedLimit then all else all[..RelatedLimit]
  }

  /** Every other product of the category is found by the query. */
  lemma {:induction false} SameCategoryComplete(catalog: seq<Cart.Product>, p: Cart.Product, q: Cart.Product)
    requires q in catalog && q.categoryId == p.categoryId && q.id != p.id
    ensures q in SameCategory(catalog, p)
  {
    if catalog[0] != q {
      SameCategoryComplete(catalog[1..], p, q);
    }
  }

  /** With four or fewer other products in the category, all of them are shown. */
  lemma RelatedComplete(catalog: seq<Cart.Product>, p: Cart.Product, q: Cart.Product)
    requires |SameCategory(catalog, p)| <= RelatedLimit
    requires q in catalog && q.categoryId == p.categoryId && q.id != p.id
    ensures q in Related(catalog, p)
  {
    SameCategoryComplete(catalog, p, q);
  }

  /** `.order('created_at', { ascending: false })`. */
  function NewestFirst(a: Review, b: Review): bool {
    a.createdAt >= b.createdAt
  }

  lemma NewestFirstIsTotalPreorder()
    ensures Sorting.TotalPreorder(NewestFirst)
  {
  }

  function Of(reviews: seq<Review>, productId: nat): (r: seq<Review>)
    ensures forall v :: v in r ==> v in reviews && v.productId == productId
  {
    if reviews == [] then []
    else if reviews[0].productId == productId then [reviews[0]] + Of(reviews[1..], productId)
    else Of(reviews[1..], productId)
  }

  /** Every review of the product is selected. */
  lemma {:induction false} OfComplete(reviews: seq<Review>, productId: nat, v: Review)
    requires v in reviews && v.productId == productId
    ensures v in Of(reviews, productId)
  {
    if reviews[0] != v {
      OfComplete(reviews[1..], productId, v);
    }
  }

  /** The reviews query: the product's reviews, newest first. */
  function ReviewsOf(reviews: seq<Review>, productId: nat): (r: seq<Review>)
    ensures forall v :: v in r ==> v in reviews && v.productId == productId
    ensures forall i, j :: 0 <= i < j < |r| ==> r[i].createdAt >= r[j].createdAt
    ensures multiset(r) == multiset(Of(reviews, productId))
  {
    NewestFirstIsTotalPreorder();
    var r := Sorting.SortBy(Of(reviews, productId), NewestFirst);
    assert forall v :: v in r ==> v in Of(reviews, productId) by {
      forall v | v in r ensures v in Of(reviews, productId) {
        assert v in multiset(r);
      }
    }
    r
  }

  /** The page lists every review of the product, and only those. */
  lemma ReviewsOfExact(reviews: seq<Review>, productId: nat, v: Review)
    ensures v in ReviewsOf(reviews, productId) <==> v in reviews && v.productId == productId
  {
    if v in reviews && v.productId == productId {
      OfComplete(reviews, productId, v);
      assert v in multiset(Of(reviews, productId));
    }
  }

  /** The hosted `reviews` table. */
  class ReviewTable {
    var rows: seq<Review>
    var nextId: nat

    constructor (rows: seq<Review>, nextId: nat)
      ensures this.rows == rows && this.nextId == nextId
    {
      this.rows, this.nextId := rows, nextId;
    }
  }

  class DetailPage {
    var product: Option<Cart.Product>
    var relatedProducts: seq<Cart.Product>
    var reviews: seq<Review>
    var quantity: int
    var loading: bool
    var newRating: int
    var newComment: string
    var submittingReview: bool

    constructor ()
      ensures product.None? && relatedProducts == [] && reviews == [] && quantity == 1 && loading
      ensures newRating == 5 && newComment == "" && !submittingReview
    {
      product, relatedProducts, reviews := None, [], [];
      quantity, loading := 1, true;
      newRating, newComment, submittingReview := 5, "", false;
    }

    /** `fetchProduct` for `slug`. When no single product has the slug,
        nothing but `loading` changes (the previous product stays). The two
        follow-up queries succeed or not as `relatedOk` and `reviewsOk` say. */
    method FetchProduct(slug: string, catalog: seq<Cart.Product>, board: ReviewTable, relatedOk: bool, reviewsOk: bool)
      modifies this`product, this`relatedProducts, this`reviews, this`loading
      ensures !loading
      ensures BySlug(catalog, slug).None? ==>
        product == old(product) && relatedProducts == old(relatedProducts) && reviews == old(reviews)
      ensures BySlug(catalog, slug).Some? ==>
        && product == BySlug(catalog, slug)
        && relatedProducts == (if relatedOk then Related(catalog, product.value) else old(relatedProducts))
        && reviews == (if reviewsOk then ReviewsOf(board.rows, product.value.id) else old(reviews))
    {
      loading := true;
      var found := BySlug(catalog, slug);
      if found.Some? {
        product := found;
        if relatedOk {
          relatedProducts := Related(catalog, found.value);
        }
        if reviewsOk {
          reviews := ReviewsOf(board.rows, found.value.id);
        }
      }
      loading := false;
    }

    /** The quantity buttons and field. */
    method Decrement()
      modifies this`quantity
      ensures quantity == StepDown(old(quantity))
    {
      quantity := StepDown(quantity);
    }

    method Increment()
      requires product.Some?
      modifies this`quantity
      ensures quantity == StepUp(old(quantity), product.value.stock)
    {
      quantity := StepUp(quantity, product.value.stock);
    }

    method TypeQuantity(parsed: Option<int>)
      modifies this`quantity
      ensures quantity == Typed(parsed)
    {
      quantity := Typed(parsed);
    }

    /** `handleAddToCart`: the shown product with the selected quantity. */
    method HandleAddToCart(cart: Cart.CartStore, writeOk: bool, fetchOk: bool)
      requires product.Some? && AddToCartEnabled(product.value)
      requires cart.Valid()
      modifies cart`table, cart`nextId, cart`cartItems, cart`loading
      ensures cart.Valid()
      ensures cart.user.Some? && Cart.FindLine(old(cart.cartItems), product.value.id).None? &&
              writeOk && Cart.FindProduct(cart.catalog, product.value.id).Some? ==>
        cart.table == old(cart.table) + [Cart.Row(old(cart.nextId), cart.user.value, product.value.id, quantity, None)]
      ensures cart.user.Some? && Cart.FindLine(old(cart.cartItems), product.value.id).None? &&
              !(writeOk && Cart.FindProduct(cart.catalog, product.value.id).Some?) ==>
        cart.table == old(cart.table)
      ensures cart.user.Some? && Cart.FindLine(old(cart.cartItems), product.value.id).Some? && writeOk ==>
        var l := Cart.FindLine(old(cart.cartItems), product.value.id).value;
        cart.table == Cart.SetQuantity(old(cart.table), l.row.id, l.row.quantity + quantity)
      ensures cart.user.Some? && Cart.FindLine(old(cart.cartItems), product.value.id).Some? && !writeOk ==>
        cart.table == old(cart.table)
      ensures cart.user.None? ==> cart.table == old(cart.table) && cart.cartItems == old(cart.cartItems)
      ensures cart.user.Some? ==>
        var wrote := writeOk && (Cart.FindLine(old(cart.cartItems), product.value.id).Some? ||
                                 Cart.FindProduct(cart.catalog, product.value.id).Some?);
        && (!wrote ==> cart.cartItems == old(cart.cartItems))
        && (wrote && fetchOk ==> cart.Synced())
        && (wrote && !fetchOk ==> cart.cartItems == old(cart.cartItems))
    {
      if cart.user.None? {
        return;
      }
      var existing := Cart.FindLine(cart.cartItems, product.value.id);
      if existing.Some? {
        cart.Merge(existing.value, quantity, writeOk, fetchOk);
      } else {
        cart.Insert(product.value.id, quantity, writeOk, fetchOk);
      }
    }

    /** `handleWishlistToggle`: remove a saved product, save an unsaved one.
        With both calls succeeding on an up-to-date list, membership flips. */
    method HandleWishlistToggle(w: Wishlist.WishlistStore, writeOk: bool, fetchOk: bool)
      requires product.Some? && w.Valid()
      requires Cart.FindProduct(w.catalog, product.value.id).Some?
      modifies w`table, w`wishlistItems, w`loading
      ensures w.Valid()
      ensures old(w.IsInWishlist(product.value.id)) && w.user.Some? && writeOk ==>
        w.table == Wishlist.DeleteEntries(old(w.table), w.user.value, product.value.id)
      ensures !old(w.IsInWishlist(product.value.id)) && w.user.Some? && writeOk ==>
        w.table == old(w.table) + [Wishlist.Entry(w.user.value, product.value.id)]
      ensures w.user.Some? && writeOk && fetchOk ==>
        w.IsInWishlist(product.value.id) == !old(w.IsInWishlist(product.value.id))
      ensures w.user.None? || !writeOk ==> w.table == old(w.table) && w.wishlistItems == old(w.wishlistItems)
      ensures w.user.Some? && writeOk && !fetchOk ==> w.wishlistItems == old(w.wishlistItems)
    {
      if w.IsInWishlist(product.value.id) {
        w.RemoveFromWishlist(product.value.id, writeOk, fetchOk);
      } else {
        w.AddToWishlist(product.value.id, writeOk, fetchOk);
      }
    }

    /** `handleSubmitReview`: without a user nothing is inserted; after a
        successful insert the form resets to 5 stars and no comment and the
        page refetches. */
    method HandleSubmitReview(user: Option<nat>, board: ReviewTable, ok: bool, now: int,
                              slug: string, catalog: seq<Cart.Product>, relatedOk: bool, reviewsOk: bool)
      requires product.Some?
      modifies board, this`product, this`relatedProducts, this`reviews, this`loading,
               this`newRating, this`newComment, this`submittingReview
      ensures user.None? ==> board.rows == old(board.rows) && newRating == old(newRating) && newComment == old(newComment)
      ensures user.None? ==> product == old(product) && reviews == old(reviews) && submittingReview == old(submittingReview)
      ensures user.Some? && !ok ==> board.rows == old(board.rows) && newRating == old(newRating) && newComment == old(newComment)
      ensures user.Some? ==> !submittingReview
      ensures user.Some? && ok ==>
        && board.rows == old(board.rows) + [Review(old(board.nextId), old(product).value.id, user.value, old(newRating), old(newComment), now)]
        && newRating == 5 && newComment == ""
      ensures user.Some? && ok ==> !loading
      ensures user.Some? && ok && BySlug(catalog, slug).None? ==>
        product == old(product) && relatedProducts == old(relatedProducts) && reviews == old(reviews)
      ensures user.Some? && ok && BySlug(catalog, slug).Some? ==> product == BySlug(catalog, slug)
      ensures user.Some? && ok && BySlug(catalog, slug).Some? && relatedOk ==>
        relatedProducts == Related(catalog, product.value)
      ensures user.Some? && ok && BySlug(catalog, slug).Some? && reviewsOk ==>
        reviews == ReviewsOf(board.rows, product.value.id)
      ensures !(user.Some? && ok) ==>
        product == old(product) && relatedProducts == old(relatedProducts) && reviews == old(reviews) && loading == old(loading)
    {
      if user.None? {
        return;
      }
      submittingReview := true;
      if ok {
        board.rows := board.rows + [Review(board.nextId, product.value.id, user.value, newRating, newComment, now)];
        board.nextId := board.nextId + 1;
        newRating, newComment := 5, "";
        FetchProduct(slug, catalog, board, relatedOk, reviewsOk);
      }
      submittingReview := false;
    }
  }
}
