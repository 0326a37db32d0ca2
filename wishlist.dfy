/** The client's wishlist store (frontend/src/context/WishlistContext.jsx):
    the hosted `wishlist` table, the cached `wishlistItems` and the
    membership test the product pages use. */
module Wishlist {
  import opened Common
  import Cart

  /** A row of `wishlist`: who saved which product. */
  datatype Entry = Entry(userId: nat, productId: nat)

  /** A row of `select *, products (*)`. */
  datatype Saved = Saved(entry: Entry, products: Option<Cart.Product>)

  /** `.eq('user_id', u)` in table order, with each product embedded. */
  function View(table: seq<Entry>, catalog: seq<Cart.Product>, u: nat): (r: seq<Saved>)
    ensures |r| <= |table|
    ensures forall s :: s in r ==> s.entry in table && s.entry.userId == u && s.products == Cart.FindProduct(catalog, s.entry.productId)
  {
    if table == [] then []
    else if table[0].userId == u then [Saved(table[0], Cart.FindProduct(catalog, table[0].productId))] + View(table[1..], catalog, u)
    else View(table[1..], catalog, u)
  }

  /** Every saved entry of `u` shows in `u`'s view. */
  lemma {:induction false} ViewComplete(table: seq<Entry>, catalog: seq<Cart.Product>, u: nat, e: Entry)
    requires e in table && e.userId == u
    ensures exists s :: s in View(table, catalog, u) && s.entry == e
  {
    if table[0] == e {
      assert View(table, catalog, u)[0].entry == e;
    } else {
      ViewComplete(table[1..], catalog, u, e);
    }
  }

  /** `.delete().eq('user_id', u).eq('product_id', p)`: every matching row goes. */
  function DeleteEntries(table: seq<Entry>, u: nat, p: nat): (r: seq<Entry>)
    ensures |r| <= |table|
    ensures forall e :: e in r ==> e in table && e != Entry(u, p)
  {
    if table == [] then []
    else if table[0] == Entry(u, p) then DeleteEntries(table[1..], u, p)
    else [table[0]] + DeleteEntries(table[1..], u, p)
  }

  /** The delete keeps every other row. */
  lemma {:induction false} DeleteEntriesKeepsOthers(table: seq<Entry>, u: nat, p: nat, e: Entry)
    requires e in table && e != Entry(u, p)
    ensures e in DeleteEntries(table, u, p)
  {
    if table[0] != e {
      DeleteEntriesKeepsOthers(table[1..], u, p, e);
    }
  }

  /** Removing a product twice is removing it once. */
  lemma {:induction false} DeleteEntriesIdempotent(table: seq<Entry>, u: nat, p: nat)
    ensures DeleteEntries(DeleteEntries(table, u, p), u, p) == DeleteEntries(table, u, p)
  {
    if table != [] {
      DeleteEntriesIdempotent(table[1..], u, p);
    }
  }

  /** Saving a product and then removing it leaves the table as the
      removal alone would have. */
  lemma {:induction false} RemoveUndoesAdd(table: seq<Entry>, u: nat, p: nat)
    ensures DeleteEntries(table + [Entry(u, p)], u, p) == DeleteEntries(table, u, p)
  {
    if table == [] {
      assert [] + [Entry(u, p)] == [Entry(u, p)];
    } else {
      assert (table + [Entry(u, p)])[1..] == table[1..] + [Entry(u, p)];
      RemoveUndoesAdd(table[1..], u, p);
    }
  }

  /** A product shows in `u`'s view exactly when `u` has a row for it. */
  lemma {:induction false} ShownIffSaved(table: seq<Entry>, catalog: seq<Cart.Product>, u: nat, p: nat)
    ensures (exists s :: s in View(table, catalog, u) && s.entry.productId == p) <==> Entry(u, p) in table
  {
    if Entry(u, p) in table {
      ViewComplete(table, catalog, u, Entry(u, p));
    }
  }

  class WishlistStore {
    /** The hosted `wishlist` table. */
    var table: seq<Entry>
    /** The hosted `products` table, read only. */
    var catalog: seq<Cart.Product>
    var user: Option<nat>
    /** The cached `wishlistItems`. */
    var wishlistItems: seq<Saved>
    var loading: bool

    /** Every row references an existing product (the foreign key the
        `products (*)` embedding follows). */
    ghost predicate Valid()
      reads this
    {
      forall e :: e in table ==> Cart.FindProduct(catalog, e.productId).Some?
    }

    /** The cache shows exactly the signed-in user's rows. */
    ghost predicate Synced()
      reads this
    {
      user.Some? && wishlistItems == View(table, catalog, user.value)
    }

    constructor (table: seq<Entry>, catalog: seq<Cart.Product>)
      requires forall e :: e in table ==> Cart.FindProduct(catalog, e.productId).Some?
      ensures Valid()
      ensures this.table == table && this.catalog == catalog
      ensures user.None? && wishlistItems == [] && !loading
    {
      this.table, this.catalog := table, catalog;
      user, wishlistItems, loading := None, [], false;
    }

    /** `isInWishlist(productId)`, answered from the cache; when the cache
        is up to date the answer is the table's. */
    function IsInWishlist(productId: nat): (r: bool)
      reads this
      ensures Synced() ==> (r <==> Entry(user.value, productId) in table)
    {
      ShownIffSaved(table, catalog, user.GetOr(0), productId);
      exists s :: s in wishlistItems && s.entry.productId == productId
    }

    /** `fetchWishlist`: no user empties the cache; a failed read keeps it. */
    method FetchWishlist(ok: bool)
      requires Valid()
      modifies this`wishlistItems, this`loading
      ensures Valid()
      ensures user.None? ==> wishlistItems == [] && loading == old(loading)
      ensures user.Some? && ok ==> Synced() && !loading
      ensures user.Some? && !ok ==> wishlistItems == old(wishlistItems) && !loading
    {
      if user.None? {
        wishlistItems := [];
        return;
      }
      loading := true;
      if ok {
        wishlistItems := View(table, catalog, user.value);
      }
      loading := false;
    }

    /** A sign-in or sign-out reruns `fetchWishlist`. */
    method SetUser(u: Option<nat>, ok: bool)
      requires Valid()
      modifies this`user, this`wishlistItems, this`loading
      ensures Valid() && user == u
      ensures u.None? ==> wishlistItems == []
      ensures u.Some? && ok ==> Synced()
      ensures u.Some? && !ok ==> wishlistItems == old(wishlistItems)
    {
      user := u;
      FetchWishlist(ok);
    }

    /** `addToWishlist(productId)`: the insert is refused for a product that
        does not exist; a successful insert and refetch shows the product. */
    method AddToWishlist(productId: nat, writeOk: bool, fetchOk: bool)
      requires Valid()
      modifies this`table, this`wishlistItems, this`loading
      ensures Valid()
      ensures var inserted := user.Some? && writeOk && Cart.FindProduct(catalog, productId).Some?;
        && table == (if inserted then old(table) + [Entry(user.value, productId)] else old(table))
        && (!inserted ==> wishlistItems == old(wishlistItems))
        && (inserted && fetchOk ==> Synced() && IsInWishlist(productId))
        && (inserted && !fetchOk ==> wishlistItems == old(wishlistItems))
    {
      if user.None? {
        return;
      }
      if writeOk && Cart.FindProduct(catalog, productId).Some? {
        var e := Entry(user.value, productId);
        table := table + [e];
        FetchWishlist(fetchOk);
      }
    }

    /** `removeFromWishlist(productId)`: without a user, reading `user.id`
        throws before any request, so nothing changes. */
    method RemoveFromWishlist(productId: nat, writeOk: bool, fetchOk: bool)
      requires Valid()
      modifies this`table, this`wishlistItems, this`loading
      ensures Valid()
      ensures var removed := user.Some? && writeOk;
        && table == (if removed then DeleteEntries(old(table), user.value, productId) else old(table))
        && (!removed ==> wishlistItems == old(wishlistItems))
        && (removed && fetchOk ==> Synced() && !IsInWishlist(productId))
        && (removed && !fetchOk ==> wishlistItems == old(wishlistItems))
    {
      if user.None? || !writeOk {
        return;
      }
      table := DeleteEntries(table, user.value, productId);
      FetchWishlist(fetchOk);
    }
  }
}
