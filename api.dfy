/** The Flask routes of backend/app.py that read single rows or change the
    database: product get/update/delete, the cart routes and the category
    routes. The database is the `Session` object, whose tables are
    sequences; a route that fails on commit leaves every table as it was
    (the request's session is rolled back). The database is SQLite, the
    configured default: foreign keys are not enforced, NOT NULL and UNIQUE
    are. */
module Api {
  import opened Common
  import opened Models

  datatype Response = Response(status: int, body: Json)

  function ErrorBody(message: string): Json {
    Obj(map["error" := Str(message)])
  }

  function MessageBody(message: string): Json {
    Obj(map["message" := Str(message)])
  }

  /** The columns of `Product`, under their attribute names. */
  const ProductColumns: set<string> :=
    {"id", "name", "description", "price", "stock", "image_url", "rating", "category_id", "created_at"}

  /** The attributes of a `Product` instance whose assignment the model
      follows: the columns, the `category` relationship (the backref of
      `Category.products`), the `cart_items` collection (the backref of
      `CartItem.product`) and the `to_dict` method. */
  const FollowedAttributes: set<string> := ProductColumns + {"category", "cart_items", "to_dict"}

  /** A request value that has the JSON type of the column it is assigned to. */
  predicate Fits(key: string, v: Json) {
    if key in {"id", "price", "stock", "rating"} then v.Num? || v.Null?
    else if key == "name" then v.Str? || v.Null?
    else if key in {"description", "image_url"} then v.Str? || v.Null?
    else if key == "category_id" then v.Num? || v.Null?
    else true
  }

  /** `setattr` itself raises: the many-to-one `category` takes only a mapped
      `Category` or `None`, and the `cart_items` collection only a list of
      mapped `CartItem`s. JSON carries no mapped instance, so `null` and `[]`
      are the only values they accept. */
  predicate RaisesOnSet(key: string, v: Json) {
    (key == "category" && !v.Null?) || (key == "cart_items" && v != Arr([]))
  }

  /** A column assignment the commit refuses: NULL in a NOT NULL column, or a
      value for `created_at`, which SQLite's `DateTime` type takes only as a
      Python `datetime` (NULL is accepted: the column is nullable). */
  predicate Refused(key: string, v: Json) {
    (key in {"id", "name", "price", "stock"} && v.Null?) || (key == "created_at" && !v.Null?)
  }

  /** `category = None`: the flush then clears `category_id`. */
  predicate ClearsCategory(key: string, v: Json) {
    key == "category" && v.Null?
  }

  /** `cart_items = []`: the flush then sets the product's cart rows'
      `product_id` to NULL. */
  predicate ClearsCartItems(key: string, v: Json) {
    key == "cart_items" && v == Arr([])
  }

  /** Any value stored under `to_dict` shadows the method; no JSON value is callable. */
  predicate ShadowsToDict(key: string, v: Json) {
    key == "to_dict"
  }

  function StringOrNone(v: Json): Option<string> {
    if v.Str? then Some(v.s) else None
  }

  function IntOrNone(v: Json): Option<int> {
    if v.Num? then Some(v.n) else None
  }

  /** `setattr(product, key, value)` for a column. */
  function SetAttr(p: Product, key: string, v: Json): (r: Product)
    requires key in ProductColumns && Fits(key, v) && !Refused(key, v)
    ensures key != "id" ==> r.id == p.id
    ensures key != "name" ==> r.name == p.name
    ensures key != "description" ==> r.description == p.description
    ensures key != "price" ==> r.price == p.price
    ensures key != "stock" ==> r.stock == p.stock
    ensures key != "image_url" ==> r.imageUrl == p.imageUrl
    ensures key == "id" ==> r.id == v.n
    ensures key == "name" ==> r.name == v.s
    ensures key == "description" ==> r.description == StringOrNone(v)
    ensures key == "price" ==> r.price == v.n
    ensures key == "stock" ==> r.stock == v.n
    ensures key == "image_url" ==> r.imageUrl == StringOrNone(v)
    ensures key == "category_id" ==> r.categoryId == IntOrNone(v)
    ensures key != "category_id" ==> r.categoryId == p.categoryId
    ensures key != "rating" ==> r.rating == p.rating
    ensures key == "rating" ==> r.rating == IntOrNone(v)
    ensures key == "created_at" ==> r.createdAt.None?
    ensures key != "created_at" ==> r.createdAt == p.createdAt
  {
    if key == "id" then p.(id := v.n)
    else if key == "name" then p.(name := v.s)
    else if key == "description" then p.(description := StringOrNone(v))
    else if key == "price" then p.(price := v.n)
    else if key == "stock" then p.(stock := v.n)
    else if key == "image_url" then p.(imageUrl := StringOrNone(v))
    else if key == "rating" then p.(rating := IntOrNone(v))
    else if key == "category_id" then p.(categoryId := IntOrNone(v))
    else p.(createdAt := None)
  }

  /** A value assigned to a column that `to_dict` lists reads back unchanged. */
  lemma AssignedColumnReadsBack(cs: seq<Category>, p: Product, key: string, v: Json)
    requires key in ProductColumns - {"category_id", "created_at"} && Fits(key, v) && !Refused(key, v)
    ensures ProductToDict(cs, SetAttr(p, key, v))[key] == v
  {
  }

  predicate AllFit(data: seq<(string, Json)>) {
    forall k :: 0 <= k < |data| ==> Fits(data[k].0, data[k].1)
  }

  /** A parsed JSON object names each key once. */
  predicate DistinctKeys(data: seq<(string, Json)>) {
    forall i, j :: 0 <= i < j < |data| ==> data[i].0 != data[j].0
  }

  /** Some key of the body is one that `bad` picks out. */
  predicate AnyKey(data: seq<(string, Json)>, bad: (string, Json) -> bool)
    decreases |data|
  {
    data != [] && (AnyKey(data[..|data| - 1], bad) || bad(data[|data| - 1].0, data[|data| - 1].1))
  }

  /** `AnyKey` is the existential it reads as. */
  lemma {:induction false} AnyKeyExists(data: seq<(string, Json)>, bad: (string, Json) -> bool)
    ensures AnyKey(data, bad) <==> exists k :: 0 <= k < |data| && bad(data[k].0, data[k].1)
    decreases |data|
  {
    if data != [] {
      var init := data[..|data| - 1];
      AnyKeyExists(init, bad);
      if exists k :: 0 <= k < |data| && bad(data[k].0, data[k].1) {
        var k :| 0 <= k < |data| && bad(data[k].0, data[k].1);
        if k < |data| - 1 {
          assert init[k] == data[k];
        }
      }
      if AnyKey(init, bad) {
        var k :| 0 <= k < |init| && bad(init[k].0, init[k].1);
        assert data[k] == init[k];
      }
    }
  }

  /** `AnyKey` on a two-key body. */
  lemma AnyKeyOfPair(a: (string, Json), b: (string, Json), bad: (string, Json) -> bool)
    ensures AnyKey([a, b], bad) <==> bad(a.0, a.1) || bad(b.0, b.1)
  {
    assert [a, b][..1] == [a] && [a][..0] == [];
    assert AnyKey([a], bad) <==> bad(a.0, a.1);
  }

  /** The instance after the loop's column assignments, in body order; a
      refused assignment is left out, since the commit fails anyway. */
  function Assigned(p: Product, data: seq<(string, Json)>): Product
    requires AllFit(data)
    decreases |data|
  {
    if data == [] then p
    else
      var before := Assigned(p, data[..|data| - 1]);
      var key := data[|data| - 1].0;
      var v := data[|data| - 1].1;
      if key in ProductColumns && !Refused(key, v) then SetAttr(before, key, v) else before
  }

  /** The row the flush writes: the assigned columns, with `category_id`
      cleared when the body sets `category` to null. */
  function Final(p: Product, data: seq<(string, Json)>): Product
    requires AllFit(data)
  {
    var columns := Assigned(p, data);
    if AnyKey(data, ClearsCategory) then columns.(categoryId := None) else columns
  }

  /** The commit of `update_product` goes through: no `setattr` raised, no
      column is refused, the primary key does not clash, and the product's
      cart rows are not orphaned into a NOT NULL `product_id`. */
  predicate Commits(ps: seq<Product>, items: seq<CartItem>, id: int, p: Product, data: seq<(string, Json)>)
    requires AllFit(data)
  {
    && !AnyKey(data, RaisesOnSet)
    && !AnyKey(data, Refused)
    && !ClashesWithOther(ps, id, Final(p, data).id)
    && !(AnyKey(data, ClearsCartItems) && exists c :: c in items && c.productId == id)
  }

  /** A key whose `setattr` raises stops the request before the commit. */
  lemma NoCommitAfterRaise(ps: seq<Product>, items: seq<CartItem>, id: int, p: Product, data: seq<(string, Json)>, i: nat)
    requires AllFit(data) && i < |data| && RaisesOnSet(data[i].0, data[i].1)
    ensures !Commits(ps, items, id, p, data)
  {
    AnyKeyExists(data, RaisesOnSet);
  }

  /** Keys that are no attribute the model follows leave the product alone, and the commit goes through. */
  lemma {:induction false} UnknownKeysIgnored(ps: seq<Product>, items: seq<CartItem>, p: Product, data: seq<(string, Json)>)
    requires AllFit(data)
    requires forall k :: 0 <= k < |data| ==> data[k].0 !in FollowedAttributes
    ensures Assigned(p, data) == p && Final(p, data) == p
    ensures Commits(ps, items, p.id, p, data) && !AnyKey(data, ShadowsToDict)
    decreases |data|
  {
    if data != [] {
      var init := data[..|data| - 1];
      assert forall k :: 0 <= k < |init| ==> init[k] == data[k];
      UnknownKeysIgnored(ps, items, p, init);
      var key := data[|data| - 1].0;
      assert key !in FollowedAttributes;
      assert key != "category" && key != "cart_items" && key != "to_dict" && key !in ProductColumns;
      assert !RaisesOnSet(key, data[|data| - 1].1);
      assert !AnyKey(init, RaisesOnSet);
      assert !AnyKey(data, RaisesOnSet);
    }
  }

  /** Sending back the dictionary a GET returns fails: its `category` is a
      name, which the relationship refuses. */
  lemma EchoedCategoryNameRaises(name: string, category: string)
    ensures var data := [("name", Str(name)), ("category", Str(category))];
      AnyKey(data, RaisesOnSet) && !AnyKey(data, Refused)
  {
    AnyKeyOfPair(("name", Str(name)), ("category", Str(category)), RaisesOnSet);
    AnyKeyOfPair(("name", Str(name)), ("category", Str(category)), Refused);
  }

  /** `{"price": v, "to_dict": 1}` commits the price, and only then fails. */
  lemma ShadowedToDictCommitsFirst(ps: seq<Product>, items: seq<CartItem>, p: Product, v: int)
    ensures var data := [("price", Num(v)), ("to_dict", Num(1))];
      && Commits(ps, items, p.id, p, data)
      && Final(p, data) == p.(price := v)
      && AnyKey(data, ShadowsToDict)
  {
    var a, b := ("price", Num(v)), ("to_dict", Num(1));
    AnyKeyOfPair(a, b, RaisesOnSet);
    AnyKeyOfPair(a, b, Refused);
    AnyKeyOfPair(a, b, ClearsCategory);
    AnyKeyOfPair(a, b, ClearsCartItems);
    AnyKeyOfPair(a, b, ShadowsToDict);
    assert [a, b][..1] == [a] && [a][..0] == [];
    assert Assigned(p, [a]) == SetAttr(p, "price", Num(v)) == p.(price := v);
    assert Final(p, [a, b]) == p.(price := v);
  }

  /** `{"rating": null}` stores NULL, and `{"category": null}` clears the category. */
  lemma NullsAreStored(p: Product)
    ensures Final(p, [("rating", Null)]) == p.(rating := None)
    ensures Final(p, [("category", Null)]) == p.(categoryId := None)
    ensures Final(p, [("created_at", Null)]) == p.(createdAt := None)
  {
    assert [("rating", Null)][..0] == [];
    assert [("category", Null)][..0] == [];
    assert [("created_at", Null)][..0] == [];
    assert ClearsCategory([("category", Null)][0].0, [("category", Null)][0].1);
  }

  class Session {
    var products: seq<Product>
    var categories: seq<Category>
    var users: seq<User>
    var cartItems: seq<CartItem>

    ghost predicate Valid()
      reads this
    {
      && UniqueProducts(products)
      && UniqueCategories(categories)
      && UniqueUsers(users)
      && UniqueCartIds(cartItems)
    }

    constructor ()
      ensures Valid()
      ensures products == [] && categories == [] && users == [] && cartItems == []
    {
      products, categories, users, cartItems := [], [], [], [];
    }

    /** `GET /api/products/<id>`. */
    function GetProduct(id: int): (r: Response)
      reads this
      ensures r.status == 404 <==> FindProduct(products, id).None?
      ensures r.status == 200 <==> exists p :: p in products && p.id == id && r.body == Obj(ProductToDict(categories, p))
    {
      var found := FindProduct(products, id);
      if found.None? then Response(404, ErrorBody("Product not found"))
      else Response(200, Obj(ProductToDict(categories, found.value)))
    }

    /** `PUT /api/products/<id>`: the loop over the body's keys, then the
        commit, then `to_dict`. An exception in the loop or the commit
        rolls the request back; one in `to_dict` comes after the commit. */
    method UpdateProduct(id: int, data: seq<(string, Json)>) returns (r: Response)
      requires Valid()
      requires AllFit(data) && DistinctKeys(data)
      modifies this`products
      ensures Valid()
      ensures r.status == 404 <==> FindProduct(old(products), id).None?
      ensures r.status == 404 ==> products == old(products)
      ensures FindProduct(old(products), id).Some? && Commits(old(products), cartItems, id, FindProduct(old(products), id).value, data) ==>
        products == ReplaceProduct(old(products), id, Final(FindProduct(old(products), id).value, data))
      ensures FindProduct(old(products), id).Some? && !Commits(old(products), cartItems, id, FindProduct(old(products), id).value, data) ==>
        products == old(products) && r.status == 500
      ensures r.status == 200 <==>
        (FindProduct(old(products), id).Some? &&
         Commits(old(products), cartItems, id, FindProduct(old(products), id).value, data) &&
         !AnyKey(data, ShadowsToDict))
      ensures r.status == 200 ==> r.body == Obj(ProductToDict(categories, Final(FindProduct(old(products), id).value, data)))
      ensures r.status != 200 && r.status != 404 ==> r.status == 500
    {
      var found := FindProduct(products, id);
      if found.None? {
        return Response(404, ErrorBody("Product not found"));
      }
      var product := found.value;
      var refused, clearCategory, clearCartItems, shadowed := false, false, false, false;
      var i := 0;
      while i < |data|
        invariant 0 <= i <= |data|
        invariant products == old(products)
        invariant product == Assigned(found.value, data[..i])
        invariant !AnyKey(data[..i], RaisesOnSet)
        invariant refused == AnyKey(data[..i], Refused)
        invariant clearCategory == AnyKey(data[..i], ClearsCategory)
        invariant clearCartItems == AnyKey(data[..i], ClearsCartItems)
        invariant shadowed == AnyKey(data[..i], ShadowsToDict)
      {
        var key, value := data[i].0, data[i].1;
        assert data[..i + 1][..i] == data[..i] && data[..i + 1][i] == data[i];
        if RaisesOnSet(key, value) {
          NoCommitAfterRaise(products, cartItems, id, found.value, data, i);
          return Response(500, Null);
        }
        if key in ProductColumns {
          if Refused(key, value) {
            refused := true;
          } else {
            product := SetAttr(product, key, value);
          }
        } else if key == "category" {
          clearCategory := true;
        } else if key == "cart_items" {
          clearCartItems := true;
        } else if key == "to_dict" {
          shadowed := true;
        }
        i := i + 1;
      }
      assert data[..|data|] == data;
      if clearCategory {
        product := product.(categoryId := None);
      }
      assert product == Final(found.value, data);
      if refused || ClashesWithOther(products, id, product.id) ||
         (clearCartItems && exists c :: c in cartItems && c.productId == id) {
        // the flush raises IntegrityError (or the DateTime type error) and the request fails
        return Response(500, Null);
      }
      assert Commits(products, cartItems, id, found.value, data);
      ReplaceKeepsUnique(products, id, product);
      products := ReplaceProduct(products, id, product);
      if shadowed {
        // `product.to_dict()` calls the stored JSON value
        return Response(500, Null);
      }
      r := Response(200, Obj(ProductToDict(categories, product)));
    }

    /** `DELETE /api/products/<id>`. Deleting a product that cart rows still
        reference makes SQLAlchemy set their `product_id` to NULL, which the
        NOT NULL column refuses, so the commit fails. */
    method DeleteProduct(id: int) returns (r: Response)
      requires Valid()
      modifies this`products
      ensures Valid()
      ensures r.status == 404 <==> FindProduct(old(products), id).None?
      ensures r.status != 200 && r.status != 404 ==> r.status == 500
      ensures r.status != 200 ==> products == old(products)
      ensures r.status == 200 <==> FindProduct(old(products), id).Some? && forall c :: c in cartItems ==> c.productId != id
      ensures r.status == 200 ==> products == RemoveProduct(old(products), id) && FindProduct(products, id).None?
    {
      var found := FindProduct(products, id);
      if found.None? {
        return Response(404, ErrorBody("Product not found"));
      }
      if exists c :: c in cartItems && c.productId == id {
        return Response(500, Null);
      }
      products := RemoveProduct(products, id);
      r := Response(200, MessageBody("Product deleted"));
    }

    /** `GET /api/cart`: every user's rows; a row whose product is gone makes
        `to_dict` raise. */
    function GetCart(): (r: Response)
      reads this
      ensures r.status == 200 <==> forall c :: c in cartItems ==> FindProduct(products, c.productId).Some?
      ensures r.status == 200 ==> r.body.Arr? && |r.body.items| == |cartItems|
      ensures r.status == 200 ==> forall k :: 0 <= k < |cartItems| ==>
                r.body.items[k] == Obj(CartItemToDict(products, categories, cartItems[k]).value)
    {
      var items, ps, cs := cartItems, products, categories;
      if forall c :: c in items ==> FindProduct(ps, c.productId).Some? then
        Response(200, Arr(seq(|items|, k requires 0 <= k < |items| =>
          assert items[k] in items;
          Obj(CartItemToDict(ps, cs, items[k]).value))))
      else Response(500, Null)
    }

    /** `POST /api/cart`: always a new row, never a merge; a missing
        `user_id` or `product_id` is a KeyError. The new row is committed
        before `to_dict` runs, so an unknown product still leaves it behind. */
    method AddToCart(userId: Option<int>, productId: Option<int>, quantity: Option<int>) returns (r: Response)
      requires Valid()
      modifies this`cartItems
      ensures Valid()
      ensures userId.None? || productId.None? ==> r.status == 500 && cartItems == old(cartItems)
      ensures userId.Some? && productId.Some? ==>
        && cartItems == old(cartItems) + [CartItem(NextCartId(old(cartItems)), userId.value, productId.value, quantity.GetOr(DefaultQuantity))]
        && (r.status == 201 <==> FindProduct(products, productId.value).Some?)
    {
      if userId.None? || productId.None? {
        return Response(500, Null);
      }
      var item := CartItem(NextCartId(cartItems), userId.value, productId.value, quantity.GetOr(DefaultQuantity));
      AppendNextKeepsUnique(cartItems, item);
      cartItems := cartItems + [item];
      var dict := CartItemToDict(products, categories, item);
      if dict.None? {
        return Response(500, Null);
      }
      r := Response(201, Obj(dict.value));
    }

    /** `DELETE /api/cart/<id>`. */
    method RemoveCartItem(itemId: int) returns (r: Response)
      requires Valid()
      modifies this`cartItems
      ensures Valid()
      ensures (forall c :: c in old(cartItems) ==> c.id != itemId) <==> r.status == 404
      ensures r.status == 404 ==> cartItems == old(cartItems)
      ensures r.status == 200 ==> cartItems == RemoveCartRow(old(cartItems), itemId)
      ensures forall c :: c in cartItems ==> c.id != itemId
    {
      if forall c :: c in cartItems ==> c.id != itemId {
        return Response(404, ErrorBody("Cart item not found"));
      }
      cartItems := RemoveCartRow(cartItems, itemId);
      r := Response(200, MessageBody("Item removed from cart"));
    }

    /** `GET /api/categories`. */
    function GetCategories(): (r: Json)
      reads this
      ensures r.Arr? && |r.items| == |categories|
      ensures forall k :: 0 <= k < |categories| ==>
                r.items[k].Obj? && r.items[k].fields.Keys == {"id", "name"} &&
                r.items[k].fields["id"] == Num(categories[k].id) &&
                r.items[k].fields["name"] == Str(categories[k].name)
    {
      var cs := categories;
      Arr(seq(|cs|, k requires 0 <= k < |cs| => Obj(map["id" := Num(cs[k].id), "name" := Str(cs[k].name)])))
    }

    /** `POST /api/categories`: a missing name is a KeyError, a taken name
        breaks the UNIQUE constraint. */
    method CreateCategory(name: Option<string>) returns (r: Response)
      requires Valid()
      modifies this`categories
      ensures Valid()
      ensures r.status == 201 <==> name.Some? && CategoryNamed(old(categories), name.value).None?
      ensures r.status == 201 ==> categories == old(categories) + [Category(NextCategoryId(old(categories)), name.value)]
      ensures r.status == 201 ==> r.body == Obj(map["id" := Num(NextCategoryId(old(categories))), "name" := Str(name.value)])
      ensures r.status != 201 ==> categories == old(categories)
    {
      if name.None? || CategoryNamed(categories, name.value).Some? {
        return Response(500, Null);
      }
      var c := Category(NextCategoryId(categories), name.value);
      forall i, j | 0 <= i < j < |categories + [c]|
        ensures (categories + [c])[i].id != (categories + [c])[j].id && (categories + [c])[i].name != (categories + [c])[j].name
      {
        if j == |categories| {
          assert categories[i] in categories;
        }
      }
      categories := categories + [c];
      r := Response(201, Obj(map["id" := Num(c.id), "name" := Str(c.name)]));
    }
  }

  /** The rowid SQLite gives a new row of a table whose `INTEGER PRIMARY KEY`
      has no AUTOINCREMENT: one more than the largest id, or 1 for an empty
      table. A deleted largest id is therefore given out again. */
  function NextRowId(ids: seq<int>): (r: int)
    ensures forall k :: 0 <= k < |ids| ==> ids[k] < r
    ensures ids == [] ==> r == 1
    ensures ids != [] ==> exists k :: 0 <= k < |ids| && ids[k] == r - 1
  {
    if ids == [] then 1
    else
      var rest := NextRowId(ids[1..]);
      if ids[1..] == [] || ids[0] + 1 > rest then ids[0] + 1
      else
        assert forall k :: 1 <= k < |ids| ==> ids[k] == ids[1..][k - 1];
        rest
  }

  function NextCartId(items: seq<CartItem>): (r: int)
    ensures forall c :: c in items ==> c.id < r
  {
    var ids := seq(|items|, k requires 0 <= k < |items| => items[k].id);
    forall c | c in items ensures exists k :: 0 <= k < |items| && ids[k] == c.id {
      var k :| 0 <= k < |items| && items[k] == c;
      assert ids[k] == c.id;
    }
    NextRowId(ids)
  }

  function NextCategoryId(cs: seq<Category>): (r: int)
    ensures forall c :: c in cs ==> c.id < r
  {
    var ids := seq(|cs|, k requires 0 <= k < |cs| => cs[k].id);
    forall c | c in cs ensures exists k :: 0 <= k < |cs| && ids[k] == c.id {
      var k :| 0 <= k < |cs| && cs[k] == c;
      assert ids[k] == c.id;
    }
    NextRowId(ids)
  }

  /** Rows 1 and 2, then `DELETE /api/cart/2`: the next `POST /api/cart` gets id 2 again. */
  lemma DeletedTopIdIsReused(u: int, p: int, q: int)
    ensures var items := [CartItem(1, u, p, q), CartItem(2, u, p, q)];
      NextCartId(items) == 3 && NextCartId(RemoveCartRow(items, 2)) == 2
  {
    var items := [CartItem(1, u, p, q), CartItem(2, u, p, q)];
    assert RemoveCartRow(items, 2) == [CartItem(1, u, p, q)] by {
      assert items[1..][1..] == [];
    }
    var ids := seq(|items|, k requires 0 <= k < |items| => items[k].id);
    assert ids == [1, 2] && ids[1..] == [2] && ids[1..][1..] == [];
    var one := [CartItem(1, u, p, q)];
    assert seq(|one|, k requires 0 <= k < |one| => one[k].id) == [1];
  }

  lemma AppendNextKeepsUnique(items: seq<CartItem>, item: CartItem)
    requires UniqueCartIds(items) && item.id == NextCartId(items)
    ensures UniqueCartIds(items + [item])
  {
    forall i, j | 0 <= i < j < |items + [item]| ensures (items + [item])[i].id != (items + [item])[j].id {
      if j == |items| {
        assert items[i] in items;
      }
    }
  }

  /** Another product than `id` already has the primary key `newId`. */
  predicate ClashesWithOther(ps: seq<Product>, id: int, newId: int) {
    newId != id && exists p :: p in ps && p.id == newId
  }

  function ReplaceProduct(ps: seq<Product>, id: int, q: Product): (r: seq<Product>)
    ensures |r| == |ps|
    ensures forall k :: 0 <= k < |ps| ==> r[k] == if ps[k].id == id then q else ps[k]
  {
    if ps == [] then [] else [if ps[0].id == id then q else ps[0]] + ReplaceProduct(ps[1..], id, q)
  }

  lemma ReplaceKeepsUnique(ps: seq<Product>, id: int, q: Product)
    requires UniqueProducts(ps)
    requires q.id == id || !ClashesWithOther(ps, id, q.id)
    requires q.id == id || forall p :: p in ps ==> p.id != q.id
    ensures UniqueProducts(ReplaceProduct(ps, id, q))
  {
    var r := ReplaceProduct(ps, id, q);
    forall i, j | 0 <= i < j < |r| ensures r[i].id != r[j].id {
      assert ps[i] in ps && ps[j] in ps;
    }
  }

  function RemoveProduct(ps: seq<Product>, id: int): (r: seq<Product>)
    ensures forall p :: p in r <==> p in ps && p.id != id
    ensures UniqueProducts(ps) ==> UniqueProducts(r)
  {
    if ps == [] then []
    else if ps[0].id == id then RemoveProduct(ps[1..], id)
    else
      var rest := RemoveProduct(ps[1..], id);
      assert UniqueProducts(ps) ==> forall p :: p in rest ==> p.id != ps[0].id;
      [ps[0]] + rest
  }

  ghost predicate UniqueCartIds(items: seq<CartItem>) {
    forall i, j :: 0 <= i < j < |items| ==> items[i].id != items[j].id
  }

  function RemoveCartRow(items: seq<CartItem>, id: int): (r: seq<CartItem>)
    ensures forall c :: c in r <==> c in items && c.id != id
    ensures |r| <= |items|
    ensures UniqueCartIds(items) ==> UniqueCartIds(r)
  {
    if items == [] then []
    else if items[0].id == id then RemoveCartRow(items[1..], id)
    else
      var rest := RemoveCartRow(items[1..], id);
      assert UniqueCartIds(items) ==> forall c :: c in rest ==> c.id != items[0].id;
      [items[0]] + rest
  }
}
