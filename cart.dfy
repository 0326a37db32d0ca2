/** The client's cart store (frontend/src/context/CartContext.jsx). The
    hosted `cart_items` table and the store's cached `cartItems` are both
    fields of `CartStore`; every remote call is an update of the table
    guarded by an `ok` flag that says whether the call succeeded. */
module Cart {
  import opened Common

  /** A row of the hosted `products` table, as the cart query embeds it.
      Prices are integer cents. */
  datatype Product = Product(id: nat, slug: string, name: string, price: int, stock: int, categoryId: int)

  /** A row of `cart_items`; `price` is the row's own (nullable) price
      column, which the store never writes. */
  datatype Row = Row(id: nat, userId: nat, productId: nat, quantity: int, price: Option<int>)

  /** A row of `select *, products (*)`: the cart row with its product. */
  datatype Line = Line(row: Row, products: Option<Product>)

  function FindProduct(catalog: seq<Product>, id: nat): (r: Option<Product>)
    ensures r.Some? ==> r.value in catalog && r.value.id == id
    ensures r.None? <==> forall p :: p in catalog ==> p.id != id
  {
    if catalog == [] then None
    else if catalog[0].id == id then Some(catalog[0])
    else FindProduct(catalog[1..], id)
  }

  /** `.eq('user_id', u)`: the user's rows in table order. */
  function OwnedBy(table: seq<Row>, u: nat): (r: seq<Row>)
    ensures |r| <= |table|
    ensures forall x :: x in r ==> x in table && x.userId == u
  {
    if table == [] then []
    else if table[0].userId == u then [table[0]] + OwnedBy(table[1..], u)
    else OwnedBy(table[1..], u)
  }

  /** Every row of `u` is in `u`'s view (the converse of `OwnedBy`'s contract). */
  lemma {:induction false} OwnedByComplete(table: seq<Row>, u: nat, x: Row)
    requires x in table && x.userId == u
    ensures x in OwnedBy(table, u)
  {
    if table[0] != x {
      OwnedByComplete(table[1..], u, x);
    }
  }

  function Embed(rows: seq<Row>, catalog: seq<Product>): (lines: seq<Line>)
    ensures |lines| == |rows|
    ensures forall k :: 0 <= k < |rows| ==> lines[k] == Line(rows[k], FindProduct(catalog, rows[k].productId))
    ensures forall l :: l in lines ==> l.row in rows && l.products == FindProduct(catalog, l.row.productId)
  {
    if rows == [] then [] else [Line(rows[0], FindProduct(catalog, rows[0].productId))] + Embed(rows[1..], catalog)
  }

  /** What `fetchCart` reads for user `u`. */
  function Join(table: seq<Row>, catalog: seq<Product>, u: nat): (lines: seq<Line>)
    ensures |lines| == |OwnedBy(table, u)|
    ensures forall l :: l in lines ==> l.row in table && l.row.userId == u && l.products == FindProduct(catalog, l.row.productId)
  {
    Embed(OwnedBy(table, u), catalog)
  }

  /** `.update({ quantity }).eq('id', id)`. */
  function SetQuantity(table: seq<Row>, id: nat, q: int): (r: seq<Row>)
    ensures |r| == |table|
  {
    if table == [] then []
    else [if table[0].id == id then table[0].(quantity := q) else table[0]] + SetQuantity(table[1..], id, q)
  }

  /** The update changes the quantity of the rows with that id, and nothing else. */
  lemma {:induction false} SetQuantityAt(table: seq<Row>, id: nat, q: int)
    ensures forall k :: 0 <= k < |table| ==>
      SetQuantity(table, id, q)[k] == if table[k].id == id then table[k].(quantity := q) else table[k]
  {
    if table != [] {
      SetQuantityAt(table[1..], id, q);
    }
  }

  /** `.delete().eq('id', id)`. */
  function DeleteId(table: seq<Row>, id: nat): (r: seq<Row>)
    ensures |r| <= |table|
    ensures forall x :: x in r <==> x in table && x.id != id
  {
    if table == [] then []
    else if table[0].id == id then DeleteId(table[1..], id)
    else [table[0]] + DeleteId(table[1..], id)
  }

  /** `.delete().eq('user_id', u)`. */
  function DeleteUser(table: seq<Row>, u: nat): (r: seq<Row>)
    ensures |r| <= |table|
    ensures forall x :: x in r <==> x in table && x.userId != u
  {
    if table == [] then []
    else if table[0].userId == u then DeleteUser(table[1..], u)
    else [table[0]] + DeleteUser(table[1..], u)
  }

  /** `cartItems.find(item => item.product_id === productId)`. */
  function FindLine(lines: seq<Line>, productId: nat): (r: Option<Line>)
    ensures r.Some? ==> r.value in lines && r.value.row.productId == productId
    ensures r.None? <==> forall l :: l in lines ==> l.row.productId != productId
  {
    if lines == [] then None
    else if lines[0].row.productId == productId then Some(lines[0])
    else FindLine(lines[1..], productId)
  }

  predicate AllJoined(lines: seq<Line>) {
    forall l :: l in lines ==> l.products.Some?
  }

  ghost predicate UniqueIds(table: seq<Row>) {
    forall i, j :: 0 <= i < j < |table| ==> table[i].id != table[j].id
  }

  /** `getCartTotal`: the sum of price x quantity over the lines. */
  function Total(lines: seq<Line>): (r: int)
    requires AllJoined(lines)
    ensures (forall l :: l in lines ==> l.products.value.price >= 0 && l.row.quantity >= 0) ==> r >= 0
  {
    if lines == [] then 0
    else
      assert forall l :: l in lines[1..] ==> l in lines;
      lines[0].products.value.price * lines[0].row.quantity + Total(lines[1..])
  }

  /** `getCartCount`: the sum of the quantities. */
  function Count(lines: seq<Line>): (r: int)
    ensures (forall l :: l in lines ==> l.row.quantity >= 1) ==> r >= |lines|
  {
    if lines == [] then 0
    else
      assert forall l :: l in lines[1..] ==> l in lines;
      lines[0].row.quantity + Count(lines[1..])
  }

  /** The `reduce` itself: a left fold from the accumulator `acc`. */
  function ReduceTotal(acc: int, lines: seq<Line>): int
    requires AllJoined(lines)
    decreases |lines|
  {
    if lines == [] then acc
    else
      assert forall l :: l in lines[1..] ==> l in lines;
      ReduceTotal(acc + lines[0].products.value.price * lines[0].row.quantity, lines[1..])
  }

  function ReduceCount(acc: int, lines: seq<Line>): int
    decreases |lines|
  {
    if lines == [] then acc else ReduceCount(acc + lines[0].row.quantity, lines[1..])
  }

  /** The left fold from 0 is the sum of the line amounts. */
  lemma {:induction false} ReduceIsTotal(acc: int, lines: seq<Line>)
    requires AllJoined(lines)
    ensures ReduceTotal(acc, lines) == acc + Total(lines)
    decreases |lines|
  {
    if lines != [] {
      assert forall l :: l in lines[1..] ==> l in lines;
      ReduceIsTotal(acc + lines[0].products.value.price * lines[0].row.quantity, lines[1..]);
    }
  }

  lemma {:induction false} ReduceIsCount(acc: int, lines: seq<Line>)
    ensures ReduceCount(acc, lines) == acc + Count(lines)
    decreases |lines|
  {
    if lines != [] {
      ReduceIsCount(acc + lines[0].row.quantity, lines[1..]);
    }
  }

  /** An empty cart totals and counts 0; one line contributes price x quantity and its quantity. */
  lemma SumsOfSmallCarts(l: Line)
    requires l.products.Some?
    ensures Total([]) == 0 && Count([]) == 0
    ensures Total([l]) == l.products.value.price * l.row.quantity && Count([l]) == l.row.quantity
  {
  }

  lemma {:induction false} TotalAppend(a: seq<Line>, b: seq<Line>)
    requires AllJoined(a) && AllJoined(b)
    ensures AllJoined(a + b) && Total(a + b) == Total(a) + Total(b)
  {
    if a != [] {
      assert (a + b)[1..] == a[1..] + b;
      TotalAppend(a[1..], b);
    } else {
      assert a + b == b;
    }
  }

  lemma {:induction false} CountAppend(a: seq<Line>, b: seq<Line>)
    ensures Count(a + b) == Count(a) + Count(b)
  {
    if a != [] {
      assert (a + b)[1..] == a[1..] + b;
      CountAppend(a[1..], b);
    } else {
      assert a + b == b;
    }
  }

  /** Deleting by id twice is deleting once. */
  lemma {:induction false} DeleteIdIdempotent(table: seq<Row>, id: nat)
    ensures DeleteId(DeleteId(table, id), id) == DeleteId(table, id)
  {
    if table != [] {
      DeleteIdIdempotent(table[1..], id);
    }
  }

  /** Deleting an id no row has changes nothing. */
  lemma {:induction false} DeleteAbsentIsNoop(table: seq<Row>, id: nat)
    requires forall x :: x in table ==> x.id != id
    ensures DeleteId(table, id) == table
  {
    if table != [] {
      assert forall x :: x in table[1..] ==> x in table;
      DeleteAbsentIsNoop(table[1..], id);
      assert table == [table[0]] + table[1..];
    }
  }

  /** After `clearCart`'s delete, a refetch would also find nothing. */
  lemma {:induction false} ClearedUserOwnsNothing(table: seq<Row>, catalog: seq<Product>, u: nat)
    ensures Join(DeleteUser(table, u), catalog, u) == []
  {
    var rest := DeleteUser(table, u);
    if OwnedBy(rest, u) != [] {
      assert OwnedBy(rest, u)[0] in OwnedBy(rest, u);
    }
  }

  /** Appending a row of user `u` appends one line to `u`'s view, and nothing to anyone else's. */
  lemma {:induction false} OwnedByAppend(table: seq<Row>, x: Row, u: nat)
    ensures OwnedBy(table + [x], u) == OwnedBy(table, u) + (if x.userId == u then [x] else [])
  {
    if table != [] {
      assert (table + [x])[1..] == table[1..] + [x];
      OwnedByAppend(table[1..], x, u);
    } else {
      assert OwnedBy([x], u) == (if x.userId == u then [x] else []) + OwnedBy([], u);
    }
  }

  lemma {:induction false} EmbedAppend(a: seq<Row>, b: seq<Row>, catalog: seq<Product>)
    ensures Embed(a + b, catalog) == Embed(a, catalog) + Embed(b, catalog)
  {
    if a != [] {
      assert (a + b)[1..] == a[1..] + b;
      EmbedAppend(a[1..], b, catalog);
    }
  }

  /** Inserting a new row for `u` adds exactly that line to `u`'s cart view. */
  lemma InsertAddsOneLine(table: seq<Row>, catalog: seq<Product>, x: Row)
    ensures Join(table + [x], catalog, x.userId) == Join(table, catalog, x.userId) + [Line(x, FindProduct(catalog, x.productId))]
  {
    OwnedByAppend(table, x, x.userId);
    EmbedAppend(OwnedBy(table, x.userId), [x], catalog);
  }

  /** The sum of the quantities of some rows. */
  function RowCount(rows: seq<Row>): int {
    if rows == [] then 0 else rows[0].quantity + RowCount(rows[1..])
  }

  lemma {:induction false} CountOfEmbed(rows: seq<Row>, catalog: seq<Product>)
    ensures Count(Embed(rows, catalog)) == RowCount(rows)
  {
    if rows != [] {
      CountOfEmbed(rows[1..], catalog);
    }
  }

  /** Changing the quantity of the one row with id `id`, which belongs to
      `u`, changes `u`'s count by the difference. */
  lemma {:induction false} SetQuantityCount(table: seq<Row>, u: nat, k: nat, q: int)
    requires UniqueIds(table)
    requires k < |table| && table[k].userId == u
    ensures RowCount(OwnedBy(SetQuantity(table, table[k].id, q), u)) ==
            RowCount(OwnedBy(table, u)) - table[k].quantity + q
  {
    var id := table[k].id;
    var t' := SetQuantity(table, id, q);
    assert t'[1..] == SetQuantity(table[1..], id, q);
    if k == 0 {
      assert forall x :: x in table[1..] ==> x.id != id by {
        forall x | x in table[1..] ensures x.id != id {
          var j :| 0 <= j < |table[1..]| && table[1..][j] == x;
          assert table[j + 1] == x;
        }
      }
      SetQuantityAbsent(table[1..], id, q);
    } else {
      assert table[0].id != id;
      SetQuantityCount(table[1..], u, k - 1, q);
    }
  }

  lemma {:induction false} SetQuantityAbsent(table: seq<Row>, id: nat, q: int)
    requires forall x :: x in table ==> x.id != id
    ensures SetQuantity(table, id, q) == table
  {
    if table != [] {
      assert forall x :: x in table[1..] ==> x in table;
      SetQuantityAbsent(table[1..], id, q);
      assert table == [table[0]] + table[1..];
    }
  }

  /** `addToCart` on a product whose line `l` is in an up-to-date cache
      raises the cart count by exactly the added quantity and keeps the
      number of lines. */
  lemma {:induction false} MergeAddsQuantity(table: seq<Row>, catalog: seq<Product>, u: nat, l: Line, q: int)
    requires UniqueIds(table)
    requires l in Join(table, catalog, u)
    ensures |Join(SetQuantity(table, l.row.id, l.row.quantity + q), catalog, u)| == |Join(table, catalog, u)|
    ensures Count(Join(SetQuantity(table, l.row.id, l.row.quantity + q), catalog, u)) == Count(Join(table, catalog, u)) + q
  {
    var t' := SetQuantity(table, l.row.id, l.row.quantity + q);
    assert l.row in table && l.row.userId == u;
    AddToRowCount(table, u, l.row, q);
    SetQuantityKeepsOwners(table, l.row.id, l.row.quantity + q, u);
    CountFollowsRows(table, t', catalog, u, q);
    assert |Join(t', catalog, u)| == |OwnedBy(t', u)|;
  }

  /** Adding `q` to the quantity of one of `u`'s rows adds `q` to `u`'s row count. */
  lemma {:induction false} AddToRowCount(table: seq<Row>, u: nat, row: Row, q: int)
    requires UniqueIds(table)
    requires row in table && row.userId == u
    ensures RowCount(OwnedBy(SetQuantity(table, row.id, row.quantity + q), u)) == RowCount(OwnedBy(table, u)) + q
  {
    var k :| 0 <= k < |table| && table[k] == row;
    SetQuantityCount(table, u, k, row.quantity + q);
  }

  /** The cart count is the sum of the user's row quantities. */
  lemma {:induction false} CountFollowsRows(table: seq<Row>, t': seq<Row>, catalog: seq<Product>, u: nat, q: int)
    requires RowCount(OwnedBy(t', u)) == RowCount(OwnedBy(table, u)) + q
    ensures Count(Join(t', catalog, u)) == Count(Join(table, catalog, u)) + q
  {
    CountOfEmbed(OwnedBy(table, u), catalog);
    CountOfEmbed(OwnedBy(t', u), catalog);
  }

  lemma {:induction false} SetQuantityKeepsOwners(table: seq<Row>, id: nat, q: int, u: nat)
    ensures |OwnedBy(SetQuantity(table, id, q), u)| == |OwnedBy(table, u)|
  {
    if table != [] {
      assert SetQuantity(table, id, q)[1..] == SetQuantity(table[1..], id, q);
      SetQuantityKeepsOwners(table[1..], id, q, u);
    }
  }

  class CartStore {
    /** The hosted `cart_items` table. */
    var table: seq<Row>
    /** The hosted `products` table, which the store only reads. */
    var catalog: seq<Product>
    /** The signed-in user's id, if any. */
    var user: Option<nat>
    /** The cached `cartItems` the pages read. */
    var cartItems: seq<Line>
    var loading: bool
    /** The id the table gives the next inserted row. */
    var nextId: nat

    /** Row ids are unique and below `nextId`; every row references a
        product (the foreign key the `products (*)` embedding follows), so
        cached lines carry their product. */
    ghost predicate Valid()
      reads this
    {
      && UniqueIds(table)
      && (forall x :: x in table ==> x.id < nextId)
      && (forall x :: x in table ==> FindProduct(catalog, x.productId).Some?)
      && AllJoined(cartItems)
    }

    /** The cache shows exactly the signed-in user's rows. */
    ghost predicate Synced()
      reads this
    {
      user.Some? && cartItems == Join(table, catalog, user.value)
    }

    constructor (table: seq<Row>, catalog: seq<Product>, nextId: nat)
      requires UniqueIds(table)
      requires forall x :: x in table ==> x.id < nextId && FindProduct(catalog, x.productId).Some?
      ensures Valid()
      ensures this.table == table && this.catalog == catalog && this.nextId == nextId
      ensures user.None? && cartItems == [] && !loading
    {
      this.table, this.catalog, this.nextId := table, catalog, nextId;
      user, cartItems, loading := None, [], false;
    }

    /** `fetchCart`: no user empties the cache; a failed read keeps it. */
    method FetchCart(ok: bool)
      requires Valid()
      modifies this`cartItems, this`loading
      ensures Valid()
      ensures user.None? ==> cartItems == [] && loading == old(loading)
      ensures user.Some? && ok ==> Synced() && !loading
      ensures user.Some? && !ok ==> cartItems == old(cartItems) && !loading
    {
      if user.None? {
        cartItems := [];
        return;
      }
      loading := true;
      if ok {
        JoinIsJoined(table, catalog, user.value);
        cartItems := Join(table, catalog, user.value);
      }
      loading := false;
    }

    /** A sign-in or sign-out reruns `fetchCart` (the effect keyed on `user`). */
    method SetUser(u: Option<nat>, ok: bool)
      requires Valid()
      modifies this`user, this`cartItems, this`loading
      ensures Valid() && user == u
      ensures u.None? ==> cartItems == []
      ensures u.Some? && ok ==> Synced()
      ensures u.Some? && !ok ==> cartItems == old(cartItems)
    {
      user := u;
      FetchCart(ok);
    }

    /** `addToCart(productId, quantity = 1)`: merge into the cached line for
        the product, or insert a new row. `writeOk` is the update or insert
        succeeding, `fetchOk` the refetch after it. */
    method AddToCart(productId: nat, quantity: Option<int>, writeOk: bool, fetchOk: bool)
      requires Valid()
      modifies this`table, this`nextId, this`cartItems, this`loading
      ensures Valid()
      ensures user.None? ==> table == old(table) && cartItems == old(cartItems)
      ensures user.Some? && FindLine(old(cartItems), productId).Some? ==>
        var l := FindLine(old(cartItems), productId).value;
        table == (if writeOk then SetQuantity(old(table), l.row.id, l.row.quantity + quantity.GetOr(1)) else old(table))
      ensures user.Some? && FindLine(old(cartItems), productId).None? ==>
        var inserted := writeOk && FindProduct(catalog, productId).Some?;
        table == (if inserted then old(table) + [Row(old(nextId), user.value, productId, quantity.GetOr(1), None)] else old(table))
      ensures user.Some? ==>
        var wrote := writeOk && (FindLine(old(cartItems), productId).Some? || FindProduct(catalog, productId).Some?);
        && (!wrote ==> cartItems == old(cartItems))
        && (wrote && fetchOk ==> Synced())
        && (wrote && !fetchOk ==> cartItems == old(cartItems))
    {
      if user.None? {
        return;
      }
      var q := quantity.GetOr(1);
      var existing := FindLine(cartItems, productId);
      if existing.Some? {
        Merge(existing.value, q, writeOk, fetchOk);
      } else {
        Insert(productId, q, writeOk, fetchOk);
      }
    }

    /** The update branch of `addToCart`: the cached line's quantity plus `q`. */
    method Merge(l: Line, q: int, writeOk: bool, fetchOk: bool)
      requires Valid() && user.Some?
      modifies this`table, this`cartItems, this`loading
      ensures Valid()
      ensures writeOk ==> table == SetQuantity(old(table), l.row.id, l.row.quantity + q)
      ensures !writeOk ==> table == old(table) && cartItems == old(cartItems)
      ensures writeOk && fetchOk ==> Synced()
      ensures writeOk && !fetchOk ==> cartItems == old(cartItems)
    {
      if writeOk {
        SetQuantityKeepsProducts(table, catalog, l.row.id, l.row.quantity + q);
        SetQuantityKeepsUnique(table, l.row.id, l.row.quantity + q);
        table := SetQuantity(table, l.row.id, l.row.quantity + q);
        FetchCart(fetchOk);
      }
    }

    /** The insert branch of `addToCart`: a new row, refused by the foreign
        key when the product does not exist. */
    method Insert(productId: nat, q: int, writeOk: bool, fetchOk: bool)
      requires Valid() && user.Some?
      modifies this`table, this`nextId, this`cartItems, this`loading
      ensures Valid()
      ensures var inserted := writeOk && FindProduct(catalog, productId).Some?;
        && table == (if inserted then old(table) + [Row(old(nextId), user.value, productId, q, None)] else old(table))
        && (!inserted ==> cartItems == old(cartItems))
        && (inserted && fetchOk ==> Synced())
        && (inserted && !fetchOk ==> cartItems == old(cartItems))
    {
      if writeOk && FindProduct(catalog, productId).Some? {
        var row := Row(nextId, user.value, productId, q, None);
        AppendFreshKeepsUnique(table, row);
        table := table + [row];
        nextId := nextId + 1;
        FetchCart(fetchOk);
      }
    }

    /** `updateQuantity(itemId, quantity)`: a quantity of zero or less is a removal. */
    method UpdateQuantity(itemId: nat, quantity: int, writeOk: bool, fetchOk: bool)
      requires Valid()
      modifies this`table, this`cartItems, this`loading
      ensures Valid()
      ensures quantity <= 0 ==> table == (if writeOk then DeleteId(old(table), itemId) else old(table))
      ensures quantity > 0 ==> table == (if writeOk then SetQuantity(old(table), itemId, quantity) else old(table))
      ensures !writeOk ==> cartItems == old(cartItems)
      ensures writeOk && fetchOk && user.Some? ==> Synced()
      ensures writeOk && !fetchOk && user.Some? ==> cartItems == old(cartItems)
      ensures writeOk && user.None? ==> cartItems == []
    {
      if quantity <= 0 {
        RemoveFromCart(itemId, writeOk, fetchOk);
        return;
      }
      if writeOk {
        SetQuantityKeepsProducts(table, catalog, itemId, quantity);
        SetQuantityKeepsUnique(table, itemId, quantity);
        table := SetQuantity(table, itemId, quantity);
        FetchCart(fetchOk);
      }
    }

    /** `removeFromCart(itemId)`: deletes the row with that id, whoever owns it. */
    method RemoveFromCart(itemId: nat, writeOk: bool, fetchOk: bool)
      requires Valid()
      modifies this`table, this`cartItems, this`loading
      ensures Valid()
      ensures table == (if writeOk then DeleteId(old(table), itemId) else old(table))
      ensures !writeOk ==> cartItems == old(cartItems)
      ensures writeOk && fetchOk && user.Some? ==> Synced()
      ensures writeOk && !fetchOk && user.Some? ==> cartItems == old(cartItems)
      ensures writeOk && user.None? ==> cartItems == []
      ensures writeOk && fetchOk ==> forall l :: l in cartItems ==> l.row.id != itemId
    {
      if writeOk {
        DeleteIdKeepsUnique(table, itemId);
        table := DeleteId(table, itemId);
        FetchCart(fetchOk);
      }
    }

    /** `getCartTotal`, the `reduce` over the cached lines. */
    function GetCartTotal(): (r: int)
      requires Valid()
      reads this
      ensures r == Total(cartItems)
      ensures cartItems == [] ==> r == 0
    {
      ReduceIsTotal(0, cartItems);
      ReduceTotal(0, cartItems)
    }

    /** `getCartCount`, the `reduce` over the cached quantities. */
    function GetCartCount(): (r: int)
      reads this
      ensures r == Count(cartItems)
      ensures cartItems == [] ==> r == 0
    {
      ReduceIsCount(0, cartItems);
      ReduceCount(0, cartItems)
    }

    /** `clearCart`: deletes all the user's rows and empties the cache without a refetch. */
    method ClearCart(writeOk: bool)
      requires Valid()
      modifies this`table, this`cartItems
      ensures Valid()
      ensures user.None? || !writeOk ==> table == old(table) && cartItems == old(cartItems)
      ensures user.Some? && writeOk ==> table == DeleteUser(old(table), user.value) && cartItems == [] && Synced()
    {
      if user.None? {
        return;
      }
      if writeOk {
        DeleteUserKeepsUnique(table, user.value);
        table := DeleteUser(table, user.value);
        cartItems := [];
        ClearedUserOwnsNothing(old(table), catalog, user.value);
      }
    }
  }

  /** With the foreign key in place, every fetched line carries its product. */
  lemma JoinIsJoined(table: seq<Row>, catalog: seq<Product>, u: nat)
    requires forall x :: x in table ==> FindProduct(catalog, x.productId).Some?
    ensures AllJoined(Join(table, catalog, u))
  {
  }

  lemma AppendFreshKeepsUnique(table: seq<Row>, x: Row)
    requires UniqueIds(table)
    requires forall y :: y in table ==> y.id < x.id
    ensures UniqueIds(table + [x])
  {
    forall i, j | 0 <= i < j < |table + [x]| ensures (table + [x])[i].id != (table + [x])[j].id {
      if j == |table| {
        assert table[i] in table;
      }
    }
  }

  lemma {:induction false} SetQuantityKeepsProducts(table: seq<Row>, catalog: seq<Product>, id: nat, q: int)
    requires forall x :: x in table ==> FindProduct(catalog, x.productId).Some?
    ensures forall x :: x in SetQuantity(table, id, q) ==> FindProduct(catalog, x.productId).Some?
  {
    var r := SetQuantity(table, id, q);
    SetQuantityAt(table, id, q);
    forall x | x in r ensures FindProduct(catalog, x.productId).Some? {
      var k :| 0 <= k < |r| && r[k] == x;
      assert table[k] in table;
    }
  }

  lemma SetQuantityKeepsUnique(table: seq<Row>, id: nat, q: int)
    requires UniqueIds(table)
    ensures UniqueIds(SetQuantity(table, id, q))
    ensures forall x :: x in SetQuantity(table, id, q) ==> exists y :: y in table && y.id == x.id
  {
    var r := SetQuantity(table, id, q);
    SetQuantityAt(table, id, q);
    forall x | x in r ensures exists y :: y in table && y.id == x.id {
      var k :| 0 <= k < |r| && r[k] == x;
      assert table[k] in table;
    }
  }

  lemma {:induction false} DeleteIdKeepsUnique(table: seq<Row>, id: nat)
    requires UniqueIds(table)
    ensures UniqueIds(DeleteId(table, id))
  {
    if table != [] {
      DeleteIdKeepsUnique(table[1..], id);
      var rest := DeleteId(table[1..], id);
      if table[0].id != id {
        forall x | x in rest ensures x.id != table[0].id {
          var j :| 0 <= j < |table[1..]| && table[1..][j] == x;
          assert table[j + 1] == x;
        }
      }
    }
  }

  lemma {:induction false} DeleteUserKeepsUnique(table: seq<Row>, u: nat)
    requires UniqueIds(table)
    ensures UniqueIds(DeleteUser(table, u))
  {
    if table != [] {
      DeleteUserKeepsUnique(table[1..], u);
      var rest := DeleteUser(table[1..], u);
      if table[0].userId != u {
        forall x | x in rest ensures x.id != table[0].id {
          var j :| 0 <= j < |table[1..]| && table[1..][j] == x;
          assert table[j + 1] == x;
        }
      }
    }
  }
}
