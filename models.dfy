/** The Flask back end's tables (backend/models.py) and the dictionaries its
    `to_dict` methods produce. Prices are integer cents and ratings integer
    tenths of a star; the columns are `Float` in the source, but the back end
    only compares them and hands them on. `rating` and `created_at` are
    nullable columns, so they are options. */
module Models {
  import opened Common

  /** A JSON value as `jsonify` writes it and the browser reads it. */
  datatype Json = Null | Num(n: int) | Str(s: string) | Bool(b: bool) | Arr(items: seq<Json>) | Obj(fields: map<string, Json>)

  /** JavaScript truthiness of a JSON value. */
  predicate Truthy(j: Json) {
    match j
    case Null => false
    case Num(n) => n != 0
    case Str(s) => s != ""
    case Bool(b) => b
    case Arr(_) => true
    case Obj(_) => true
  }

  /** JavaScript `obj[key]` read for truthiness: a missing key is `undefined`. */
  predicate TruthyField(d: map<string, Json>, key: string) {
    key in d && Truthy(d[key])
  }

  datatype Category = Category(id: int, name: string)

  datatype Product = Product(
    id: int,
    name: string,
    description: Option<string>,
    price: int,
    stock: int,
    imageUrl: Option<string>,
    rating: Option<int>,
    categoryId: Option<int>,
    createdAt: Option<int>)

  datatype User = User(id: int, name: string, email: string, passwordHash: string)

  datatype CartItem = CartItem(id: int, userId: int, productId: int, quantity: int)

  /** Column defaults declared on the models. */
  const DefaultStock: int := 0
  const DefaultRating: int := 0
  const DefaultQuantity: int := 1

  /** The row SQLAlchemy inserts for a new product: a column left out takes
      its declared default; `now` is the clock reading `datetime.utcnow`
      gives `created_at`. */
  function NewProduct(id: int, name: string, description: Option<string>, price: int,
                      stock: Option<int>, imageUrl: Option<string>, rating: Option<int>,
                      categoryId: Option<int>, now: int): (p: Product)
    ensures p.id == id && p.name == name && p.price == price && p.categoryId == categoryId
    ensures p.description == description && p.imageUrl == imageUrl
    ensures p.createdAt == Some(now)
    ensures stock.None? ==> p.stock == 0
    ensures rating.None? ==> p.rating == Some(0)
    ensures stock.Some? ==> p.stock == stock.value
    ensures rating.Some? ==> p.rating == rating
  {
    Product(id, name, description, price, stock.GetOr(DefaultStock), imageUrl,
            Some(rating.GetOr(DefaultRating)), categoryId, Some(now))
  }

  /** Primary keys are unique; `Category.name` and `User.email` are declared
      `unique=True, nullable=False` (non-null is the `string` type itself). */
  ghost predicate UniqueCategories(cs: seq<Category>) {
    forall i, j :: 0 <= i < j < |cs| ==> cs[i].id != cs[j].id && cs[i].name != cs[j].name
  }

  ghost predicate UniqueUsers(us: seq<User>) {
    forall i, j :: 0 <= i < j < |us| ==> us[i].id != us[j].id && us[i].email != us[j].email
  }

  ghost predicate UniqueProducts(ps: seq<Product>) {
    forall i, j :: 0 <= i < j < |ps| ==> ps[i].id != ps[j].id
  }

  /** The relationship lookup `category` / `product`: the row with that key. */
  function FindCategory(cs: seq<Category>, id: int): (r: Option<Category>)
    ensures r.Some? ==> r.value in cs && r.value.id == id
    ensures r.None? <==> forall c :: c in cs ==> c.id != id
  {
    if cs == [] then None
    else if cs[0].id == id then Some(cs[0])
    else FindCategory(cs[1..], id)
  }

  function FindProduct(ps: seq<Product>, id: int): (r: Option<Product>)
    ensures r.Some? ==> r.value in ps && r.value.id == id
    ensures r.None? <==> forall p :: p in ps ==> p.id != id
  {
    if ps == [] then None
    else if ps[0].id == id then Some(ps[0])
    else FindProduct(ps[1..], id)
  }

  function CategoryOf(cs: seq<Category>, p: Product): Option<Category> {
    if p.categoryId.None? then None else FindCategory(cs, p.categoryId.value)
  }

  /** The category row with a given name (a lookup the unique constraint makes sensible). */
  function CategoryNamed(cs: seq<Category>, name: string): (r: Option<Category>)
    ensures r.Some? ==> r.value in cs && r.value.name == name
    ensures r.None? <==> forall c :: c in cs ==> c.name != name
  {
    if cs == [] then None
    else if cs[0].name == name then Some(cs[0])
    else CategoryNamed(cs[1..], name)
  }

  /** With unique names, a name identifies exactly one category. */
  lemma {:induction false} NameIdentifiesCategory(cs: seq<Category>, c: Category)
    requires UniqueCategories(cs)
    requires c in cs
    ensures CategoryNamed(cs, c.name) == Some(c)
  {
    if cs[0] != c {
      assert c in cs[1..];
      var k :| 0 <= k < |cs[1..]| && cs[1..][k] == c;
      assert cs[0].name != cs[k + 1].name;
      NameIdentifiesCategory(cs[1..], c);
    }
  }

  function OptionalString(o: Option<string>): Json {
    if o.Some? then Str(o.value) else Null
  }

  function OptionalNumber(o: Option<int>): Json {
    if o.Some? then Num(o.value) else Null
  }

  const ProductDictKeys: set<string> :=
    {"id", "name", "description", "price", "stock", "image_url", "rating", "category"}

  /** `Product.to_dict`: eight keys, the category given by name. */
  function ProductToDict(cs: seq<Category>, p: Product): (d: map<string, Json>)
    ensures d.Keys == ProductDictKeys
    ensures d["category"] == Null <==> CategoryOf(cs, p).None?
    ensures d["category"].Str? ==> exists c :: c in cs && Some(c.id) == p.categoryId && d["category"] == Str(c.name)
  {
    var category := CategoryOf(cs, p);
    map[
      "id" := Num(p.id),
      "name" := Str(p.name),
      "description" := OptionalString(p.description),
      "price" := Num(p.price),
      "stock" := Num(p.stock),
      "image_url" := OptionalString(p.imageUrl),
      "rating" := OptionalNumber(p.rating),
      "category" := if category.Some? then Str(category.value.name) else Null
    ]
  }

  /** The dictionary omits `created_at`: two rows that differ only there look the same. */
  lemma ToDictOmitsCreatedAt(cs: seq<Category>, p: Product, t: Option<int>)
    ensures ProductToDict(cs, p.(createdAt := t)) == ProductToDict(cs, p)
  {
  }

  /** Every other column can be read back from the dictionary. */
  lemma ToDictKeepsColumns(cs: seq<Category>, p: Product, q: Product)
    requires ProductToDict(cs, p) == ProductToDict(cs, q)
    ensures p.id == q.id && p.name == q.name && p.description == q.description
    ensures p.price == q.price && p.stock == q.stock && p.imageUrl == q.imageUrl && p.rating == q.rating
  {
    var dp, dq := ProductToDict(cs, p), ProductToDict(cs, q);
    assert dp["id"] == dq["id"] && dp["name"] == dq["name"] && dp["price"] == dq["price"];
    assert dp["stock"] == dq["stock"] && dp["rating"] == dq["rating"];
    assert dp["description"] == dq["description"] && dp["image_url"] == dq["image_url"];
  }

  /** A product gets default stock and rating from the insert, and the
      dictionary reports them. */
  lemma {:induction false} NewProductReportsDefaults(cs: seq<Category>, id: int, name: string, price: int, t: int)
    ensures var d := ProductToDict(cs, NewProduct(id, name, None, price, None, None, None, None, t));
      d["stock"] == Num(0) && d["rating"] == Num(0) && d["category"] == Null && d["description"] == Null
  {
  }

  const CartItemDictKeys: set<string> := {"id", "product", "quantity"}

  /** `CartItem.to_dict`: the nested product dictionary replaces the ids.
      When the referenced product is missing, `self.product` is `None` and
      the method raises, which is `None` here. */
  function CartItemToDict(ps: seq<Product>, cs: seq<Category>, item: CartItem): (r: Option<map<string, Json>>)
    ensures r.None? <==> FindProduct(ps, item.productId).None?
    ensures r.Some? ==> r.value.Keys == CartItemDictKeys
    ensures r.Some? ==> "user_id" !in r.value && "product_id" !in r.value
    ensures r.Some? ==> r.value["product"] == Obj(ProductToDict(cs, FindProduct(ps, item.productId).value))
    ensures r.Some? ==> r.value["quantity"] == Num(item.quantity) && r.value["id"] == Num(item.id)
  {
    var product := FindProduct(ps, item.productId);
    if product.None? then None
    else Some(map["id" := Num(item.id), "product" := Obj(ProductToDict(cs, product.value)), "quantity" := Num(item.quantity)])
  }
}
