# QuickCart storefront, modelled in Dafny

QuickCart is a small web shop. It has two parts:

- a Flask back end (`backend/app.py`, `backend/models.py`) that serves product listings with filters, sorting and paging, single products, categories and a cart table;
- a React front end whose cart and wishlist stores (`CartContext.jsx`, `WishlistContext.jsx`) and pages (Checkout, Cart, Shop, ProductDetail, Login, Home) read and write hosted tables directly.

This project models that core and proves what each piece promises.

Each file holds one module:

| file | module | what it models |
|---|---|---|
| `models.dfy` | `Models` | The SQLAlchemy models as datatypes: column defaults, unique constraints, and the `to_dict` dictionaries as `map<string, Json>`. |
| `catalog.dfy` | `Catalog` | `get_products` and the combined route as pure functions: filter, order, page window, page count and the response body. |
| `api.dfy` | `Api` | The routes that change the database, as methods of a `Session` class whose tables are sequences. |
| `cart.dfy` | `Cart` | The cart store, as a `CartStore` class over the hosted `cart_items` table. |
| `wishlist.dfy` | `Wishlist` | The wishlist store, as a `WishlistStore` class. |
| `checkout.dfy` | `Checkout` | The shipping rule, the order-item snapshot and the guarded `handleSubmit`. |
| `cart_page.dfy` | `CartPage` | The cart page's routing decision and the requests its buttons send. |
| `shop.dfy` | `Shop` | The shop page's filter object, query string and list replace/append. |
| `product_detail.dfy` | `ProductDetail` | The product page: quantity selector, slug lookup, related products, reviews, wishlist toggle and review submission. |
| `login.dfy` | `Login` | The sign-in/sign-up page. |
| `home.dfy` | `Home` | The home page's carousel and featured selection. |
| `text.dfy`, `sorting.dfy`, `common.dfy` | `Text`, `Sorting`, `Common` | Helpers: case folding and substring search, lexicographic order, decimal strings, a stable sort, `Option`. |

Modelling conventions:

- **The outside world is a parameter.** Every network request, Supabase call and authentication call is a boolean (`ok`, `writeOk`, `fetchOk`) or the error it answers with. The signed-in user is an `Option<nat>`.
- **Money is integer cents.** The "over $50 ships free, else $10" rule becomes 5000 and 1000.
- **The stores mirror the source's state.** Each class keeps its hosted table as a `seq` field and its cached React state as further fields. `Synced()` states that the cache equals the user's rows of the table, in the table's order.

Consequences the proofs bring out:

- **The home page never shows featured products.** The product listing answers with an object rather than an array, so the home page's `.filter` call throws and its lists keep their initial empty values (`Home.ListingBodyIsNotAnArray`). Even an array of listing dictionaries would select nothing, because `to_dict` has no `featured` key (`Home.ListingHasNoFeatured`).
- **`/api/all-products` always fails.** `backend/app.py:146` reads `Product.featured`, which `Product` does not declare, so the route raises before its first query and answers 500. `Catalog.GetAllProductsCombined` models the route as it would behave with the flag declared, taking the flagged ids as a set.
- **The cart page's buttons send the wrong id.** They pass the product's id where the store matches the cart row's id (see Findings).

## Model

| member | source | states |
|---|---|---|
| Models.NewProduct | backend/models.py:24-36 | A new product row takes the given id, name, description, price, image_url and category_id, and created_at is the insert time. An omitted stock is 0 and an omitted rating is 0; a given stock or rating is kept. |
| Models.FindCategory | backend/models.py:16 | The category relationship finds the row with that key, and finds none exactly when no row has it. |
| Models.FindProduct | backend/models.py:78 | The product relationship finds the row with that key, and finds none exactly when no row has it. |
| Models.CategoryNamed | backend/models.py:13 | The lookup by name returns a row with that name, and returns none exactly when no row has it. |
| Models.NameIdentifiesCategory | backend/models.py:13 | With unique category names, a name finds exactly its own category. |
| Models.ProductToDict | backend/models.py:38-48 | The dictionary has exactly the eight keys id, name, description, price, stock, image_url, rating and category. Its category is null exactly when the product has no category, and is otherwise that category's name. |
| Models.OptionalNumber | backend/models.py:46 | A nullable number goes out as a number or JSON null. |
| Models.ToDictOmitsCreatedAt | backend/models.py:36-48 | `created_at` does not reach the dictionary: rows that differ only there give equal dictionaries. |
| Models.ToDictKeepsColumns | backend/models.py:38-48 | Equal dictionaries mean equal id, name, description, price, stock, image_url and rating. |
| Models.NewProductReportsDefaults | backend/models.py:31-33 | A product inserted without stock or rating reports stock 0 and rating 0. |
| Models.CartItemToDict | backend/models.py:80-85 | Succeeds exactly when the product exists. The dictionary has id, the nested product dictionary and quantity, and no user_id or product_id. |
| Catalog.Filter | backend/app.py:51-67 | The filtered rows are the matching rows of the table, each as often as in the table. |
| Catalog.Matches | backend/app.py:58-67 | The `WHERE` clause: every supplied filter holds, a category filter needs a category, and a rating filter excludes unrated rows. |
| Catalog.OrderIsTotalPreorder | backend/app.py:69-77 | Each of the four `sortBy` orders is total and transitive. |
| Catalog.Order | backend/app.py:70-77 | Price ascending, price descending, rating descending, or name ascending for any other `sortBy`. |
| Catalog.RatedAtLeast | backend/app.py:74-75 | `rating DESC` with NULL below every number, as SQLite sorts it. |
| Catalog.NameOrderTiesOnlyEqualNames | backend/app.py:76-77 | Under the default name order, two products tie only when their names are equal. |
| Catalog.Ordered | backend/app.py:69-77 | The result is sorted by the requested order. It contains exactly the matching rows, with the filtered count. |
| Catalog.Window | backend/app.py:80-84 | The page is the slice of at most `limit` rows starting at the offset, truncated at the end of the list. |
| Catalog.WindowHas | backend/app.py:80-84 | Every row between the offset and offset + limit is on that page. |
| Catalog.WindowSorted | backend/app.py:82-84 | A page of a sorted list is sorted. |
| Catalog.HasNextIff | backend/app.py:91 | `page < pages` holds exactly when some row lies past this page. |
| Catalog.PageCount | backend/app.py:82-90 | The page count is 0 exactly when nothing matches; otherwise the last page holds between 1 and `limit` rows. |
| Catalog.Results | backend/app.py:46-84 | At most `limit` rows, each from the table and matching every filter, in the requested order. The rows are exactly the ordered matching rows from the offset (page − 1) x limit on: `limit` of them, fewer at the end of the list, none past it. |
| Catalog.MatchingProductIsListed | backend/app.py:51-84 | Every matching product appears on some page. |
| Catalog.FilterIgnoresPage | backend/app.py:51-67 | The page number does not change which rows match. |
| Catalog.PageContaining | backend/app.py:80-84 | Row k of the ordered list lies within the window of page k / limit + 1. |
| Catalog.ToDicts | backend/app.py:84 | One dictionary per row, in order. |
| Catalog.ToDictsFromRows | backend/app.py:84 | Each dictionary comes from some listed row. |
| Catalog.GetProducts | backend/app.py:46-92 | Reports the page, the total matching count, the page count ceil(total / limit) and `has_more`, which holds exactly when page x limit < total. The products are the dictionaries of exactly the page's rows, in order, so at most `limit` of them, each of a matching product. |
| Catalog.FeaturedRows | backend/app.py:146 | Exactly the table's products that carry the featured flag. |
| Catalog.FeaturedRowsKeepTableOrder | backend/app.py:146-147 | The featured rows keep their table order. |
| Catalog.GetAllProductsCombined | backend/app.py:144-193 | The shop section equals `get_products` for the same arguments. The featured section holds a dictionary exactly for each flagged product, one per flagged row in table order. |
| Catalog.ResponseBody | backend/app.py:86-92 | `jsonify` writes an object with the products and `has_more`. |
| Api.SetAttr | backend/app.py:126-127 | Assigning a column sets that column to the value given (a string or number, or NULL where the column is nullable; `created_at` can only be set to NULL) and leaves every other column as it was. |
| Api.UnknownKeysIgnored | backend/app.py:125-130 | A body whose keys are no column, no relationship and no method of a product leaves the row as it was, and the commit and `to_dict` both go through. |
| Api.RaisesOnSet | backend/app.py:126-127 | `setattr` of `category` with anything but null, or of `cart_items` with anything but `[]`, raises. |
| Api.Refused | backend/app.py:127-129 | The commit refuses NULL in id, name, price or stock, and any JSON value but null in created_at. |
| Api.ClearsCategory | backend/app.py:126-129 | `category = None` clears category_id at the flush. |
| Api.ClearsCartItems | backend/app.py:126-129 | `cart_items = []` orphans the product's cart rows at the flush. |
| Api.ShadowsToDict | backend/app.py:126-130 | A `to_dict` key replaces the method that line 130 calls. |
| Api.AssignedColumnReadsBack | backend/app.py:126-130 | A value assigned to a column the dictionary lists reads back unchanged in the response. |
| Api.AnyKeyExists | backend/app.py:125 | "Some key of the body" is the existential over the body's keys. |
| Api.AnyKeyOfPair | backend/app.py:125 | On a two-key body, some key qualifies exactly when one of the two does. |
| Api.Assigned | backend/app.py:125-127 | The column assignments applied in body order. |
| Api.Final | backend/app.py:125-129 | The row the flush writes: the assigned columns, with category_id cleared by `category: null`. |
| Api.Commits | backend/app.py:129 | The commit goes through exactly when nothing raised, nothing is refused, the key does not clash and no cart row is orphaned. |
| Api.NoCommitAfterRaise | backend/app.py:125-129 | A raising `setattr` anywhere in the body means no commit. |
| Api.EchoedCategoryNameRaises | backend/app.py:125-127 | Sending back a fetched dictionary's `category` name raises, although no column is refused. |
| Api.ShadowedToDictCommitsFirst | backend/app.py:125-130 | `{"price": v, "to_dict": 1}` commits the new price and still answers with an error. |
| Api.NullsAreStored | backend/app.py:125-129 | A null rating is stored as NULL, `category: null` clears the category, and a null created_at is stored as NULL. |
| Api.Session.GetProduct | backend/app.py:94-99 | 404 exactly when the id is missing. Otherwise 200 with that product's dictionary. |
| Api.Session.UpdateProduct | backend/app.py:118-130 | A missing id gives 404 and changes nothing. For a found product, when the commit goes through exactly that product is replaced by its final assigned row; otherwise the table is unchanged and the answer is 500. The answer is 200 exactly when the commit goes through and `to_dict` was not overwritten, and then carries the new row's dictionary. Every other answer is 500. |
| Api.Session.DeleteProduct | backend/app.py:132-139 | 404 exactly when the id is missing. A product that cart rows still reference makes the commit fail with 500 and changes nothing. On 200 exactly that product is gone. Every other answer is 500. |
| Api.Session.GetCart | backend/app.py:214-217 | Returns every user's rows, one dictionary each and in order. Fails exactly when some row's product is missing. |
| Api.Session.AddToCart | backend/app.py:219-229 | Always appends a new row whose id is one more than the largest id (1 on an empty table), with a default quantity of 1, and never merges. 201 exactly when the product exists. A missing user_id or product_id is an error and changes nothing. |
| Api.Session.RemoveCartItem | backend/app.py:231-238 | 404 exactly when no row has the id, and then nothing changes. Otherwise that row is deleted. Afterwards no row has the id. |
| Api.Session.GetCategories | backend/app.py:198-201 | One `{id, name}` object per category, in order, carrying that category's id and name. |
| Api.Session.CreateCategory | backend/app.py:203-209 | 201 exactly when a name is given and not yet taken. Then one category is appended with id one more than the largest, and the answer echoes its id and name. Otherwise nothing changes. |
| Api.ReplaceProduct | backend/app.py:127-129 | Only the product with that id is replaced. The length is kept. |
| Api.ReplaceKeepsUnique | backend/app.py:127-129 | Replacing a product keeps primary keys unique, unless the new id clashes with another row. |
| Api.RemoveProduct | backend/app.py:137-138 | Removes exactly the product with that id and keeps keys unique. |
| Api.RemoveCartRow | backend/app.py:236-237 | Removes exactly the row with that id and keeps ids unique. |
| Api.NextRowId | backend/app.py:227-228 | SQLite's next row id: larger than every id, 1 on an empty table, otherwise one more than the largest. |
| Api.NextCartId | backend/app.py:227-228 | The next cart row id exceeds every existing one. |
| Api.NextCategoryId | backend/app.py:207-208 | The next category id exceeds every existing one. |
| Api.DeletedTopIdIsReused | backend/app.py:219-238 | After rows 1 and 2 and the deletion of row 2, the next cart row gets id 2 again. |
| Api.AppendNextKeepsUnique | backend/app.py:227-228 | A row with the next id keeps cart ids unique. |
| Cart.FindProduct | frontend/src/context/CartContext.jsx:29-32 | The embedded product is the catalog row with the line's product id, or none. |
| Cart.OwnedBy | frontend/src/context/CartContext.jsx:33 | Only rows of that user, taken from the table. |
| Cart.OwnedByComplete | frontend/src/context/CartContext.jsx:33 | Every row of the user is selected. |
| Cart.Embed | frontend/src/context/CartContext.jsx:29-32 | One line per row, in order, each with its product. |
| Cart.Join | frontend/src/context/CartContext.jsx:27-33 | The fetched lines are the user's rows with their products. |
| Cart.SetQuantity | frontend/src/context/CartContext.jsx:54-57 | The update keeps the number of rows. |
| Cart.SetQuantityAt | frontend/src/context/CartContext.jsx:79-82 | The rows with that id take the new quantity. Every other row, and every other field, stays the same. |
| Cart.DeleteId | frontend/src/context/CartContext.jsx:90-93 | Keeps exactly the rows with another id. |
| Cart.DeleteUser | frontend/src/context/CartContext.jsx:103-106 | Keeps exactly the rows of other users. |
| Cart.FindLine | frontend/src/context/CartContext.jsx:51 | Finds a cached line with that product id, and finds none exactly when no line has it. |
| Cart.Total | frontend/src/context/CartContext.jsx:113-117 | The sum of price x quantity. It is non-negative when prices and quantities are. |
| Cart.Count | frontend/src/context/CartContext.jsx:119-121 | The sum of quantities. It is at least the number of lines when every quantity is at least 1. |
| Cart.ReduceIsTotal | frontend/src/context/CartContext.jsx:114-116 | The `reduce` left fold from an accumulator equals the accumulator plus the sum of line amounts. |
| Cart.ReduceIsCount | frontend/src/context/CartContext.jsx:120 | The `reduce` left fold over quantities equals the accumulator plus their sum. |
| Cart.ReduceTotal | frontend/src/context/CartContext.jsx:114-116 | The `reduce` left fold of price x quantity. |
| Cart.ReduceCount | frontend/src/context/CartContext.jsx:120 | The `reduce` left fold of quantities. |
| Cart.SumsOfSmallCarts | frontend/src/context/CartContext.jsx:113-121 | An empty cart totals and counts 0. One line contributes price x quantity and its quantity. |
| Cart.TotalAppend | frontend/src/context/CartContext.jsx:113-117 | The total of two carts laid end to end is the sum of their totals. |
| Cart.CountAppend | frontend/src/context/CartContext.jsx:119-121 | The count of two carts laid end to end is the sum of their counts. |
| Cart.DeleteIdIdempotent | frontend/src/context/CartContext.jsx:89-98 | Removing an id twice is removing it once. |
| Cart.DeleteAbsentIsNoop | frontend/src/context/CartContext.jsx:89-98 | Removing an id no row has leaves the table unchanged. |
| Cart.ClearedUserOwnsNothing | frontend/src/context/CartContext.jsx:100-110 | After `clearCart`'s delete, a refetch finds no lines. |
| Cart.OwnedByAppend | frontend/src/context/CartContext.jsx:63-65 | An inserted row joins its owner's view at the end and no one else's. |
| Cart.EmbedAppend | frontend/src/context/CartContext.jsx:29-32 | Embedding distributes over concatenation. |
| Cart.InsertAddsOneLine | frontend/src/context/CartContext.jsx:62-69 | Inserting a row adds exactly its line, last, to the owner's cart. |
| Cart.CountOfEmbed | frontend/src/context/CartContext.jsx:119-121 | The count of the lines is the sum of the rows' quantities. |
| Cart.SetQuantityCount | frontend/src/context/CartContext.jsx:54-57 | Changing the quantity of one of the user's rows changes the user's quantity sum by exactly the difference. |
| Cart.SetQuantityAbsent | frontend/src/context/CartContext.jsx:79-82 | Updating an absent id leaves the table unchanged. |
| Cart.MergeAddsQuantity | frontend/src/context/CartContext.jsx:51-61 | Adding q to a product already in the cart keeps the number of lines. The cart count grows by exactly q. |
| Cart.AddToRowCount | frontend/src/context/CartContext.jsx:56 | Adding q to one row adds q to its owner's quantity sum. |
| Cart.CountFollowsRows | frontend/src/context/CartContext.jsx:119-121 | The cart count moves with the user's row quantities. |
| Cart.SetQuantityKeepsOwners | frontend/src/context/CartContext.jsx:79-82 | A quantity update does not change how many rows each user owns. |
| Cart.JoinIsJoined | frontend/src/context/CartContext.jsx:29-33 | With the foreign key, every fetched line carries its product. |
| Cart.AppendFreshKeepsUnique | frontend/src/context/CartContext.jsx:63-65 | A row inserted with a fresh id keeps row ids unique. |
| Cart.SetQuantityKeepsProducts | frontend/src/context/CartContext.jsx:79-82 | An update keeps every row's product reference valid. |
| Cart.SetQuantityKeepsUnique | frontend/src/context/CartContext.jsx:79-82 | An update keeps ids unique and introduces no new id. |
| Cart.DeleteIdKeepsUnique | frontend/src/context/CartContext.jsx:90-93 | A delete by id keeps ids unique. |
| Cart.DeleteUserKeepsUnique | frontend/src/context/CartContext.jsx:103-106 | A delete by user keeps ids unique. |
| Cart.CartStore.FetchCart | frontend/src/context/CartContext.jsx:20-39 | With no user the cache is emptied. A successful read syncs the cache with the user's rows, and a failed read keeps the old cache. |
| Cart.CartStore.SetUser | frontend/src/context/CartContext.jsx:41-43 | A user change refetches: signing out empties the cache, and a successful sign-in syncs it. |
| Cart.CartStore.AddToCart | frontend/src/context/CartContext.jsx:45-71 | No user changes nothing. A product already cached gets its row's quantity raised by the given quantity, default 1. A new product inserts one row for (user, product, quantity). A failed write changes neither table nor cache. After a successful write, a successful refetch leaves the cache synced and a failed one leaves the old cache in place. |
| Cart.CartStore.Merge | frontend/src/context/CartContext.jsx:53-61 | The update branch: the table gets the cached line's quantity plus q. A failed write changes neither table nor cache. After a successful write, a successful refetch leaves the cache synced and a failed one leaves the old cache in place. |
| Cart.CartStore.Insert | frontend/src/context/CartContext.jsx:62-70 | The insert branch: one row is appended when the write succeeds and the product exists. Otherwise nothing changes. After the insert, a successful refetch leaves the cache synced and a failed one leaves the old cache in place. |
| Cart.CartStore.UpdateQuantity | frontend/src/context/CartContext.jsx:73-87 | A quantity of 0 or less deletes the row, exactly as `removeFromCart` does. A positive quantity overwrites only that row. A failed write leaves the cache as it was. After a successful write with a user, a successful refetch syncs the cache and a failed one keeps the old cache; with no user the refetch empties it. |
| Cart.CartStore.RemoveFromCart | frontend/src/context/CartContext.jsx:89-98 | Deletes the row with that id, whoever owns it. A failed write changes nothing. After a successful write with a user, a successful refetch syncs the cache and no cached line has the id, and a failed one keeps the old cache; with no user the refetch empties it. |
| Cart.CartStore.GetCartTotal | frontend/src/context/CartContext.jsx:113-117 | The fold over the cache equals the sum of price x quantity, and is 0 for an empty cart. |
| Cart.CartStore.GetCartCount | frontend/src/context/CartContext.jsx:119-121 | The fold over the cache equals the sum of quantities, and is 0 for an empty cart. |
| Cart.CartStore.ClearCart | frontend/src/context/CartContext.jsx:100-111 | No user, or a failure, changes nothing. Success deletes every row of the user and empties the cache. |
| Wishlist.View | frontend/src/context/WishlistContext.jsx:27-33 | Only the user's rows, each with its product. |
| Wishlist.ViewComplete | frontend/src/context/WishlistContext.jsx:33 | Every row of the user shows. |
| Wishlist.DeleteEntries | frontend/src/context/WishlistContext.jsx:61-65 | Every row matching both user and product is gone. |
| Wishlist.DeleteEntriesKeepsOthers | frontend/src/context/WishlistContext.jsx:61-65 | Every other row stays. |
| Wishlist.DeleteEntriesIdempotent | frontend/src/context/WishlistContext.jsx:60-70 | Removing twice is removing once. |
| Wishlist.RemoveUndoesAdd | frontend/src/context/WishlistContext.jsx:51-70 | An insert followed by the delete of the same (user, product) leaves what the delete alone would leave. |
| Wishlist.ShownIffSaved | frontend/src/context/WishlistContext.jsx:72-74 | A product shows in the user's view exactly when the user has a row for it. |
| Wishlist.WishlistStore.IsInWishlist | frontend/src/context/WishlistContext.jsx:72-74 | Answered from the cache. When the cache is synced, it holds exactly when the user's (user, product) row is in the table. |
| Wishlist.WishlistStore.FetchWishlist | frontend/src/context/WishlistContext.jsx:20-39 | With no user the cache is emptied. A successful read syncs the cache, and a failed read keeps it. |
| Wishlist.WishlistStore.SetUser | frontend/src/context/WishlistContext.jsx:41-43 | A user change refetches. |
| Wishlist.WishlistStore.AddToWishlist | frontend/src/context/WishlistContext.jsx:45-58 | No user, a failed write or a missing product changes nothing. Otherwise one row is appended without a duplicate check, and after a successful refetch the list is synced and shows the product; a failed refetch keeps the old list. |
| Wishlist.WishlistStore.RemoveFromWishlist | frontend/src/context/WishlistContext.jsx:60-70 | No user or a failed write changes nothing. Otherwise every matching row is deleted, and after a successful refetch the list is synced and no longer shows the product, duplicates included; a failed refetch keeps the old list. |
| Checkout.Shipping | frontend/src/pages/Checkout.jsx:58 | Shipping is 0 or the fee, and is 0 exactly when the subtotal is over $50. |
| Checkout.TotalBounds | frontend/src/pages/Checkout.jsx:57-59 | The total lies between the subtotal and the subtotal plus the fee. Exactly $50 still pays the fee, and one cent more does not. |
| Checkout.OrderTotal | frontend/src/pages/Checkout.jsx:57-59 | The subtotal plus the shipping fee. |
| Checkout.CheckRequired | frontend/src/pages/Checkout.jsx:48-53 | The loop accepts exactly when all eight required fields are present and non-empty. |
| Checkout.InitialForm | frontend/src/pages/Checkout.jsx:12-21 | The form has the eight fields, all empty except the email, which is the user's or empty. |
| Checkout.InitialFormIncomplete | frontend/src/pages/Checkout.jsx:12-21 | The initial form does not pass validation. |
| Checkout.SnapshotPrice | frontend/src/pages/Checkout.jsx:83 | A joined non-zero price wins. A missing product or a price of 0 falls back to the line's own price. |
| Checkout.FreeProductFallsBack | frontend/src/pages/Checkout.jsx:83 | A product priced 0 is recorded at the line's price, or with no price at all. |
| Checkout.OrderItems | frontend/src/pages/Checkout.jsx:79-84 | One item per cart line, in order, with the order id, product id, quantity and snapshot price. |
| Checkout.OrderItemsBelongToOrder | frontend/src/pages/Checkout.jsx:79-84 | Every item carries the new order's id. |
| Checkout.CheckoutPage.HandleInputChange | frontend/src/pages/Checkout.jsx:26-31 | Only the named field changes. |
| Checkout.CheckoutPage.HandleSubmit | frontend/src/pages/Checkout.jsx:33-100 | No user, an empty cart or a missing field stops the submission before any write. A failed order insert writes nothing and clears nothing. A failed items insert keeps the order row but adds no items and clears nothing. Otherwise the order (user, total with shipping, "pending", form) and its items are written. A successful clear then deletes the user's cart rows and leaves the cache empty and synced; a failed one changes neither. Placed holds exactly when every guard passes and both inserts succeed. |
| CartPage.HandleCheckout | frontend/src/pages/Cart.jsx:17-30 | No user goes to login with redirect, whatever the cart holds. An empty or non-array cart goes to the shop, and anything else goes to checkout. |
| CartPage.SummaryTotal | frontend/src/pages/Cart.jsx:57-59 | The summary total is the checkout page's total for the same subtotal. |
| CartPage.MinusRequest | frontend/src/pages/Cart.jsx:96-97 | The minus button asks for quantity − 1, which at quantity 1 is 0 or less, a removal. |
| CartPage.TypedQuantity | frontend/src/pages/Cart.jsx:105 | A non-numeric or zero value is sent as 1. Any other number passes through. |
| CartPage.ButtonTarget | frontend/src/pages/Cart.jsx:69 | The id the buttons pass: the joined product's id, or the row's own id when no product is joined. |
| CartPage.PlusEnabled | frontend/src/pages/Cart.jsx:111-112 | Plus is enabled exactly when there is no joined product or the quantity is below the stock. |
| CartPage.PlusStaysWithinStock | frontend/src/pages/Cart.jsx:111-112 | An enabled plus never asks for more than the stock. |
| CartPage.RemoveButtonMissesLine | frontend/src/pages/Cart.jsx:123 | As written, "Remove" leaves the line in the table when the product id differs from the line id. |
| CartPage.RemoveButtonExample | frontend/src/pages/Cart.jsx:123 | Row 1 holding product 7 survives its own "Remove". |
| CartPage.RemoveIntendedDeletesLine | frontend/src/pages/Cart.jsx:123 | With the line's id, "Remove" deletes exactly that line and keeps every other. |
| Shop.Lookup | frontend/src/pages/Shop.jsx:47 | `filters[key]` finds the value stored under the key, or none exactly when the key is absent. |
| Shop.Assign | frontend/src/pages/Shop.jsx:75 | After `{...prev, [key]: value}` the key reads the new value and every other key reads what it did before. |
| Shop.AssignKeys | frontend/src/pages/Shop.jsx:75 | Keys keep their order, and a new key goes last. |
| Shop.AssignKeepsKeysUnique | frontend/src/pages/Shop.jsx:75 | The keys stay distinct. |
| Shop.NonEmptyExact | frontend/src/pages/Shop.jsx:46-48 | A filter is sent exactly when its value is non-empty. |
| Shop.BuildParams | frontend/src/pages/Shop.jsx:44-50 | The loop yields the non-empty filters in key order, then `page`, then `limit=12`. |
| Shop.DefaultParams | frontend/src/pages/Shop.jsx:14-50 | With the default filters only `sortBy=name`, the page and the limit go out. |
| Shop.Params | frontend/src/pages/Shop.jsx:44-50 | The non-empty filters in key order, then `page`, then `limit=12`. |
| Shop.ReadsListingResponse | frontend/src/pages/Shop.jsx:56-66 | The listing's own response is read back as its products and its `has_more`. |
| Shop.Fetched | frontend/src/pages/Shop.jsx:56-58 | An array body is the list itself; an object body gives its `products`, or none. |
| Shop.HasMore | frontend/src/pages/Shop.jsx:66 | `has_more` of an object body, false when absent or for an array. |
| Shop.ShopPage.FetchProducts | frontend/src/pages/Shop.jsx:42-72 | A failed request leaves the list and flag unchanged. Page 1 replaces the list; a later page is appended after the earlier items. `hasMore` is `has_more`, or false. |
| Shop.ShopPage.HandleFilterChange | frontend/src/pages/Shop.jsx:74-77 | Only that key changes, and the page resets to 1. |
| Shop.ShopPage.ClearFilters | frontend/src/pages/Shop.jsx:79-89 | The default filters (all empty, sortBy "name") and page 1. |
| Shop.ShopPage.LoadMore | frontend/src/pages/Shop.jsx:91 | The page grows by exactly 1. |
| ProductDetail.StepDown | frontend/src/pages/ProductDetail.jsx:178 | Minus gives q − 1, but never less than 1. |
| ProductDetail.Typed | frontend/src/pages/ProductDetail.jsx:182 | A typed value gives the number when it is at least 1, and 1 otherwise. |
| ProductDetail.StepUp | frontend/src/pages/ProductDetail.jsx:186 | Plus gives q + 1 or the stock, whichever is smaller. |
| ProductDetail.AddToCartEnabled | frontend/src/pages/ProductDetail.jsx:192 | The add-to-cart button is enabled exactly when the stock is not 0. |
| ProductDetail.StepsStayInRange | frontend/src/pages/ProductDetail.jsx:178-186 | From a quantity within [1, stock], both buttons stay within it. |
| ProductDetail.EmptyStockStepsToZero | frontend/src/pages/ProductDetail.jsx:186 | With stock 0, plus sets the quantity to 0. |
| ProductDetail.BySlug | frontend/src/pages/ProductDetail.jsx:30-34 | `maybeSingle` returns a product with the slug exactly when one product matches. |
| ProductDetail.Matching | frontend/src/pages/ProductDetail.jsx:33 | Only products with the slug. |
| ProductDetail.UniqueSlugFound | frontend/src/pages/ProductDetail.jsx:30-34 | A slug carried by exactly one product finds it. |
| ProductDetail.SingleMatch | frontend/src/pages/ProductDetail.jsx:33 | That product is the only match. |
| ProductDetail.NoMatch | frontend/src/pages/ProductDetail.jsx:30-34 | A slug no product carries matches nothing. |
| ProductDetail.SameCategory | frontend/src/pages/ProductDetail.jsx:40-44 | Only other products of the same category. |
| ProductDetail.SameCategoryComplete | frontend/src/pages/ProductDetail.jsx:40-44 | Every other product of the category is selected. |
| ProductDetail.Related | frontend/src/pages/ProductDetail.jsx:39-45 | At most 4 products, all of the same category and none the product itself. |
| ProductDetail.RelatedComplete | frontend/src/pages/ProductDetail.jsx:39-45 | With at most 4 such products, all are shown. |
| ProductDetail.NewestFirstIsTotalPreorder | frontend/src/pages/ProductDetail.jsx:50 | Newest-first is a total preorder. |
| ProductDetail.Of | frontend/src/pages/ProductDetail.jsx:49 | Only reviews of the product. |
| ProductDetail.OfComplete | frontend/src/pages/ProductDetail.jsx:49 | Every review of the product is selected. |
| ProductDetail.ReviewsOf | frontend/src/pages/ProductDetail.jsx:46-50 | The product's reviews, newest first, as a permutation of the selection. |
| ProductDetail.ReviewsOfExact | frontend/src/pages/ProductDetail.jsx:46-50 | A review is listed exactly when it belongs to the product. |
| ProductDetail.DetailPage.FetchProduct | frontend/src/pages/ProductDetail.jsx:27-58 | No single match leaves the page's data unchanged. Otherwise the product is shown, and the related products and reviews are replaced when their queries succeed. Loading ends. |
| ProductDetail.DetailPage.Decrement | frontend/src/pages/ProductDetail.jsx:178 | The quantity steps down. |
| ProductDetail.DetailPage.Increment | frontend/src/pages/ProductDetail.jsx:186 | The quantity steps up to at most the stock. |
| ProductDetail.DetailPage.TypeQuantity | frontend/src/pages/ProductDetail.jsx:182 | The quantity becomes the typed value clamped to at least 1. |
| ProductDetail.DetailPage.HandleAddToCart | frontend/src/pages/ProductDetail.jsx:60-62 | While the button is enabled, `addToCart` runs with the shown product and the selected quantity. No user changes nothing. A cached product gets its row's quantity raised, a new one is inserted. A write that does not happen leaves the cache as it was. After a write, a successful refetch leaves the cache synced and a failed one leaves the old cache in place. |
| ProductDetail.DetailPage.HandleWishlistToggle | frontend/src/pages/ProductDetail.jsx:64-70 | A saved product is removed and an unsaved one is saved. No user or a failed write changes nothing. After a successful write, a successful refetch flips membership and a failed one keeps the old list. |
| ProductDetail.DetailPage.HandleSubmitReview | frontend/src/pages/ProductDetail.jsx:72-94 | No user or a failed insert leaves the reviews table, the shown product, related products, reviews and loading flag as they were; a failed insert also keeps the form. On success one review is appended, the form resets to rating 5 with an empty comment, and the page refetches: a found slug reloads the product, and the related products and reviews whose reads succeed (the new review included), and loading ends. |
| Login.SignUpProblem | frontend/src/pages/Login.jsx:31-42 | A mismatch gives "Passwords do not match", checked first. Otherwise a password shorter than 6 gives the length error. Otherwise there is no problem. |
| Login.SignUpBoundaries | frontend/src/pages/Login.jsx:31-42 | A short mistyped password reports the mismatch. Length 5 is refused and length 6 is accepted. |
| Login.RedirectTarget | frontend/src/pages/Login.jsx:59-60 | The `redirect` parameter when present and non-empty, and "/" otherwise. |
| Login.LoginPage.HandleInputChange | frontend/src/pages/Login.jsx:18-24 | Only that field changes, and the error clears. |
| Login.LoginPage.ToggleMode | frontend/src/pages/Login.jsx:134-138 | The mode flips, and the error and all three fields clear. |
| Login.LoginPage.HandleSubmit | frontend/src/pages/Login.jsx:26-65 | In sign-up mode a validation problem makes no call and shows its message. A successful sign-up switches to sign-in, clears both passwords and keeps the email. In sign-in mode success navigates to the redirect target. A service error is shown, and loading always ends. |
| Home.NextSlide | frontend/src/pages/Home.jsx:69-71 | The step stays in [0, 3), moves to the next slide, and wraps from the last to 0. |
| Home.CarouselCycles | frontend/src/pages/Home.jsx:69-71 | Three steps return to the start, and one step always moves. |
| Home.FeaturedOnly | frontend/src/pages/Home.jsx:31 | Only products with a truthy `featured`. |
| Home.FeaturedOnlyComplete | frontend/src/pages/Home.jsx:31 | Every featured product passes the filter. |
| Home.FeaturedOnlyKeepsOrder | frontend/src/pages/Home.jsx:31 | The filter keeps the listing's relative order. |
| Home.Featured | frontend/src/pages/Home.jsx:31 | The first eight featured products. |
| Home.FeaturedSelection | frontend/src/pages/Home.jsx:31 | At most 8, all featured, in listing order. With at most 8 featured products, all of them. |
| Home.ListingHasNoFeatured | frontend/src/pages/Home.jsx:31 | Listing dictionaries, which lack `featured`, select nothing. |
| Home.ListingBodyIsNotAnArray | frontend/src/pages/Home.jsx:27-31 | The listing's response is not an array, so `.filter` throws. |
| Home.HomePage.FetchData | frontend/src/pages/Home.jsx:17-40 | With an array body and categories, the page shows the featured selection and the categories. Otherwise both lists stay as they were. Loading ends. |
| Home.HomePage.Tick | frontend/src/pages/Home.jsx:69-71 | The slide index takes one step. |
| Home.HomePage.SelectDot | frontend/src/pages/Home.jsx:108-112 | The slide index becomes the dot's position. |
| Text.Lower | backend/app.py:58-67 | ASCII lower-casing, character by character. |
| Text.ContainsHasOccurrence | backend/app.py:58-67 | A successful scan has found an occurrence. |
| Text.OccurrenceIsContained | backend/app.py:58-67 | Any occurrence is found by the scan. |
| Text.EmptyPatternMatchesAll | backend/app.py:58-67 | An empty pattern matches every name. |
| Text.LexLeTotal | backend/app.py:77 | Name order is total. |
| Text.LexLeTransitive | backend/app.py:77 | Name order is transitive. |
| Text.LexLeAntisymmetric | backend/app.py:77 | Name order is antisymmetric. |
| Text.Decimal | frontend/src/pages/Shop.jsx:49-50 | The decimal string has only digits and no leading zero. |
| Text.DecimalRoundTrip | frontend/src/pages/Shop.jsx:49-50 | Reading the digits back gives the number. |
| Text.DecimalInjective | frontend/src/pages/Shop.jsx:49-50 | Distinct pages give distinct strings. |
| Sorting.SortBy | backend/app.py:69-77 | The result is sorted and a permutation of the input. |

## Left out

- `create_product` and the featured routes (`backend/app.py:28-41`, `101-116`): they read or write `Product.featured`, which `backend/models.py:24-48` does not declare. The combined route's featured section is modelled with an explicit set of flagged ids instead.
- The `/` welcome route: it returns a constant.
- Hosted-table access control and the authentication service: the user is a parameter. The `signIn`/`signUp` calls are represented by the call the login page makes and the error it receives.
- `ilike` wildcards: `%` and `_` typed inside a search or category filter are matched literally. Case folding is ASCII only.
- Floating point: prices and ratings are integers (cents and tenths). `parseFloat`, `parseInt`, `toFixed` and `Math.round` appear only through their integer results; a parsed number is an `Option<int>` parameter.
- Timers and races: the carousel's `setInterval` and the shop's message timeout are not modelled, and each asynchronous operation runs to completion before the next.
- Rendering: JSX, styles, `alert`, `navigate` and the product page's image gallery (`selectedImage`) are not modelled. The shop page's categories fetch only fills a drop-down.
- Order among equal sort keys: SQL leaves ties unordered, while the model's sort is stable. Only sortedness and permutation are promised.
- `frontend/src/components/ProductCard.jsx` and `frontend/src/pages/Wishlist.jsx` are view code and are not part of this model. They pass whole product objects, or read a `wishlist` field the store does not export, and the stores are modelled with the ids the contexts declare.
- Checkout.CheckoutPage.HandleSubmit: the payment method is collected but never sent, and the confirmation URL built from the order id is not modelled.
- `backend/seed.py`, `App.jsx`, `Navbar.jsx`, `Orders.jsx` and `OrderConfirmation.jsx` are not part of this model.
- Catalog.GetProducts: `paginate` is modelled for page ≥ 1 and limit ≥ 1 only.
- Api.Session.UpdateProduct: the body's values must already have their columns' JSON types. A value of the wrong type, which SQLite would store anyway, is not modelled.
- Api.Session.UpdateProduct: of the attributes `hasattr` finds on a product, only the columns, `category`, `cart_items` and `to_dict` are followed. Other inherited names (`query`, `metadata`, `registry`, dunder and `_sa_` attributes) are treated as unknown keys.
- Api.Session.UpdateProduct: `category: null` is modelled as clearing category_id even when the same body also sets `category_id`; the flush order between the two is not modelled.
- Api.Session.UpdateProduct: the body is a parsed JSON object, so its keys are distinct (a repeated key in the request text keeps only its last value before the route sees it).
- Api.NextRowId: SQLite picks a random unused row id once the largest id reaches 2^63 − 1; only the max + 1 rule is modelled.
- Hosted-table read order: the cart and wishlist reads (`frontend/src/context/CartContext.jsx:27-33`, `frontend/src/context/WishlistContext.jsx:27-33`) and the related-products read have no `.order()`, so the service may return rows in any order. The model returns them in table order: `Synced()`, the wishlist view and the first four related products fix that order, where the source only fixes the set of rows.
- Login.LoginPage.HandleSubmit: the password length is counted in characters, not UTF-16 code units.

## Findings

| source | as written | input that shows it | evidently intended | confidence | as-written member | corrected member |
|---|---|---|---|---|---|---|
| frontend/src/pages/Cart.jsx:68-123 | The quantity and remove buttons pass `(item.products \|\| item).id`, which is the product's id, to store operations that match `cart_items.id`. | Cart row 1 holds product 7: "Remove" deletes row 7, if any, and row 1 stays. | Pass the cart line's own id. | not executed | CartPage.RemoveButtonMissesLine | CartPage.RemoveIntendedDeletesLine |
