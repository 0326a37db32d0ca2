/** The checkout page (frontend/src/pages/Checkout.jsx): the shipping rule,
    the order-item snapshot and the guarded order submission. Amounts are
    integer cents, so the page's "more than $50 ships free, else $10" is
    5000 and 1000 here. */
module Checkout {
  import opened Common
  import Cart

  const FreeShippingAbove: int := 5000
  const ShippingFee: int := 1000

  /** `subtotal > 50 ? 0 : 10`. */
  function Shipping(subtotal: int): (r: int)
    ensures r == 0 || r == ShippingFee
    ensures r == 0 <==> subtotal > FreeShippingAbove
  {
    if subtotal > FreeShippingAbove then 0 else ShippingFee
  }

  function OrderTotal(subtotal: int): int {
    subtotal + Shipping(subtotal)
  }

  /** The total never falls below the subtotal and adds at most the fee; a
      subtotal of exactly $50 still pays it. */
  lemma TotalBounds(subtotal: int)
    ensures subtotal <= OrderTotal(subtotal) <= subtotal + ShippingFee
    ensures OrderTotal(FreeShippingAbove) == FreeShippingAbove + ShippingFee
    ensures OrderTotal(FreeShippingAbove + 1) == FreeShippingAbove + 1
  {
  }

  /** The shipping form fields, each required. */
  const RequiredFields: seq<string> := ["fullName", "email", "phone", "address", "city", "state", "zipCode", "country"]

  /** `!formData[key]` is false: the key is present and not the empty string. */
  predicate Filled(form: map<string, string>, key: string) {
    key in form && form[key] != ""
  }

  ghost predicate AllFilled(form: map<string, string>) {
    forall k :: k in RequiredFields ==> Filled(form, k)
  }

  /** The validation loop over the required keys, stopping at the first empty one. */
  method CheckRequired(form: map<string, string>) returns (ok: bool)
    ensures ok <==> AllFilled(form)
  {
    for i := 0 to |RequiredFields|
      invariant forall j :: 0 <= j < i ==> Filled(form, RequiredFields[j])
    {
      if !Filled(form, RequiredFields[i]) {
        return false;
      }
    }
    return true;
  }

  /** The form's starting value: every field empty but the email, which is the user's. */
  function InitialForm(email: Option<string>): (form: map<string, string>)
    ensures form.Keys == set k | k in RequiredFields
    ensures forall k :: k in RequiredFields && k != "email" ==> form[k] == ""
    ensures form["email"] == email.GetOr("")
  {
    map["fullName" := "", "email" := email.GetOr(""), "phone" := "", "address" := "",
        "city" := "", "state" := "", "zipCode" := "", "country" := ""]
  }

  /** The fresh form fails validation unless the user types every field. */
  lemma InitialFormIncomplete(email: Option<string>)
    ensures !AllFilled(InitialForm(email))
  {
    assert !Filled(InitialForm(email), "fullName");
  }

  datatype Order = Order(id: nat, userId: nat, totalAmount: int, status: string, shippingAddress: map<string, string>)

  datatype OrderItem = OrderItem(orderId: nat, productId: nat, quantity: int, price: Option<int>)

  /** `item.products?.price || item.price`: a joined product with a non-zero
      price wins; a missing product or a price of 0 falls back to the
      line's own price column. */
  function SnapshotPrice(l: Cart.Line): (r: Option<int>)
    ensures l.products.Some? && l.products.value.price != 0 ==> r == Some(l.products.value.price)
    ensures l.products.None? || l.products.value.price == 0 ==> r == l.row.price
  {
    if l.products.Some? && l.products.value.price != 0 then Some(l.products.value.price) else l.row.price
  }

  /** A product given away for free is recorded at the line's own price, or
      with no price at all. */
  lemma FreeProductFallsBack(l: Cart.Line)
    requires l.products.Some? && l.products.value.price == 0
    ensures SnapshotPrice(l) == l.row.price
    ensures l.row.price.None? ==> SnapshotPrice(l).None?
  {
  }

  /** `cartItems.map(...)`: one item per line, in cart order. */
  function OrderItems(orderId: nat, lines: seq<Cart.Line>): (items: seq<OrderItem>)
    ensures |items| == |lines|
    ensures forall k :: 0 <= k < |lines| ==>
      items[k] == OrderItem(orderId, lines[k].row.productId, lines[k].row.quantity, SnapshotPrice(lines[k]))
  {
    if lines == [] then [] else [OrderItem(orderId, lines[0].row.productId, lines[0].row.quantity, SnapshotPrice(lines[0]))] + OrderItems(orderId, lines[1..])
  }

  /** Every item belongs to the new order, so the items of earlier orders are untouched. */
  lemma OrderItemsBelongToOrder(orderId: nat, lines: seq<Cart.Line>)
    ensures forall it :: it in OrderItems(orderId, lines) ==> it.orderId == orderId
  {
    var items := OrderItems(orderId, lines);
    forall it | it in items ensures it.orderId == orderId {
      var k :| 0 <= k < |items| && items[k] == it;
    }
  }

  /** The hosted `orders` and `order_items` tables. */
  class OrderBook {
    var orders: seq<Order>
    var items: seq<OrderItem>
    var nextOrderId: nat

    ghost predicate Valid()
      reads this
    {
      forall o :: o in orders ==> o.id < nextOrderId
    }

    constructor ()
      ensures Valid() && orders == [] && items == [] && nextOrderId == 0
    {
      orders, items, nextOrderId := [], [], 0;
    }
  }

  /** How a submission ends: the first guard that stops it, or the order placed. */
  datatype Outcome = LoginRequired | CartEmpty | MissingFields | OrderFailed | ItemsFailed(orderId: nat) | Placed(orderId: nat)

  class CheckoutPage {
    var form: map<string, string>
    var paymentMethod: string
    var processing: bool

    constructor (email: Option<string>)
      ensures form == InitialForm(email) && paymentMethod == "card" && !processing
    {
      form := InitialForm(email);
      paymentMethod := "card";
      processing := false;
    }

    /** `handleInputChange`: only the named field changes. */
    method HandleInputChange(name: string, value: string)
      modifies this`form
      ensures form == old(form)[name := value]
      ensures forall k :: k != name && k in old(form) ==> k in form && form[k] == old(form)[k]
    {
      form := form[name := value];
    }

    /** `handleSubmit`. `orderOk` and `itemsOk` say whether the two inserts
        succeed, `clearOk` whether the cart clear does. */
    method HandleSubmit(cart: Cart.CartStore, book: OrderBook, orderOk: bool, itemsOk: bool, clearOk: bool)
      returns (outcome: Outcome)
      requires cart.Valid() && book.Valid()
      modifies this`processing, book, cart`table, cart`cartItems
      ensures cart.Valid() && book.Valid()
      ensures cart.user.None? ==> outcome == LoginRequired
      ensures cart.user.Some? && old(cart.cartItems) == [] ==> outcome == CartEmpty
      ensures cart.user.Some? && old(cart.cartItems) != [] && !AllFilled(form) ==> outcome == MissingFields
      ensures outcome in {LoginRequired, CartEmpty, MissingFields} ==>
        && processing == old(processing)
        && book.orders == old(book.orders) && book.items == old(book.items)
      ensures outcome.OrderFailed? ==> !processing && book.orders == old(book.orders) && book.items == old(book.items)
      ensures outcome.ItemsFailed? || outcome.Placed? ==>
        && outcome.orderId == old(book.nextOrderId)
        && book.orders == old(book.orders) + [Order(outcome.orderId, cart.user.value,
             OrderTotal(Cart.Total(old(cart.cartItems))), "pending", form)]
      ensures outcome.ItemsFailed? ==> !processing && book.items == old(book.items)
      ensures outcome.Placed? ==> processing && book.items == old(book.items) + OrderItems(outcome.orderId, old(cart.cartItems))
      ensures !outcome.Placed? ==> cart.table == old(cart.table) && cart.cartItems == old(cart.cartItems)
      ensures outcome.Placed? && clearOk ==>
        cart.table == Cart.DeleteUser(old(cart.table), cart.user.value) && cart.cartItems == [] && cart.Synced()
      ensures outcome.Placed? && !clearOk ==> cart.table == old(cart.table) && cart.cartItems == old(cart.cartItems)
      ensures outcome.Placed? || outcome.ItemsFailed? || outcome.OrderFailed? ==>
        cart.user.Some? && old(cart.cartItems) != [] && AllFilled(form)
      ensures outcome.Placed? <==> cart.user.Some? && old(cart.cartItems) != [] && AllFilled(form) && orderOk && itemsOk
    {
      if cart.user.None? {
        return LoginRequired;
      }
      if |cart.cartItems| == 0 {
        return CartEmpty;
      }
      var filled := CheckRequired(form);
      if !filled {
        return MissingFields;
      }
      processing := true;
      var total := OrderTotal(Cart.Total(cart.cartItems));
      if !orderOk {
        processing := false;
        return OrderFailed;
      }
      var id := book.nextOrderId;
      book.orders := book.orders + [Order(id, cart.user.value, total, "pending", form)];
      book.nextOrderId := book.nextOrderId + 1;
      if !itemsOk {
        processing := false;
        return ItemsFailed(id);
      }
      book.items := book.items + OrderItems(id, cart.cartItems);
      cart.ClearCart(clearOk);
      return Placed(id);
    }
  }
}
