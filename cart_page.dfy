/** The cart page (frontend/src/pages/Cart.jsx): where "Proceed to
    checkout" goes, and what its quantity and remove buttons ask the cart
    store to do. */
module CartPage {
  import opened Common
  import Cart
  import Checkout

  /** The `cartItems` value the page receives; the page guards against it
      not being an array. */
  datatype CartValue = Lines(lines: seq<Cart.Line>) | NotAnArray

  datatype Route = LoginThenCheckout | ShopRoute | CheckoutRoute

  /** The path each route navigates to. */
  function Path(r: Route): string {
    match r
    case LoginThenCheckout => "/login?redirect=/checkout"
    case ShopRoute => "/shop"
    case CheckoutRoute => "/checkout"
  }

  /** `handleCheckout`: login first, whatever the cart holds; then an empty
      or malformed cart goes to the shop. */
  function HandleCheckout(user: Option<nat>, cart: CartValue): (r: Route)
    ensures user.None? ==> r == LoginThenCheckout
    ensures user.Some? ==> (r == CheckoutRoute <==> cart.Lines? && cart.lines != [])
    ensures r == ShopRoute <==> user.Some? && (cart.NotAnArray? || cart.lines == [])
  {
    if user.None? then LoginThenCheckout
    else if cart.NotAnArray? || |cart.lines| == 0 then ShopRoute
    else CheckoutRoute
  }

  /** The summary's total uses the checkout page's shipping rule. */
  function SummaryTotal(lines: seq<Cart.Line>): (r: int)
    requires Cart.AllJoined(lines)
    ensures r == Checkout.OrderTotal(Cart.Total(lines))
    ensures Cart.Total(lines) > Checkout.FreeShippingAbove ==> r == Cart.Total(lines)
  {
    var subtotal := Cart.Total(lines);
    subtotal + (if subtotal > 50 * 100 then 0 else 10 * 100)
  }

  /** `(item.products || item).id`: the id the buttons pass to the store. */
  function ButtonTarget(l: Cart.Line): nat {
    if l.products.Some? then l.products.value.id else l.row.id
  }

  /** The id the store's `updateQuantity` and `removeFromCart` match on. */
  function IntendedTarget(l: Cart.Line): nat {
    l.row.id
  }

  /** The minus button asks for one less; at quantity 1 that is 0, which the
      store treats as a removal. */
  function MinusRequest(l: Cart.Line): (r: (nat, int))
    ensures r.1 == l.row.quantity - 1
    ensures l.row.quantity <= 1 ==> r.1 <= 0
  {
    (ButtonTarget(l), l.row.quantity - 1)
  }

  /** `parseInt(value) || 1`: no number, or 0, becomes 1; other numbers,
      negative ones included, pass through. */
  function TypedQuantity(parsed: Option<int>): (r: int)
    ensures r != 0
    ensures parsed.Some? && parsed.value != 0 ==> r == parsed.value
    ensures parsed.None? ==> r == 1
  {
    if parsed.None? || parsed.value == 0 then 1 else parsed.value
  }

  /** `disabled={item.quantity >= product.stock}`; without a joined product
      the comparison is with `undefined`, which is false. */
  function PlusEnabled(l: Cart.Line): (r: bool)
    ensures r <==> l.products.None? || l.row.quantity < l.products.value.stock
  {
    !(l.products.Some? && l.row.quantity >= l.products.value.stock)
  }

  /** Pressing plus while enabled never asks for more than the stock. */
  lemma PlusStaysWithinStock(l: Cart.Line)
    requires l.products.Some? && PlusEnabled(l)
    ensures l.row.quantity + 1 <= l.products.value.stock
  {
  }

  /** As written, "Remove" deletes the row whose id equals the product's id:
      when the two differ, the line itself stays in the table. */
  lemma {:induction false} RemoveButtonMissesLine(table: seq<Cart.Row>, l: Cart.Line)
    requires l.row in table
    requires l.products.Some? && l.products.value.id != l.row.id
    ensures l.row in Cart.DeleteId(table, ButtonTarget(l))
  {
  }

  /** A concrete instance: cart row 1 holds product 7; removing it leaves row 1. */
  lemma RemoveButtonExample()
    ensures var row := Cart.Row(1, 3, 7, 2, None);
      var l := Cart.Line(row, Some(Cart.Product(7, "mug", "Mug", 1200, 5, 1)));
      row in Cart.DeleteId([row], ButtonTarget(l))
  {
    var row := Cart.Row(1, 3, 7, 2, None);
    assert row in [row];
  }

  /** With the line's own id, "Remove" deletes exactly that line. */
  lemma RemoveIntendedDeletesLine(table: seq<Cart.Row>, l: Cart.Line)
    ensures l.row !in Cart.DeleteId(table, IntendedTarget(l))
    ensures forall x :: x in table && x.id != l.row.id ==> x in Cart.DeleteId(table, IntendedTarget(l))
  {
  }
}
