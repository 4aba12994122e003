/**
 * Order placement: the three order handlers (cash on delivery, dummy online
 * payment, plain place-order) share one loop that turns the posted cart
 * into order-item rows and, for products sold by farmers, farmer
 * notification rows. Each handler runs its own checks before it writes the
 * order; only place-order computes the total from the cart, the other two
 * store the amount the client posts. Generating order numbers, OTPs and
 * timestamps, and the database inserts, are outside the model: the order
 * id, the status and the timestamp come in as an `OrderContext`.
 */
module Orders {
  import opened Wrappers
  import opened Catalog
  import Cart
  import Validation

  /** A cart entry as the checkout posts it. */
  datatype CartEntry = CartEntry(id: string, name: string, qty: int, price: int)

  /** The order-level values every row of one order carries. */
  datatype OrderContext = OrderContext(
    orderId: int,
    customerUsername: string,
    customerName: string,
    status: string,
    createdAt: string)

  datatype OrderItemRow = OrderItemRow(
    orderId: int, productId: string, productName: string, quantity: int, price: int)

  datatype NotificationRow = NotificationRow(
    farmerUsername: string,
    orderId: int,
    productId: string,
    productName: string,
    quantity: int,
    customerUsername: string,
    customerName: string,
    status: string,
    createdAt: string,
    price: int)

  datatype OrderError =
    | UserNotFound        // "User not found"
    | CartItemsMissing    // "Cart items missing for this order"
    | CartEmpty           // "Cart is empty"
    | IncompleteDetails   // "Please complete your delivery details"
    | HandlerRaised       // the handler raised; the reply carries the exception text
    | AmountMismatch      // the posted amount is not the cart's total

  // ---------------------------------------------------------------------
  // Checks before an order is written

  /** Cash-on-delivery order creation: the user is looked up first, then the cart. */
  function CheckCreateOrder(user: Option<Validation.DeliveryDetails>, cart: seq<CartEntry>): (r: Option<OrderError>)
    ensures r == None <==> user.Some? && cart != []
    ensures r == Some(UserNotFound) <==> user.None?
    ensures r == Some(CartItemsMissing) <==> user.Some? && cart == []
  {
    if user.None? then Some(UserNotFound)
    else if cart == [] then Some(CartItemsMissing)
    else None
  }

  /**
   * Dummy online payment: only the cart is checked. A user without stored
   * details makes the handler raise when it reads them for the insert.
   */
  function CheckVerifyPayment(user: Option<Validation.DeliveryDetails>, cart: seq<CartEntry>)
    : (r: Option<OrderError>)
    ensures r == None <==> cart != [] && user.Some?
    ensures r == Some(CartItemsMissing) <==> cart == []
    ensures r == Some(HandlerRaised) <==> cart != [] && user.None?
  {
    if cart == [] then Some(CartItemsMissing)
    else if user.None? then Some(HandlerRaised)
    else None
  }

  /** Plain order placement: the cart is checked first, then the delivery details. */
  function CheckPlaceOrder(user: Option<Validation.DeliveryDetails>, cart: seq<CartEntry>)
    : (r: Option<OrderError>)
    ensures r == None <==> cart != [] && user.Some? && Validation.AllFilled(user.value)
    ensures r == Some(CartEmpty) <==> cart == []
    ensures r == Some(IncompleteDetails) <==>
      cart != [] && (user.None? || !Validation.AllFilled(user.value))
  {
    if cart == [] then Some(CartEmpty)
    else if user.None? || !Validation.AllFilled(user.value) then Some(IncompleteDetails)
    else None
  }

  /**
   * Details the delivery-details form accepted always pass place-order's
   * check: with a non-empty cart, a customer who saved their details can
   * order.
   */
  lemma StoredDetailsPassPlaceOrder(name: string, address: string, pincode: string, phone: string,
                                    cart: seq<CartEntry>)
    requires Validation.ValidateDeliveryDetails(name, address, pincode, phone).Ok?
    requires cart != []
    ensures CheckPlaceOrder(Some(Validation.ValidateDeliveryDetails(name, address, pincode, phone).value), cart)
         == None
  {
  }

  // ---------------------------------------------------------------------
  // Which products notify a farmer

  /**
   * The farmer lookup the handlers build from the catalog: product id to
   * seller username for every farmer entry. Entries are read front to back,
   * so a later farmer entry with the same id overwrites an earlier one.
   */
  function FarmerIndex(ps: seq<Product>): (m: map<string, string>)
    ensures |m| <= |ps|
    decreases |ps|
  {
    if ps == [] then map[]
    else
      var last := ps[|ps| - 1];
      var m := FarmerIndex(ps[..|ps| - 1]);
      if last.sellerType == FarmerSeller then m[last.id := last.sellerUsername] else m
  }

  /** The index of the last farmer entry with id `id`, if any. */
  function LastFarmerEntry(ps: seq<Product>, id: string): (r: Option<nat>)
    ensures r.Some? ==> r.value < |ps| && IsFarmerEntry(ps[r.value], id)
    ensures r.Some? ==> forall j | r.value < j < |ps| :: !IsFarmerEntry(ps[j], id)
    ensures r.None? ==> forall j | 0 <= j < |ps| :: !IsFarmerEntry(ps[j], id)
    decreases |ps|
  {
    if ps == [] then None
    else if IsFarmerEntry(ps[|ps| - 1], id) then Some(|ps| - 1)
    else LastFarmerEntry(ps[..|ps| - 1], id)
  }

  /**
   * An id is in the lookup exactly when some farmer entry has it, and it
   * maps to the seller of the last such entry.
   */
  lemma {:induction false} FarmerIndexLookup(ps: seq<Product>, id: string)
    ensures id in FarmerIndex(ps) <==> LastFarmerEntry(ps, id).Some?
    ensures id in FarmerIndex(ps) ==>
      FarmerIndex(ps)[id] == ps[LastFarmerEntry(ps, id).value].sellerUsername
    decreases |ps|
  {
    if ps != [] {
      FarmerIndexLookup(ps[..|ps| - 1], id);
    }
  }

  /** The loop that fills the farmer lookup. */
  method BuildFarmerIndex(ps: seq<Product>) returns (m: map<string, string>)
    ensures m == FarmerIndex(ps)
  {
    m := map[];
    var i := 0;
    while i < |ps|
      invariant 0 <= i <= |ps|
      invariant m == FarmerIndex(ps[..i])
    {
      assert ps[..i + 1][..i] == ps[..i];
      if ps[i].sellerType == FarmerSeller {
        m := m[ps[i].id := ps[i].sellerUsername];
      }
      i := i + 1;
    }
    assert ps[..i] == ps;
  }

  /**
   * A cart entry raises a farmer notification when its product id is in
   * the lookup with a non-empty seller username (an empty one is falsy).
   */
  predicate Notifies(index: map<string, string>, e: CartEntry)
  {
    e.id in index && index[e.id] != ""
  }

  /**
   * Against a lookup built from the catalog: an entry notifies exactly when
   * the catalog has a farmer entry with its id and the last such entry has
   * a non-empty seller.
   */
  lemma NotifiesFromCatalog(ps: seq<Product>, e: CartEntry)
    ensures Notifies(FarmerIndex(ps), e) <==>
      LastFarmerEntry(ps, e.id).Some? && ps[LastFarmerEntry(ps, e.id).value].sellerUsername != ""
  {
    FarmerIndexLookup(ps, e.id);
  }

  // ---------------------------------------------------------------------
  // The rows an order produces

  function ItemRow(ctx: OrderContext, e: CartEntry): OrderItemRow
  {
    OrderItemRow(ctx.orderId, e.id, e.name, e.qty, e.price)
  }

  function NotificationFor(ctx: OrderContext, farmer: string, e: CartEntry): NotificationRow
  {
    NotificationRow(farmer, ctx.orderId, e.id, e.name, e.qty,
                    ctx.customerUsername, ctx.customerName, ctx.status, ctx.createdAt, e.price)
  }

  /** The order-item rows: one per cart entry, in cart order. */
  function ItemRows(ctx: OrderContext, cart: seq<CartEntry>): (r: seq<OrderItemRow>)
    ensures |r| == |cart|
    ensures forall i | 0 <= i < |cart| :: r[i] == ItemRow(ctx, cart[i])
    decreases |cart|
  {
    if cart == [] then []
    else ItemRows(ctx, cart[..|cart| - 1]) + [ItemRow(ctx, cart[|cart| - 1])]
  }

  /** The notification rows: one per notifying cart entry, in cart order. */
  function NotificationRows(ctx: OrderContext, index: map<string, string>, cart: seq<CartEntry>)
    : (r: seq<NotificationRow>)
    ensures |r| <= |cart|
    decreases |cart|
  {
    if cart == [] then []
    else
      var e := cart[|cart| - 1];
      NotificationRows(ctx, index, cart[..|cart| - 1]) +
      (if Notifies(index, e) then [NotificationFor(ctx, index[e.id], e)] else [])
  }

  /**
   * Every notifying cart entry yields its notification, addressed to the
   * farmer the lookup names, and every notification comes from such an
   * entry.
   */
  lemma {:induction false} NotificationRowsExact(ctx: OrderContext, index: map<string, string>, cart: seq<CartEntry>)
    ensures forall i | 0 <= i < |cart| && Notifies(index, cart[i]) ::
      NotificationFor(ctx, index[cart[i].id], cart[i]) in NotificationRows(ctx, index, cart)
    ensures forall n | n in NotificationRows(ctx, index, cart) ::
      exists i | 0 <= i < |cart| ::
        Notifies(index, cart[i]) && n == NotificationFor(ctx, index[cart[i].id], cart[i])
    decreases |cart|
  {
    if cart != [] {
      var init := cart[..|cart| - 1];
      NotificationRowsExact(ctx, index, init);
      assert forall i | 0 <= i < |init| :: init[i] == cart[i];
    }
  }

  /** Notifications follow the cart's order: the rows of a split cart are the rows of its parts. */
  lemma {:induction false} NotificationRowsAppend(ctx: OrderContext, index: map<string, string>,
                                                  a: seq<CartEntry>, b: seq<CartEntry>)
    ensures NotificationRows(ctx, index, a + b)
         == NotificationRows(ctx, index, a) + NotificationRows(ctx, index, b)
    decreases |b|
  {
    if b == [] {
      assert a + b == a;
    } else {
      var n := |b| - 1;
      assert (a + b)[..|a + b| - 1] == a + b[..n];
      assert (a + b)[|a + b| - 1] == b[n];
      NotificationRowsAppend(ctx, index, a, b[..n]);
    }
  }

  /**
   * The loop of the three order handlers: append one order-item row per
   * cart entry and, when the entry's product belongs to a farmer, one
   * notification row.
   */
  method BuildOrderRows(ctx: OrderContext, index: map<string, string>, cart: seq<CartEntry>)
    returns (items: seq<OrderItemRow>, notifications: seq<NotificationRow>)
    ensures items == ItemRows(ctx, cart)
    ensures notifications == NotificationRows(ctx, index, cart)
  {
    items, notifications := [], [];
    var i := 0;
    while i < |cart|
      invariant 0 <= i <= |cart|
      invariant items == ItemRows(ctx, cart[..i])
      invariant notifications == NotificationRows(ctx, index, cart[..i])
    {
      assert cart[..i + 1][..i] == cart[..i];
      var e := cart[i];
      items := items + [ItemRow(ctx, e)];
      if Notifies(index, e) {
        notifications := notifications + [NotificationFor(ctx, index[e.id], e)];
      }
      i := i + 1;
    }
    assert cart[..i] == cart;
  }

  // ---------------------------------------------------------------------
  // Totals

  /** The order total place-order computes: price times quantity, summed over the cart. */
  function OrderTotal(cart: seq<CartEntry>): int
    decreases |cart|
  {
    if cart == [] then 0
    else OrderTotal(cart[..|cart| - 1]) + cart[|cart| - 1].price * cart[|cart| - 1].qty
  }

  /** The same sum over the order-item rows written for an order. */
  function RowsTotal(rows: seq<OrderItemRow>): int
    decreases |rows|
  {
    if rows == [] then 0
    else RowsTotal(rows[..|rows| - 1]) + rows[|rows| - 1].price * rows[|rows| - 1].quantity
  }

  /** The order's total matches the total of the order-item rows written for it. */
  lemma {:induction false} OrderTotalMatchesRows(ctx: OrderContext, cart: seq<CartEntry>)
    ensures RowsTotal(ItemRows(ctx, cart)) == OrderTotal(cart)
    decreases |cart|
  {
    if cart != [] {
      var n := |cart| - 1;
      var rows := ItemRows(ctx, cart);
      assert rows[..n] == ItemRows(ctx, cart[..n]);
      OrderTotalMatchesRows(ctx, cart[..n]);
    }
  }

  /** With no negative price or quantity, the order total is never negative. */
  lemma {:induction false} OrderTotalNonNegative(cart: seq<CartEntry>)
    requires forall i | 0 <= i < |cart| :: cart[i].price >= 0 && cart[i].qty >= 0
    ensures OrderTotal(cart) >= 0
    decreases |cart|
  {
    if cart != [] {
      var n := |cart| - 1;
      OrderTotalNonNegative(cart[..n]);
      assert cart[n].price * cart[n].qty >= 0;
    }
  }

  // ---------------------------------------------------------------------
  // The stored total of the cash-on-delivery and online-payment handlers

  /**
   * As written: once the handler's own check passes, the order is stored
   * with the amount the client posted, whatever the cart adds up to.
   * `check` is the handler's check (CheckCreateOrder or CheckVerifyPayment).
   */
  function StoredTotalAsWritten(check: Option<OrderError>, amount: int): (r: Result<int, OrderError>)
    ensures r.Err? <==> check.Some?
    ensures r.Ok? ==> r.value == amount
  {
    match check
    case Some(e) => Err(e)
    case None => Ok(amount)
  }

  /** A valid customer can store an order of 80 for a total of 1. */
  lemma PostedAmountUnchecked()
    ensures var d := Validation.DeliveryDetails("Asha", "12 Market Road", "560001", "9876543210");
      var cart := [CartEntry("p1", "Tomatoes", 2, 40)];
      OrderTotal(cart) == 80 &&
      StoredTotalAsWritten(CheckCreateOrder(Some(d), cart), 1) == Ok(1) &&
      StoredTotalAsWritten(CheckVerifyPayment(Some(d), cart), 1) == Ok(1)
  {
    var cart := [CartEntry("p1", "Tomatoes", 2, 40)];
    assert cart[..0] == [];
  }

  /**
   * Corrected: after the handler's own check, the posted amount must equal
   * the cart's total, so a stored order always carries its cart's total.
   */
  function StoredTotal(check: Option<OrderError>, cart: seq<CartEntry>, amount: int)
    : (r: Result<int, OrderError>)
    ensures r.Ok? <==> check.None? && amount == OrderTotal(cart)
    ensures r.Ok? ==> r.value == OrderTotal(cart)
    ensures check.Some? ==> r == Err(check.value)
  {
    match check
    case Some(e) => Err(e)
    case None => if amount == OrderTotal(cart) then Ok(amount) else Err(AmountMismatch)
  }

  /** The corrected handlers store the total of the item rows they write. */
  lemma StoredTotalMatchesRows(ctx: OrderContext, check: Option<OrderError>, cart: seq<CartEntry>, amount: int)
    requires StoredTotal(check, cart, amount).Ok?
    ensures StoredTotal(check, cart, amount).value == RowsTotal(ItemRows(ctx, cart))
  {
    OrderTotalMatchesRows(ctx, cart);
  }

  /** Where the posted amount is the cart's total, the correction accepts what the handlers accept. */
  lemma StoredTotalAgrees(check: Option<OrderError>, cart: seq<CartEntry>)
    ensures StoredTotal(check, cart, OrderTotal(cart)) == StoredTotalAsWritten(check, OrderTotal(cart))
  {
  }

  // ---------------------------------------------------------------------
  // The quantity of a posted cart entry

  /**
   * A cart entry as it arrives in the request: the handlers read `qty`,
   * while the storefront's checkout page sends `quantity`.
   */
  datatype PostedItem = PostedItem(id: string, name: string, price: int, qty: Option<int>, quantity: Option<int>)

  /** What the checkout page posts for one cart item. */
  function CheckoutItem(it: Cart.Item, name: string): PostedItem
  {
    PostedItem(it.id, name, it.price, None, Some(it.quantity))
  }

  /** As written: `qty`, or one when it is absent. */
  function QtyAsWritten(p: PostedItem): (q: int)
    ensures p.qty.Some? ==> q == p.qty.value
    ensures p.qty.None? ==> q == 1
  {
    if p.qty.Some? then p.qty.value else 1
  }

  /** Whatever the checkout page posts, the order holds one of each item. */
  lemma CheckoutQuantityLost(it: Cart.Item, name: string)
    ensures QtyAsWritten(CheckoutItem(it, name)) == 1
  {
  }

  /** A concrete case: three units in the cart become one in the order. */
  lemma CheckoutQuantityLostExample()
    ensures var it := Cart.Item("p1", 40, 3);
      it.quantity == 3 && QtyAsWritten(CheckoutItem(it, "Tomatoes")) == 1
  {
    CheckoutQuantityLost(Cart.Item("p1", 40, 3), "Tomatoes");
  }

  /** Corrected: `qty`, else `quantity`, else one. */
  function QtyRead(p: PostedItem): (q: int)
    ensures p.qty.Some? ==> q == QtyAsWritten(p)
    ensures p.qty.None? && p.quantity.Some? ==> q == p.quantity.value
    ensures p.qty.None? && p.quantity.None? ==> q == QtyAsWritten(p)
  {
    if p.qty.Some? then p.qty.value
    else if p.quantity.Some? then p.quantity.value
    else 1
  }

  /** The cart entry the handlers work on, read with the corrected quantity. */
  function EntryOf(p: PostedItem): (e: CartEntry)
    ensures e.id == p.id && e.name == p.name && e.price == p.price && e.qty == QtyRead(p)
  {
    CartEntry(p.id, p.name, QtyRead(p), p.price)
  }

  function Entries(posted: seq<PostedItem>): (r: seq<CartEntry>)
    ensures |r| == |posted|
    ensures forall i | 0 <= i < |posted| :: r[i] == EntryOf(posted[i])
  {
    seq(|posted|, i requires 0 <= i < |posted| => EntryOf(posted[i]))
  }

  /** Read with the correction, every item keeps its cart quantity. */
  lemma CheckoutQuantityKept(it: Cart.Item, name: string)
    ensures EntryOf(CheckoutItem(it, name)).qty == it.quantity
  {
  }

  /**
   * Read with the correction, the order total of what the checkout page
   * posts is the cart's own cartTotal.
   */
  lemma {:induction false} CheckoutTotalMatchesCart(items: seq<Cart.Item>, posted: seq<PostedItem>)
    requires |posted| == |items|
    requires forall i | 0 <= i < |items| :: posted[i] == CheckoutItem(items[i], posted[i].name)
    ensures OrderTotal(Entries(posted)) == Cart.CartTotal(items)
    decreases |items|
  {
    if items != [] {
      var n := |items| - 1;
      var es := Entries(posted);
      assert Entries(posted[..n]) == es[..n];
      CheckoutTotalMatchesCart(items[..n], posted[..n]);
      Cart.CartTotalAppend(items[..n], items[n]);
      assert items[..n] + [items[n]] == items;
    }
  }
}
