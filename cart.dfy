/**
 * The client-side shopping cart of the storefront: a list of items keyed by
 * product id, each with a quantity. Every operation returns a new list and
 * leaves its argument alone, so the cart is modelled as `seq<Item>` and the
 * operations as functions over it.
 *
 * Prices are whole minor currency units here.
 */
module Cart {

  /** The fields of a product the cart reads: its id and unit price. */
  datatype Product = Product(id: string, price: int)

  /** A cart line: the product's fields plus the quantity ordered. */
  datatype Item = Item(id: string, price: int, quantity: int)

  /** Some item of the cart carries `id` (what `cart.find` looks for). */
  predicate InCart(c: seq<Item>, id: string)
  {
    exists i | 0 <= i < |c| :: c[i].id == id
  }

  /** No two items of the cart share an id. */
  predicate UniqueIds(c: seq<Item>)
  {
    forall i, j | 0 <= i < j < |c| :: c[i].id != c[j].id
  }

  /** Adds `q` to the quantity of every item whose id is `id`. */
  function AddQuantity(c: seq<Item>, id: string, q: int): (r: seq<Item>)
    ensures |r| == |c|
    ensures forall i | 0 <= i < |c| ::
      r[i].id == c[i].id && r[i].price == c[i].price &&
      r[i].quantity == (if c[i].id == id then c[i].quantity + q else c[i].quantity)
  {
    if c == [] then []
    else [if c[0].id == id then c[0].(quantity := c[0].quantity + q) else c[0]]
         + AddQuantity(c[1..], id, q)
  }

  /** Sets the quantity of every item whose id is `id` to `q`. */
  function SetQuantity(c: seq<Item>, id: string, q: int): (r: seq<Item>)
    ensures |r| == |c|
    ensures forall i | 0 <= i < |c| ::
      r[i].id == c[i].id && r[i].price == c[i].price &&
      r[i].quantity == (if c[i].id == id then q else c[i].quantity)
  {
    if c == [] then []
    else [if c[0].id == id then c[0].(quantity := q) else c[0]]
         + SetQuantity(c[1..], id, q)
  }

  /**
   * addToCart: when an item with the product's id is already in the cart,
   * its quantity grows by `q`; otherwise the product is appended with
   * quantity `q`. Left out, the quantity is one.
   */
  function AddToCart(c: seq<Item>, p: Product, q: int := 1): (r: seq<Item>)
    ensures InCart(r, p.id)
    ensures !InCart(c, p.id) ==> r == c + [Item(p.id, p.price, q)]
    ensures InCart(c, p.id) ==> |r| == |c|
  {
    if InCart(c, p.id) then
      var k :| 0 <= k < |c| && c[k].id == p.id;
      assert AddQuantity(c, p.id, q)[k].id == p.id;
      AddQuantity(c, p.id, q)
    else
      assert (c + [Item(p.id, p.price, q)])[|c|].id == p.id;
      c + [Item(p.id, p.price, q)]
  }

  /** removeFromCart: keeps, in order, the items whose id is not `id`. */
  function RemoveFromCart(c: seq<Item>, id: string): (r: seq<Item>)
    ensures |r| <= |c|
    ensures !InCart(r, id)
    ensures forall x | x in r :: x in c
  {
    if c == [] then []
    else (if c[0].id == id then [] else [c[0]]) + RemoveFromCart(c[1..], id)
  }

  /**
   * updateQuantity: a quantity of zero or less removes the item; any other
   * quantity replaces the quantity of the item with that id.
   */
  function UpdateQuantity(c: seq<Item>, id: string, q: int): (r: seq<Item>)
    ensures q <= 0 ==> !InCart(r, id)
    ensures q > 0 ==> |r| == |c| && (InCart(r, id) <==> InCart(c, id))
  {
    if q <= 0 then RemoveFromCart(c, id)
    else
      assert InCart(c, id) ==> InCart(SetQuantity(c, id, q), id) by {
        if InCart(c, id) {
          var k :| 0 <= k < |c| && c[k].id == id;
          assert SetQuantity(c, id, q)[k].id == id;
        }
      }
      SetQuantity(c, id, q)
  }

  /** clearCart: the cart becomes empty. */
  function ClearCart(): (r: seq<Item>)
    ensures |r| == 0
  {
    []
  }

  /** cartCount: the sum of the quantities. */
  function CartCount(c: seq<Item>): (n: int)
    ensures (forall i | 0 <= i < |c| :: c[i].quantity >= 0) ==> n >= 0
    ensures (forall i | 0 <= i < |c| :: c[i].quantity >= 1) ==> n >= |c|
  {
    if c == [] then 0 else c[0].quantity + CartCount(c[1..])
  }

  /** cartTotal: the sum of price times quantity over the items. */
  function CartTotal(c: seq<Item>): (t: int)
  {
    if c == [] then 0 else c[0].price * c[0].quantity + CartTotal(c[1..])
  }

  // ---------------------------------------------------------------------
  // addToCart

  /** An absent product is appended at the end; earlier items are untouched. */
  lemma AddToCartAbsent(c: seq<Item>, p: Product, q: int)
    requires !InCart(c, p.id)
    ensures |AddToCart(c, p, q)| == |c| + 1
    ensures AddToCart(c, p, q)[..|c|] == c
    ensures AddToCart(c, p, q)[|c|] == Item(p.id, p.price, q)
  {
  }

  /** A present product only grows the quantity of the item(s) with its id. */
  lemma AddToCartPresent(c: seq<Item>, p: Product, q: int)
    requires InCart(c, p.id)
    ensures var r := AddToCart(c, p, q);
      |r| == |c| &&
      forall i | 0 <= i < |c| ::
        (c[i].id != p.id ==> r[i] == c[i]) &&
        (c[i].id == p.id ==> r[i] == c[i].(quantity := c[i].quantity + q))
  {
  }

  /** addToCart keeps the ids of the cart pairwise distinct. */
  lemma AddToCartKeepsUniqueIds(c: seq<Item>, p: Product, q: int)
    requires UniqueIds(c)
    ensures UniqueIds(AddToCart(c, p, q))
  {
  }

  /** Appending an item raises cartCount by its quantity. */
  lemma {:induction false} CartCountAppend(c: seq<Item>, x: Item)
    ensures CartCount(c + [x]) == CartCount(c) + x.quantity
  {
    if c != [] {
      assert (c + [x])[1..] == c[1..] + [x];
      CartCountAppend(c[1..], x);
    }
  }

  /** With no negative price or quantity, cartTotal is never negative. */
  lemma {:induction false} CartTotalNonNegative(c: seq<Item>)
    requires forall i | 0 <= i < |c| :: c[i].price >= 0 && c[i].quantity >= 0
    ensures CartTotal(c) >= 0
  {
    if c != [] {
      CartTotalNonNegative(c[1..]);
      assert c[0].price * c[0].quantity >= 0;
    }
  }

  /** Appending an item raises cartTotal by its price times its quantity. */
  lemma {:induction false} CartTotalAppend(c: seq<Item>, x: Item)
    ensures CartTotal(c + [x]) == CartTotal(c) + x.price * x.quantity
  {
    if c != [] {
      assert (c + [x])[1..] == c[1..] + [x];
      CartTotalAppend(c[1..], x);
    }
  }

  /** The item at `k` is the only one carrying its id. */
  predicate OnlyAt(c: seq<Item>, k: int)
    requires 0 <= k < |c|
  {
    forall i | 0 <= i < |c| && i != k :: c[i].id != c[k].id
  }

  lemma {:induction false} AddQuantityCount(c: seq<Item>, k: nat, q: int)
    requires k < |c| && OnlyAt(c, k)
    ensures CartCount(AddQuantity(c, c[k].id, q)) == CartCount(c) + q
  {
    var id := c[k].id;
    var r := AddQuantity(c, id, q);
    assert CartCount(r) == r[0].quantity + CartCount(r[1..]);
    if k == 0 {
      AddQuantityAbsent(c[1..], id, q);
      assert r[1..] == AddQuantity(c[1..], id, q);
    } else {
      assert OnlyAt(c[1..], k - 1);
      AddQuantityCount(c[1..], k - 1, q);
      assert r[1..] == AddQuantity(c[1..], id, q);
    }
  }

  lemma {:induction false} AddQuantityTotal(c: seq<Item>, k: nat, q: int)
    requires k < |c| && OnlyAt(c, k)
    ensures CartTotal(AddQuantity(c, c[k].id, q)) == CartTotal(c) + c[k].price * q
  {
    var id := c[k].id;
    var r := AddQuantity(c, id, q);
    assert r[1..] == AddQuantity(c[1..], id, q);
    assert CartTotal(r) == r[0].price * r[0].quantity + CartTotal(r[1..]);
    assert CartTotal(c) == c[0].price * c[0].quantity + CartTotal(c[1..]);
    if k == 0 {
      AddQuantityAbsent(c[1..], id, q);
      assert r[0].quantity == c[0].quantity + q;
      assert c[0].price * (c[0].quantity + q) == c[0].price * c[0].quantity + c[0].price * q;
    } else {
      assert OnlyAt(c[1..], k - 1);
      AddQuantityTotal(c[1..], k - 1, q);
      assert c[1..][k - 1] == c[k];
      assert r[0] == c[0];
    }
  }

  lemma AddQuantityAbsent(c: seq<Item>, id: string, q: int)
    requires !InCart(c, id)
    ensures AddQuantity(c, id, q) == c
  {
  }

  /** With distinct ids, addToCart(p, q) raises cartCount by exactly q. */
  lemma AddToCartCount(c: seq<Item>, p: Product, q: int)
    requires UniqueIds(c)
    ensures CartCount(AddToCart(c, p, q)) == CartCount(c) + q
  {
    if InCart(c, p.id) {
      var k :| 0 <= k < |c| && c[k].id == p.id;
      AddQuantityCount(c, k, q);
    } else {
      CartCountAppend(c, Item(p.id, p.price, q));
    }
  }

  /**
   * With distinct ids, addToCart(p, q) raises cartTotal by q times the
   * price already in the cart, or by q times the product's price when the
   * product is new.
   */
  lemma AddToCartTotal(c: seq<Item>, p: Product, q: int)
    requires UniqueIds(c)
    ensures InCart(c, p.id) ==> forall k | 0 <= k < |c| && c[k].id == p.id ::
      CartTotal(AddToCart(c, p, q)) == CartTotal(c) + c[k].price * q
    ensures !InCart(c, p.id) ==>
      CartTotal(AddToCart(c, p, q)) == CartTotal(c) + p.price * q
  {
    if InCart(c, p.id) {
      forall k | 0 <= k < |c| && c[k].id == p.id
        ensures CartTotal(AddToCart(c, p, q)) == CartTotal(c) + c[k].price * q
      {
        AddQuantityTotal(c, k, q);
      }
    } else {
      CartTotalAppend(c, Item(p.id, p.price, q));
    }
  }

  // ---------------------------------------------------------------------
  // removeFromCart

  /** Removal distributes over concatenation: the survivors keep their order. */
  lemma {:induction false} RemoveFromCartAppend(a: seq<Item>, b: seq<Item>, id: string)
    ensures RemoveFromCart(a + b, id) == RemoveFromCart(a, id) + RemoveFromCart(b, id)
  {
    if a == [] {
      assert a + b == b;
    } else {
      var head := if a[0].id == id then [] else [a[0]];
      assert (a + b)[0] == a[0];
      assert (a + b)[1..] == a[1..] + b;
      assert RemoveFromCart(a + b, id) == head + RemoveFromCart(a[1..] + b, id);
      RemoveFromCartAppend(a[1..], b, id);
      assert head + (RemoveFromCart(a[1..], id) + RemoveFromCart(b, id))
          == (head + RemoveFromCart(a[1..], id)) + RemoveFromCart(b, id);
    }
  }

  /** Every item with another id survives removal. */
  lemma {:induction false} RemoveFromCartKeepsOthers(c: seq<Item>, id: string)
    ensures forall x | x in c && x.id != id :: x in RemoveFromCart(c, id)
  {
    if c != [] {
      RemoveFromCartKeepsOthers(c[1..], id);
      assert forall x | x in c :: x == c[0] || x in c[1..];
    }
  }

  /** Removing an id the cart does not hold changes nothing. */
  lemma {:induction false} RemoveFromCartAbsent(c: seq<Item>, id: string)
    requires !InCart(c, id)
    ensures RemoveFromCart(c, id) == c
  {
    if c != [] {
      RemoveFromCartAbsent(c[1..], id);
    }
  }

  /** With distinct ids, removing the item at `k` lowers cartCount by its quantity. */
  lemma {:induction false} RemoveFromCartCount(c: seq<Item>, k: nat)
    requires k < |c| && OnlyAt(c, k)
    ensures |RemoveFromCart(c, c[k].id)| == |c| - 1
    ensures CartCount(RemoveFromCart(c, c[k].id)) == CartCount(c) - c[k].quantity
  {
    var id := c[k].id;
    if k == 0 {
      assert forall i | 0 <= i < |c[1..]| :: c[1..][i] == c[i + 1];
      RemoveFromCartAbsent(c[1..], id);
      assert RemoveFromCart(c, id) == c[1..];
    } else {
      assert OnlyAt(c[1..], k - 1);
      RemoveFromCartCount(c[1..], k - 1);
    }
  }

  /** addToCart followed by removeFromCart of the same id is just the removal. */
  lemma {:induction false} RemoveAfterAdd(c: seq<Item>, p: Product, q: int)
    ensures RemoveFromCart(AddToCart(c, p, q), p.id) == RemoveFromCart(c, p.id)
  {
    if InCart(c, p.id) {
      RemoveAfterAddQuantity(c, p.id, q);
    } else {
      RemoveFromCartAppend(c, [Item(p.id, p.price, q)], p.id);
    }
  }

  lemma {:induction false} RemoveAfterAddQuantity(c: seq<Item>, id: string, q: int)
    ensures RemoveFromCart(AddQuantity(c, id, q), id) == RemoveFromCart(c, id)
  {
    if c != [] {
      RemoveAfterAddQuantity(c[1..], id, q);
    }
  }

  // ---------------------------------------------------------------------
  // updateQuantity

  /** A quantity of zero or less behaves exactly as removeFromCart. */
  lemma UpdateQuantityNonPositive(c: seq<Item>, id: string, q: int)
    requires q <= 0
    ensures UpdateQuantity(c, id, q) == RemoveFromCart(c, id)
  {
  }

  /**
   * A positive quantity replaces the quantity of the matching item and
   * leaves every other item as it was.
   */
  lemma UpdateQuantityPositive(c: seq<Item>, id: string, q: int)
    requires q > 0
    ensures var r := UpdateQuantity(c, id, q);
      |r| == |c| &&
      forall i | 0 <= i < |c| ::
        (c[i].id != id ==> r[i] == c[i]) &&
        (c[i].id == id ==> r[i] == c[i].(quantity := q))
  {
  }

  /** Updating an id the cart does not hold leaves the cart unchanged. */
  lemma UpdateQuantityAbsent(c: seq<Item>, id: string, q: int)
    requires !InCart(c, id)
    ensures UpdateQuantity(c, id, q) == c
  {
    if q <= 0 {
      RemoveFromCartAbsent(c, id);
    } else {
      var r := UpdateQuantity(c, id, q);
      assert forall i | 0 <= i < |c| :: r[i] == c[i];
    }
  }

  /** updateQuantity keeps the ids of the cart pairwise distinct. */
  lemma UpdateQuantityKeepsUniqueIds(c: seq<Item>, id: string, q: int)
    requires UniqueIds(c)
    ensures UniqueIds(UpdateQuantity(c, id, q))
  {
    if q <= 0 {
      RemoveFromCartKeepsUniqueIds(c, id);
    }
  }

  lemma {:induction false} RemoveFromCartKeepsUniqueIds(c: seq<Item>, id: string)
    requires UniqueIds(c)
    ensures UniqueIds(RemoveFromCart(c, id))
  {
    if c != [] {
      RemoveFromCartKeepsUniqueIds(c[1..], id);
      var rest := RemoveFromCart(c[1..], id);
      assert forall x | x in rest :: x in c[1..];
      assert forall x | x in c[1..] :: x.id != c[0].id;
    }
  }

  /** Setting the quantity of the item at `k` moves cartCount from its old quantity to q. */
  lemma {:induction false} SetQuantityCount(c: seq<Item>, k: nat, q: int)
    requires k < |c| && OnlyAt(c, k)
    ensures CartCount(SetQuantity(c, c[k].id, q)) == CartCount(c) - c[k].quantity + q
  {
    var id := c[k].id;
    var r := SetQuantity(c, id, q);
    if k == 0 {
      SetQuantityAbsent(c[1..], id, q);
      assert r[1..] == SetQuantity(c[1..], id, q);
    } else {
      assert OnlyAt(c[1..], k - 1);
      SetQuantityCount(c[1..], k - 1, q);
      assert r[1..] == SetQuantity(c[1..], id, q);
    }
  }

  lemma SetQuantityAbsent(c: seq<Item>, id: string, q: int)
    requires !InCart(c, id)
    ensures SetQuantity(c, id, q) == c
  {
  }

  /** With distinct ids, updateQuantity(id, q) moves cartCount by q minus the old quantity. */
  lemma UpdateQuantityCount(c: seq<Item>, k: nat, q: int)
    requires k < |c| && UniqueIds(c)
    ensures CartCount(UpdateQuantity(c, c[k].id, q))
         == CartCount(c) - c[k].quantity + (if q > 0 then q else 0)
  {
    if q <= 0 {
      RemoveFromCartCount(c, k);
    } else {
      SetQuantityCount(c, k, q);
    }
  }

  /** updateQuantity with the same arguments twice is the same as once. */
  lemma {:induction false} UpdateQuantityIdempotent(c: seq<Item>, id: string, q: int)
    ensures UpdateQuantity(UpdateQuantity(c, id, q), id, q) == UpdateQuantity(c, id, q)
  {
    if q <= 0 {
      RemoveFromCartAbsent(RemoveFromCart(c, id), id);
    } else {
      var r := SetQuantity(c, id, q);
      assert SetQuantity(r, id, q) == r;
    }
  }

  // ---------------------------------------------------------------------
  // clearCart

  /** After clearCart both cartCount and cartTotal are zero. */
  lemma ClearCartZero()
    ensures CartCount(ClearCart()) == 0 && CartTotal(ClearCart()) == 0
  {
  }
}
