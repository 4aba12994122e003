/**
 * The product catalog as the server keeps it: a list of product records
 * that the order-status, farmer-update and farmer-delete handlers change in
 * place before writing the list back. Reading and writing the catalog file
 * is outside the model; the list is the `products` field of a
 * `ProductCatalog` object.
 */
module Catalog {
  import opened Wrappers

  const FarmerSeller: string := "farmer"

  /** A catalog entry. `stock` and prices are whole numbers here. */
  datatype Product = Product(
    id: string,
    name: string,
    category: string,
    price: int,
    stock: int,
    unit: string,
    image: string,
    description: string,
    sellerUsername: string,
    sellerType: string)

  /** One line of a completed order: a product id and the quantity ordered. */
  datatype OrderLine = OrderLine(productId: string, quantity: int)

  /**
   * The fields of a farmer's update request; `None` means the key is absent
   * from the request and the field is left alone.
   */
  datatype ProductPatch = ProductPatch(
    name: Option<string>,
    category: Option<string>,
    price: Option<int>,
    stock: Option<int>,
    unit: Option<string>,
    image: Option<string>,
    description: Option<string>)

  // ---------------------------------------------------------------------
  // Finding entries

  /** The entry the stock loop looks for: this id, sold by a farmer. */
  predicate IsFarmerEntry(p: Product, id: string)
  {
    p.id == id && p.sellerType == FarmerSeller
  }

  /** The entry a farmer may change: this id, owned by `farmer`, sold by a farmer. */
  predicate IsOwnedEntry(p: Product, id: string, farmer: string)
  {
    p.id == id && p.sellerUsername == farmer && p.sellerType == FarmerSeller
  }

  /** The index of the first farmer entry with id `id` at or after `from`. */
  function FindFarmerEntry(ps: seq<Product>, id: string, from: nat): (r: Option<nat>)
    requires from <= |ps|
    ensures r.Some? ==> from <= r.value < |ps| && IsFarmerEntry(ps[r.value], id)
    ensures r.Some? ==> forall j | from <= j < r.value :: !IsFarmerEntry(ps[j], id)
    ensures r.None? ==> forall j | from <= j < |ps| :: !IsFarmerEntry(ps[j], id)
    decreases |ps| - from
  {
    if from == |ps| then None
    else if IsFarmerEntry(ps[from], id) then Some(from)
    else FindFarmerEntry(ps, id, from + 1)
  }

  /** The index of the first entry of `farmer` with id `id` at or after `from`. */
  function FindOwnedEntry(ps: seq<Product>, id: string, farmer: string, from: nat): (r: Option<nat>)
    requires from <= |ps|
    ensures r.Some? ==> from <= r.value < |ps| && IsOwnedEntry(ps[r.value], id, farmer)
    ensures r.Some? ==> forall j | from <= j < r.value :: !IsOwnedEntry(ps[j], id, farmer)
    ensures r.None? ==> forall j | from <= j < |ps| :: !IsOwnedEntry(ps[j], id, farmer)
    decreases |ps| - from
  {
    if from == |ps| then None
    else if IsOwnedEntry(ps[from], id, farmer) then Some(from)
    else FindOwnedEntry(ps, id, farmer, from + 1)
  }

  // ---------------------------------------------------------------------
  // Stock decrement when an order is completed

  /**
   * `after` differs from `before` at most in the stock of farmer entries:
   * same length, and every entry is the old one with possibly a new stock;
   * entries that are not sold by a farmer are identical.
   */
  predicate OnlyFarmerStockChanged(before: seq<Product>, after: seq<Product>)
  {
    |after| == |before| &&
    forall i | 0 <= i < |before| ::
      after[i] == before[i].(stock := after[i].stock) &&
      (before[i].sellerType != FarmerSeller ==> after[i] == before[i])
  }

  /**
   * The catalog after one order line: the first farmer entry with the
   * line's id loses `quantity` units of stock when it has at least that
   * many; otherwise nothing changes.
   */
  function StockAfterLine(ps: seq<Product>, line: OrderLine): (r: seq<Product>)
    ensures OnlyFarmerStockChanged(ps, r)
  {
    match FindFarmerEntry(ps, line.productId, 0)
    case None => ps
    case Some(k) =>
      if ps[k].stock >= line.quantity
      then ps[k := ps[k].(stock := ps[k].stock - line.quantity)]
      else ps
  }

  /** The catalog after every line of a completed order, in order. */
  function StockAfterOrder(ps: seq<Product>, lines: seq<OrderLine>): (r: seq<Product>)
    ensures |r| == |ps|
    decreases |lines|
  {
    if lines == [] then ps
    else StockAfterOrder(StockAfterLine(ps, lines[0]), lines[1..])
  }

  /** Every entry has non-negative stock. */
  predicate StockNonNegative(ps: seq<Product>)
  {
    forall i | 0 <= i < |ps| :: ps[i].stock >= 0
  }

  /**
   * One order line changes at most the first matching farmer entry, only
   * its stock, and only downwards by exactly the ordered quantity when the
   * stock covers it.
   */
  lemma StockAfterLineEffect(ps: seq<Product>, line: OrderLine)
    ensures var r := StockAfterLine(ps, line);
      OnlyFarmerStockChanged(ps, r) &&
      match FindFarmerEntry(ps, line.productId, 0)
      case None => r == ps
      case Some(k) =>
        (forall i | 0 <= i < |ps| && i != k :: r[i] == ps[i]) &&
        r[k].stock == (if ps[k].stock >= line.quantity then ps[k].stock - line.quantity
                       else ps[k].stock)
  {
  }

  /** Completing an order never drives a non-negative stock below zero. */
  lemma {:induction false} StockAfterOrderNonNegative(ps: seq<Product>, lines: seq<OrderLine>)
    requires StockNonNegative(ps)
    ensures StockNonNegative(StockAfterOrder(ps, lines))
    decreases |lines|
  {
    if lines != [] {
      StockAfterLineEffect(ps, lines[0]);
      StockAfterOrderNonNegative(StockAfterLine(ps, lines[0]), lines[1..]);
    }
  }

  /** Completing an order changes nothing but the stock of farmer entries. */
  lemma {:induction false} StockAfterOrderOnlyStock(ps: seq<Product>, lines: seq<OrderLine>)
    ensures OnlyFarmerStockChanged(ps, StockAfterOrder(ps, lines))
    decreases |lines|
  {
    if lines != [] {
      var mid := StockAfterLine(ps, lines[0]);
      StockAfterLineEffect(ps, lines[0]);
      StockAfterOrderOnlyStock(mid, lines[1..]);
    }
  }

  /** With non-negative quantities, no entry's stock ever grows. */
  lemma {:induction false} StockAfterOrderNeverGrows(ps: seq<Product>, lines: seq<OrderLine>)
    requires forall j | 0 <= j < |lines| :: lines[j].quantity >= 0
    ensures |StockAfterOrder(ps, lines)| == |ps|
    ensures forall i | 0 <= i < |ps| :: StockAfterOrder(ps, lines)[i].stock <= ps[i].stock
    decreases |lines|
  {
    if lines != [] {
      var mid := StockAfterLine(ps, lines[0]);
      StockAfterLineEffect(ps, lines[0]);
      StockAfterOrderNeverGrows(mid, lines[1..]);
    }
  }

  // ---------------------------------------------------------------------
  // Farmer product update

  /** The entry with every field present in the request replaced. */
  function ApplyPatch(p: Product, patch: ProductPatch): (r: Product)
    ensures r.id == p.id && r.sellerUsername == p.sellerUsername && r.sellerType == p.sellerType
  {
    p.(name := if patch.name.Some? then patch.name.value else p.name,
       category := if patch.category.Some? then patch.category.value else p.category,
       price := if patch.price.Some? then patch.price.value else p.price,
       stock := if patch.stock.Some? then patch.stock.value else p.stock,
       unit := if patch.unit.Some? then patch.unit.value else p.unit,
       image := if patch.image.Some? then patch.image.value else p.image,
       description := if patch.description.Some? then patch.description.value else p.description)
  }

  /** An update request with no recognised keys. */
  const EmptyPatch := ProductPatch(None, None, None, None, None, None, None)

  /**
   * An update never touches the id or the seller of an entry, so the entry
   * is still the farmer's own afterwards; an empty request changes nothing;
   * and applying the same request twice is the same as once.
   */
  lemma ApplyPatchProperties(p: Product, patch: ProductPatch)
    ensures var q := ApplyPatch(p, patch);
      q.id == p.id && q.sellerUsername == p.sellerUsername && q.sellerType == p.sellerType &&
      ApplyPatch(q, patch) == q
    ensures ApplyPatch(p, EmptyPatch) == p
  {
  }

  /** Each key present in the request is copied; every other field, id and seller included, is kept. */
  lemma ApplyPatchFields(p: Product, patch: ProductPatch)
    ensures var q := ApplyPatch(p, patch);
      q.name == (if patch.name.Some? then patch.name.value else p.name) &&
      q.category == (if patch.category.Some? then patch.category.value else p.category) &&
      q.price == (if patch.price.Some? then patch.price.value else p.price) &&
      q.stock == (if patch.stock.Some? then patch.stock.value else p.stock) &&
      q.unit == (if patch.unit.Some? then patch.unit.value else p.unit) &&
      q.image == (if patch.image.Some? then patch.image.value else p.image) &&
      q.description == (if patch.description.Some? then patch.description.value else p.description) &&
      q.id == p.id && q.sellerUsername == p.sellerUsername && q.sellerType == p.sellerType
  {
  }

  /**
   * The catalog after a farmer's update: the first entry matching the id,
   * the farmer and the farmer seller type gets the request applied; the
   * flag says whether such an entry was found.
   */
  function UpdatedCatalog(ps: seq<Product>, id: string, farmer: string, patch: ProductPatch)
    : (r: (bool, seq<Product>))
    ensures |r.1| == |ps|
    ensures !r.0 ==> r.1 == ps
  {
    match FindOwnedEntry(ps, id, farmer, 0)
    case None => (false, ps)
    case Some(k) => (true, ps[k := ApplyPatch(ps[k], patch)])
  }

  /**
   * An update reports not-found exactly when the farmer owns no entry with
   * that id; when it finds one, it changes only the first such entry, and
   * that entry stays the farmer's.
   */
  lemma UpdatedCatalogEffect(ps: seq<Product>, id: string, farmer: string, patch: ProductPatch)
    ensures var (found, r) := UpdatedCatalog(ps, id, farmer, patch);
      (found <==> exists i | 0 <= i < |ps| :: IsOwnedEntry(ps[i], id, farmer)) &&
      (found ==> exists k | 0 <= k < |ps| ::
         IsOwnedEntry(ps[k], id, farmer) &&
         (forall j | 0 <= j < k :: !IsOwnedEntry(ps[j], id, farmer)) &&
         r[k] == ApplyPatch(ps[k], patch) && IsOwnedEntry(r[k], id, farmer) &&
         (forall i | 0 <= i < |ps| && i != k :: r[i] == ps[i]))
  {
  }

  // ---------------------------------------------------------------------
  // Farmer product delete

  /**
   * The catalog after a farmer's delete: the first entry matching the id,
   * the farmer and the farmer seller type is dropped; the flag says
   * whether such an entry was found.
   */
  function DeletedCatalog(ps: seq<Product>, id: string, farmer: string): (r: (bool, seq<Product>))
    ensures !r.0 ==> r.1 == ps
    ensures r.0 ==> |r.1| == |ps| - 1
  {
    match FindOwnedEntry(ps, id, farmer, 0)
    case None => (false, ps)
    case Some(k) => (true, ps[..k] + ps[k + 1..])
  }

  /** How many entries the farmer owns with this id. */
  function CountOwned(ps: seq<Product>, id: string, farmer: string): nat
  {
    if ps == [] then 0
    else (if IsOwnedEntry(ps[0], id, farmer) then 1 else 0) + CountOwned(ps[1..], id, farmer)
  }

  lemma {:induction false} CountOwnedAppend(a: seq<Product>, b: seq<Product>, id: string, farmer: string)
    ensures CountOwned(a + b, id, farmer) == CountOwned(a, id, farmer) + CountOwned(b, id, farmer)
  {
    if a == [] {
      assert a + b == b;
    } else {
      assert (a + b)[0] == a[0];
      assert (a + b)[1..] == a[1..] + b;
      CountOwnedAppend(a[1..], b, id, farmer);
    }
  }

  lemma {:induction false} CountOwnedZero(ps: seq<Product>, id: string, farmer: string)
    requires forall j | 0 <= j < |ps| :: !IsOwnedEntry(ps[j], id, farmer)
    ensures CountOwned(ps, id, farmer) == 0
  {
    if ps != [] {
      CountOwnedZero(ps[1..], id, farmer);
    }
  }

  /**
   * A delete reports not-found exactly when the farmer owns no entry with
   * that id. When it finds one it removes exactly one such entry, the
   * first, keeps the others in their order, and leaves one fewer matching
   * entry behind.
   */
  lemma DeletedCatalogEffect(ps: seq<Product>, id: string, farmer: string)
    ensures var (found, r) := DeletedCatalog(ps, id, farmer);
      (found <==> CountOwned(ps, id, farmer) > 0) &&
      (found ==> CountOwned(r, id, farmer) == CountOwned(ps, id, farmer) - 1) &&
      (found ==> exists k | 0 <= k < |ps| ::
         IsOwnedEntry(ps[k], id, farmer) &&
         (forall j | 0 <= j < k :: !IsOwnedEntry(ps[j], id, farmer)) &&
         r[..k] == ps[..k] && r[k..] == ps[k + 1..])
  {
    match FindOwnedEntry(ps, id, farmer, 0)
    case None =>
      CountOwnedZero(ps, id, farmer);
    case Some(k) =>
      assert ps == ps[..k] + [ps[k]] + ps[k + 1..];
      CountOwnedAppend(ps[..k] + [ps[k]], ps[k + 1..], id, farmer);
      CountOwnedAppend(ps[..k], [ps[k]], id, farmer);
      CountOwnedAppend(ps[..k], ps[k + 1..], id, farmer);
      CountOwnedZero(ps[..k], id, farmer);
  }

  // ---------------------------------------------------------------------
  // The catalog object and the handlers' loops

  class ProductCatalog {
    var products: seq<Product>

    constructor (ps: seq<Product>)
      ensures products == ps
    {
      products := ps;
    }

    /**
     * One line of a completed order: scan for the first farmer entry with
     * the id; when found, take the quantity off its stock if the stock
     * covers it, and stop scanning either way.
     */
    method DecrementStock(line: OrderLine)
      modifies this
      ensures products == StockAfterLine(old(products), line)
    {
      var i := 0;
      while i < |products|
        invariant 0 <= i <= |products|
        invariant products == old(products)
        invariant forall j | 0 <= j < i :: !IsFarmerEntry(products[j], line.productId)
      {
        if IsFarmerEntry(products[i], line.productId) {
          if products[i].stock >= line.quantity {
            products := products[i := products[i].(stock := products[i].stock - line.quantity)];
          }
          return;
        }
        i := i + 1;
      }
    }

    /** Completing an order: every line of the order, in order. */
    method CompleteOrder(lines: seq<OrderLine>)
      modifies this
      ensures products == StockAfterOrder(old(products), lines)
    {
      var n := 0;
      while n < |lines|
        invariant 0 <= n <= |lines|
        invariant StockAfterOrder(products, lines[n..]) == StockAfterOrder(old(products), lines)
      {
        assert lines[n..][1..] == lines[n + 1..];
        DecrementStock(lines[n]);
        n := n + 1;
      }
    }

    /**
     * A farmer's update: fields present in the request are written into
     * the first entry the farmer owns with that id. Returns whether one
     * was found; when none is, the catalog is left alone.
     */
    method UpdateProduct(id: string, farmer: string, patch: ProductPatch) returns (found: bool)
      modifies this
      ensures (found, products) == UpdatedCatalog(old(products), id, farmer, patch)
    {
      found := false;
      var i := 0;
      while i < |products|
        invariant 0 <= i <= |products|
        invariant products == old(products)
        invariant forall j | 0 <= j < i :: !IsOwnedEntry(products[j], id, farmer)
      {
        if IsOwnedEntry(products[i], id, farmer) {
          products := products[i := ApplyPatch(products[i], patch)];
          found := true;
          return;
        }
        i := i + 1;
      }
    }

    /**
     * A farmer's delete: the first entry the farmer owns with that id is
     * popped from the list. Returns whether one was found; when none is,
     * the catalog is left alone.
     */
    method DeleteProduct(id: string, farmer: string) returns (found: bool)
      modifies this
      ensures (found, products) == DeletedCatalog(old(products), id, farmer)
    {
      found := false;
      var i := 0;
      while i < |products|
        invariant 0 <= i <= |products|
        invariant products == old(products)
        invariant forall j | 0 <= j < i :: !IsOwnedEntry(products[j], id, farmer)
      {
        if IsOwnedEntry(products[i], id, farmer) {
          products := products[..i] + products[i + 1..];
          found := true;
          return;
        }
        i := i + 1;
      }
    }
  }
}
