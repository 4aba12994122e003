/**
 * The public "products by category" listing: every farmer entry of the
 * catalog that has stock, grouped under its category, with the farmer's
 * display name looked up from the stored user details. The user-details
 * lookup is a parameter: username to stored name.
 */
module CategoryListing {
  import opened Catalog

  /** What the listing shows for one product. */
  datatype ListingEntry = ListingEntry(
    productId: string,
    name: string,
    price: int,
    stock: int,
    unit: string,
    image: string,
    description: string,
    farmerUsername: string,
    farmerName: string)

  /** A product is listed when a farmer sells it and it has stock left. */
  predicate Listed(p: Product)
  {
    p.sellerType == FarmerSeller && p.stock > 0
  }

  /** The farmer's stored name when there is a non-empty one, else the username. */
  function FarmerName(names: map<string, string>, username: string): (r: string)
    ensures username in names && names[username] != "" ==> r == names[username]
    ensures !(username in names && names[username] != "") ==> r == username
  {
    if username in names && names[username] != "" then names[username] else username
  }

  function EntryFor(names: map<string, string>, p: Product): ListingEntry
  {
    ListingEntry(p.id, p.name, p.price, p.stock, p.unit, p.image, p.description,
                 p.sellerUsername, FarmerName(names, p.sellerUsername))
  }

  /** The entries listed under one category, in catalog order. */
  function InCategory(ps: seq<Product>, names: map<string, string>, category: string)
    : (r: seq<ListingEntry>)
    ensures |r| <= |ps|
    decreases |ps|
  {
    if ps == [] then []
    else
      var last := ps[|ps| - 1];
      InCategory(ps[..|ps| - 1], names, category) +
      (if Listed(last) && last.category == category then [EntryFor(names, last)] else [])
  }

  /** The categories that have at least one listed product. */
  function ListedCategories(ps: seq<Product>): set<string>
  {
    set i | 0 <= i < |ps| && Listed(ps[i]) :: ps[i].category
  }

  /**
   * An entry is listed under a category exactly when it is the entry of a
   * listed product of that category.
   */
  lemma {:induction false} InCategoryMembers(ps: seq<Product>, names: map<string, string>, category: string)
    ensures forall e :: e in InCategory(ps, names, category) <==>
      exists i | 0 <= i < |ps| :: Listed(ps[i]) && ps[i].category == category && e == EntryFor(names, ps[i])
    decreases |ps|
  {
    if ps != [] {
      var n := |ps| - 1;
      InCategoryMembers(ps[..n], names, category);
      assert forall i | 0 <= i < n :: ps[..n][i] == ps[i];
    }
  }

  /** A category's list is non-empty exactly when some listed product has that category. */
  lemma InCategoryNonEmpty(ps: seq<Product>, names: map<string, string>, category: string)
    ensures InCategory(ps, names, category) != [] <==> category in ListedCategories(ps)
  {
  }

  /** One more product extends exactly the list of its own category, when it is listed. */
  lemma InCategoryStep(ps: seq<Product>, names: map<string, string>, i: nat, category: string)
    requires i < |ps|
    ensures InCategory(ps[..i + 1], names, category)
         == InCategory(ps[..i], names, category) +
            (if Listed(ps[i]) && ps[i].category == category then [EntryFor(names, ps[i])] else [])
  {
    assert ps[..i + 1][..i] == ps[..i];
  }

  /** One more product adds its category to the listed ones when it is listed. */
  lemma ListedCategoriesStep(ps: seq<Product>, i: nat)
    requires i < |ps|
    ensures ListedCategories(ps[..i + 1])
         == ListedCategories(ps[..i]) + (if Listed(ps[i]) then {ps[i].category} else {})
  {
    assert forall j | 0 <= j < i :: ps[..i + 1][j] == ps[..i][j];
    assert ps[..i + 1][i] == ps[i];
  }

  /** The lists built so far are exactly the listing of the given products. */
  predicate Listing(groups: map<string, seq<ListingEntry>>, ps: seq<Product>, names: map<string, string>)
  {
    groups.Keys == ListedCategories(ps) && forall c | c in groups :: groups[c] == InCategory(ps, names, c)
  }

  /** The lists after adding one product: appended to its category's list when it is listed. */
  function Added(groups: map<string, seq<ListingEntry>>, names: map<string, string>, p: Product)
    : map<string, seq<ListingEntry>>
  {
    if Listed(p) then
      groups[p.category := (if p.category in groups then groups[p.category] else []) + [EntryFor(names, p)]]
    else groups
  }

  /** Adding the next product to the listing of a prefix lists the longer prefix. */
  lemma ListingStep(groups: map<string, seq<ListingEntry>>, ps: seq<Product>, names: map<string, string>, i: nat)
    requires i < |ps| && Listing(groups, ps[..i], names)
    ensures Listing(Added(groups, names, ps[i]), ps[..i + 1], names)
  {
    ListedCategoriesStep(ps, i);
    if Listed(ps[i]) && ps[i].category !in groups {
      InCategoryNonEmpty(ps[..i], names, ps[i].category);
    }
    var next := Added(groups, names, ps[i]);
    forall c | c in next
      ensures next[c] == InCategory(ps[..i + 1], names, c)
    {
      InCategoryStep(ps, names, i, c);
    }
  }

  /**
   * The listing loop: append each listed product to the list of its
   * category, creating the list on first use.
   */
  method GroupByCategory(ps: seq<Product>, names: map<string, string>)
    returns (groups: map<string, seq<ListingEntry>>)
    ensures groups.Keys == ListedCategories(ps)
    ensures forall c | c in groups :: groups[c] == InCategory(ps, names, c)
  {
    groups := map[];
    var i := 0;
    while i < |ps|
      invariant 0 <= i <= |ps|
      invariant Listing(groups, ps[..i], names)
    {
      var p := ps[i];
      ListingStep(groups, ps, names, i);
      if Listed(p) {
        var group := if p.category in groups then groups[p.category] else [];
        groups := groups[p.category := group + [EntryFor(names, p)]];
      }
      i := i + 1;
    }
    assert ps[..i] == ps;
  }
}
