/**
 * The admin console's order overview: the orders, as the database returns
 * them (newest first), grouped by delivery pincode, plus the number of
 * orders still pending.
 */
module AdminPanel {

  const NoPincode: string := "No Pincode"
  const Pending: string := "pending"

  /** The order columns the grouping reads; the other columns ride along unchanged. */
  datatype OrderRecord = OrderRecord(
    id: int, orderNumber: string, username: string, pincode: string, totalAmount: int, status: string)

  /** The group an order falls in: its pincode, or "No Pincode" when that is empty. */
  function GroupKey(o: OrderRecord): (key: string)
    ensures key != ""
    ensures o.pincode != "" ==> key == o.pincode
  {
    if o.pincode == "" then NoPincode else o.pincode
  }

  /** The orders of one group, in input order. */
  function InGroup(orders: seq<OrderRecord>, key: string): (r: seq<OrderRecord>)
    ensures |r| <= |orders|
    decreases |orders|
  {
    if orders == [] then []
    else
      var last := orders[|orders| - 1];
      InGroup(orders[..|orders| - 1], key) + (if GroupKey(last) == key then [last] else [])
  }

  /** The keys of all groups the orders produce. */
  function GroupKeys(orders: seq<OrderRecord>): set<string>
  {
    set i | 0 <= i < |orders| :: GroupKey(orders[i])
  }

  /** How many orders carry the given status. */
  function CountStatus(orders: seq<OrderRecord>, status: string): (n: nat)
    ensures n <= |orders|
    decreases |orders|
  {
    if orders == [] then 0
    else CountStatus(orders[..|orders| - 1], status) + (if orders[|orders| - 1].status == status then 1 else 0)
  }

  /** The positions of the orders that carry the given status. */
  function StatusPositions(orders: seq<OrderRecord>, status: string): set<nat>
  {
    set i: nat | i < |orders| && orders[i].status == status
  }

  /**
   * An order is in a group exactly when it is one of the orders and the
   * group's key is its own: every order lands in exactly one group.
   */
  lemma {:induction false} InGroupMembers(orders: seq<OrderRecord>, key: string)
    ensures forall o :: o in InGroup(orders, key) <==> o in orders && GroupKey(o) == key
    decreases |orders|
  {
    if orders != [] {
      var n := |orders| - 1;
      InGroupMembers(orders[..n], key);
      assert orders == orders[..n] + [orders[n]];
    }
  }

  /** Grouping keeps input order: the group of a split list is the groups of its parts. */
  lemma {:induction false} InGroupAppend(a: seq<OrderRecord>, b: seq<OrderRecord>, key: string)
    ensures InGroup(a + b, key) == InGroup(a, key) + InGroup(b, key)
    decreases |b|
  {
    if b == [] {
      assert a + b == a;
    } else {
      var n := |b| - 1;
      assert (a + b)[..|a + b| - 1] == a + b[..n];
      assert (a + b)[|a + b| - 1] == b[n];
      InGroupAppend(a, b[..n], key);
    }
  }

  /** A group is non-empty exactly when its key is among the orders' keys. */
  lemma {:induction false} InGroupNonEmpty(orders: seq<OrderRecord>, key: string)
    ensures InGroup(orders, key) != [] <==> key in GroupKeys(orders)
  {
    InGroupMembers(orders, key);
    var g := InGroup(orders, key);
    if key in GroupKeys(orders) {
      var i :| 0 <= i < |orders| && GroupKey(orders[i]) == key;
      assert orders[i] in g;
    }
    if g != [] {
      assert g[0] in g;
      var i :| 0 <= i < |orders| && orders[i] == g[0];
      assert GroupKey(orders[i]) == key;
    }
  }

  /** One more order extends exactly the group of its own key. */
  lemma InGroupStep(orders: seq<OrderRecord>, i: nat, key: string)
    requires i < |orders|
    ensures InGroup(orders[..i + 1], key)
         == InGroup(orders[..i], key) + (if GroupKey(orders[i]) == key then [orders[i]] else [])
  {
    assert orders[..i + 1][..i] == orders[..i];
  }

  /** One more order adds its key to the keys. */
  lemma GroupKeysStep(orders: seq<OrderRecord>, i: nat)
    requires i < |orders|
    ensures GroupKeys(orders[..i + 1]) == GroupKeys(orders[..i]) + {GroupKey(orders[i])}
  {
    assert forall j | 0 <= j < i :: orders[..i + 1][j] == orders[..i][j];
    assert orders[..i + 1][i] == orders[i];
  }

  /** The pending count is the number of positions holding a pending order. */
  lemma {:induction false} CountStatusPositions(orders: seq<OrderRecord>, status: string)
    ensures CountStatus(orders, status) == |StatusPositions(orders, status)|
    decreases |orders|
  {
    if orders != [] {
      var n := |orders| - 1;
      CountStatusPositions(orders[..n], status);
      var before := StatusPositions(orders[..n], status);
      if orders[n].status == status {
        assert StatusPositions(orders, status) == before + {n};
      } else {
        assert StatusPositions(orders, status) == before;
      }
    }
  }

  /** The groups built so far are exactly the grouping of the given orders. */
  predicate Grouped(groups: map<string, seq<OrderRecord>>, orders: seq<OrderRecord>)
  {
    groups.Keys == GroupKeys(orders) && forall k | k in groups :: groups[k] == InGroup(orders, k)
  }

  /** The groups after appending one order to the list of its key, created on first use. */
  function Appended(groups: map<string, seq<OrderRecord>>, o: OrderRecord): map<string, seq<OrderRecord>>
  {
    var key := GroupKey(o);
    groups[key := (if key in groups then groups[key] else []) + [o]]
  }

  /** Appending the next order to the grouping of a prefix groups the longer prefix. */
  lemma GroupedStep(groups: map<string, seq<OrderRecord>>, orders: seq<OrderRecord>, i: nat)
    requires i < |orders| && Grouped(groups, orders[..i])
    ensures Grouped(Appended(groups, orders[i]), orders[..i + 1])
  {
    var key := GroupKey(orders[i]);
    GroupKeysStep(orders, i);
    if key !in groups {
      InGroupNonEmpty(orders[..i], key);
    }
    var next := Appended(groups, orders[i]);
    forall k | k in next
      ensures next[k] == InGroup(orders[..i + 1], k)
    {
      InGroupStep(orders, i, k);
    }
  }

  /**
   * The admin panel's grouping loop: append each order to the list of its
   * pincode, creating the list on first use.
   */
  method GroupByPincode(orders: seq<OrderRecord>) returns (groups: map<string, seq<OrderRecord>>)
    ensures groups.Keys == GroupKeys(orders)
    ensures forall k | k in groups :: groups[k] == InGroup(orders, k)
  {
    groups := map[];
    var i := 0;
    while i < |orders|
      invariant 0 <= i <= |orders|
      invariant Grouped(groups, orders[..i])
    {
      var o := orders[i];
      var key := GroupKey(o);
      GroupedStep(groups, orders, i);
      var group := if key in groups then groups[key] else [];
      groups := groups[key := group + [o]];
      i := i + 1;
    }
    assert orders[..i] == orders;
  }

  /** The admin panel's pending count: one for every order whose status is 'pending'. */
  method CountPending(orders: seq<OrderRecord>) returns (pendingCount: nat)
    ensures pendingCount == CountStatus(orders, Pending)
  {
    pendingCount := 0;
    var j := 0;
    while j < |orders|
      invariant 0 <= j <= |orders|
      invariant pendingCount == CountStatus(orders[..j], Pending)
    {
      assert orders[..j + 1][..j] == orders[..j];
      if orders[j].status == Pending {
        pendingCount := pendingCount + 1;
      }
      j := j + 1;
    }
    assert orders[..j] == orders;
  }
}
