/** Regrouping a flat cart by store keeps every line, its order within the store, and the money. */
module GuestGrouping {
  import opened Outcomes
  import opened Sequences
  import opened GuestOrders

  // ----- groups -----

  ghost predicate DistinctStores(groups: seq<Group>) {
    forall i, j :: 0 <= i < j < |groups| ==> groups[i].storeId != groups[j].storeId
  }

  ghost predicate HasStore(groups: seq<Group>, storeId: int) {
    exists g :: g in groups && g.storeId == storeId
  }

  /** The lines grouped under a store so far. */
  function LinesOf(groups: seq<Group>, storeId: int): seq<Line> {
    if groups == [] then []
    else if groups[0].storeId == storeId then groups[0].lines
    else LinesOf(groups[1..], storeId)
  }

  lemma {:induction false} AddLineShape(groups: seq<Group>, storeId: int, line: Line, other: int)
    ensures LinesOf(AddLine(groups, storeId, line), other)
         == if other == storeId then LinesOf(groups, other) + [line] else LinesOf(groups, other)
    ensures HasStore(AddLine(groups, storeId, line), other) <==> HasStore(groups, other) || other == storeId
    ensures |AddLine(groups, storeId, line)| >= 1
  {
    var r := AddLine(groups, storeId, line);
    if groups == [] {
      assert r[0] in r;
    } else if groups[0].storeId == storeId {
      assert r[1..] == groups[1..];
      assert groups == [groups[0]] + groups[1..];
      assert r[0] in r;
    } else {
      AddLineShape(groups[1..], storeId, line, other);
      assert r[1..] == AddLine(groups[1..], storeId, line);
      assert groups == [groups[0]] + groups[1..] && r == [r[0]] + r[1..];
    }
  }

  lemma {:induction false} AddLineDistinct(groups: seq<Group>, storeId: int, line: Line)
    requires DistinctStores(groups)
    ensures DistinctStores(AddLine(groups, storeId, line))
  {
    if groups != [] && groups[0].storeId != storeId {
      AddLineDistinct(groups[1..], storeId, line);
      AddLineShape(groups[1..], storeId, line, groups[0].storeId);
      var rest := AddLine(groups[1..], storeId, line);
      assert !HasStore(groups[1..], groups[0].storeId);
      forall i | 0 <= i < |rest| ensures rest[i].storeId != groups[0].storeId {
        assert rest[i] in rest;
      }
    }
  }

  /** A cost per line, summed over a group. */
  function GroupCost(cost: Line -> int): Group -> int {
    (g: Group) => SumBy(g.lines, cost)
  }

  lemma {:induction false} AddLineCost(groups: seq<Group>, storeId: int, line: Line, cost: Line -> int)
    ensures SumBy(AddLine(groups, storeId, line), GroupCost(cost)) == SumBy(groups, GroupCost(cost)) + cost(line)
  {
    var f := GroupCost(cost);
    if groups == [] {
      SumByCons(Group(storeId, [line]), [], f);
      SumByAppend([], line, cost);
      assert [] + [line] == [line];
      assert [Group(storeId, [line])] + [] == [Group(storeId, [line])];
    } else {
      assert groups == [groups[0]] + groups[1..];
      SumByCons(groups[0], groups[1..], f);
      if groups[0].storeId == storeId {
        SumByCons(Group(storeId, groups[0].lines + [line]), groups[1..], f);
        SumByAppend(groups[0].lines, line, cost);
      } else {
        SumByCons(groups[0], AddLine(groups[1..], storeId, line), f);
        AddLineCost(groups[1..], storeId, line, cost);
      }
    }
  }

  // ----- the cart -----

  /** The store a cart item's product belongs to. */
  function ProductStore(db: Db, item: CartItem): int {
    if item.productId in db.products then db.products[item.productId].storeId else 0
  }

  /** The lines of one store, in cart order. */
  function StoreLines(db: Db, cart: seq<CartItem>, storeId: int): seq<Line> {
    if cart == [] then []
    else if ProductStore(db, cart[0]) == storeId then [LineOf(cart[0])] + StoreLines(db, cart[1..], storeId)
    else StoreLines(db, cart[1..], storeId)
  }

  lemma {:induction false} GroupLinesShape(db: Db, groups: seq<Group>, cart: seq<CartItem>, storeId: int)
    requires GroupLines(db, groups, cart).Ok?
    ensures var r := GroupLines(db, groups, cart).value;
            && LinesOf(r, storeId) == LinesOf(groups, storeId) + StoreLines(db, cart, storeId)
            && (HasStore(r, storeId) <==> HasStore(groups, storeId) || StoreLines(db, cart, storeId) != [])
    decreases |cart|
  {
    if cart == [] {
      assert LinesOf(groups, storeId) + [] == LinesOf(groups, storeId);
    } else {
      var store := ProductStore(db, cart[0]);
      var next := AddLine(groups, store, LineOf(cart[0]));
      assert GroupLines(db, groups, cart) == GroupLines(db, next, cart[1..]);
      AddLineShape(groups, store, LineOf(cart[0]), storeId);
      hide AddLine;
      hide HasStore;
      hide LinesOf;
      hide ProductStore;
      hide StoreOf;
      GroupLinesShape(db, next, cart[1..], storeId);
    }
  }

  lemma {:induction false} GroupLinesDistinct(db: Db, groups: seq<Group>, cart: seq<CartItem>)
    requires GroupLines(db, groups, cart).Ok? && DistinctStores(groups)
    ensures DistinctStores(GroupLines(db, groups, cart).value)
    ensures groups != [] || cart != [] ==> GroupLines(db, groups, cart).value != []
    decreases |cart|
  {
    if cart != [] {
      var store := ProductStore(db, cart[0]);
      AddLineShape(groups, store, LineOf(cart[0]), store);
      AddLineDistinct(groups, store, LineOf(cart[0]));
      hide AddLine;
      hide DistinctStores;
      GroupLinesDistinct(db, AddLine(groups, store, LineOf(cart[0])), cart[1..]);
    }
  }

  lemma LinesOfGroup(groups: seq<Group>, i: nat)
    requires DistinctStores(groups) && i < |groups|
    ensures LinesOf(groups, groups[i].storeId) == groups[i].lines
  {
    if i > 0 {
      assert groups[0].storeId != groups[i].storeId;
      LinesOfGroup(groups[1..], i - 1);
    }
  }

  /**
   The groups have distinct stores, each store of the cart is there, and each group holds its
   store's lines and no others, in cart order.
   */
  lemma GroupsPartitionCart(db: Db, cart: seq<CartItem>)
    requires GroupLines(db, [], cart).Ok?
    ensures var groups := GroupLines(db, [], cart).value;
            && DistinctStores(groups)
            && (forall g :: g in groups ==> g.lines == StoreLines(db, cart, g.storeId) && g.lines != [])
            && (forall s :: HasStore(groups, s) <==> StoreLines(db, cart, s) != [])
            && (cart != [] ==> groups != [])
  {
    var groups := GroupLines(db, [], cart).value;
    GroupLinesDistinct(db, [], cart);
    assert forall g: Group :: g !in [];
    forall s ensures HasStore(groups, s) <==> StoreLines(db, cart, s) != [] {
      GroupLinesShape(db, [], cart, s);
    }
    forall g | g in groups ensures g.lines == StoreLines(db, cart, g.storeId) && g.lines != [] {
      var i :| 0 <= i < |groups| && groups[i] == g;
      LinesOfGroup(groups, i);
      GroupLinesShape(db, [], cart, g.storeId);
      assert HasStore(groups, g.storeId);
    }
  }

  /** The lines of all groups, one group after the other. */
  function AllLines(groups: seq<Group>): seq<Line> {
    if groups == [] then [] else groups[0].lines + AllLines(groups[1..])
  }

  function CartLines(cart: seq<CartItem>): (r: seq<Line>)
    ensures |r| == |cart| && forall i :: 0 <= i < |r| ==> r[i] == LineOf(cart[i])
  {
    seq(|cart|, i requires 0 <= i < |cart| => LineOf(cart[i]))
  }

  lemma {:induction false} AddLinePermutes(groups: seq<Group>, storeId: int, line: Line)
    ensures multiset(AllLines(AddLine(groups, storeId, line))) == multiset(AllLines(groups)) + multiset{line}
  {
    var r := AddLine(groups, storeId, line);
    if groups == [] {
      assert AllLines(r) == [line] + AllLines(r[1..]) && r[1..] == [];
      assert AllLines(r) == [line];
    } else if groups[0].storeId == storeId {
      assert r[1..] == groups[1..];
      assert AllLines(r) == groups[0].lines + [line] + AllLines(groups[1..]);
    } else {
      AddLinePermutes(groups[1..], storeId, line);
      assert r[1..] == AddLine(groups[1..], storeId, line);
    }
  }

  lemma CartLinesStep(cart: seq<CartItem>)
    requires cart != []
    ensures multiset(CartLines(cart)) == multiset{LineOf(cart[0])} + multiset(CartLines(cart[1..]))
  {
    assert CartLines(cart) == [LineOf(cart[0])] + CartLines(cart[1..]);
  }

  /** Together the groups are a permutation of the cart. */
  lemma {:induction false} GroupsPermuteCart(db: Db, groups: seq<Group>, cart: seq<CartItem>)
    requires GroupLines(db, groups, cart).Ok?
    ensures multiset(AllLines(GroupLines(db, groups, cart).value))
         == multiset(AllLines(groups)) + multiset(CartLines(cart))
    decreases |cart|
  {
    if cart == [] {
      assert CartLines(cart) == [];
    } else {
      var next := AddLine(groups, ProductStore(db, cart[0]), LineOf(cart[0]));
      assert GroupLines(db, groups, cart) == GroupLines(db, next, cart[1..]);
      CartLinesStep(cart);
      AddLinePermutes(groups, ProductStore(db, cart[0]), LineOf(cart[0]));
      GroupsPermuteCart(db, next, cart[1..]);
      hide *;
    }
  }

  /** A cost per line, read off a cart item. */
  function ItemCost(cost: Line -> int): CartItem -> int {
    (item: CartItem) => cost(LineOf(item))
  }

  /** Any cost per line adds up to the same over the groups as over the flat cart. */
  lemma {:induction false} GroupsKeepCost(db: Db, groups: seq<Group>, cart: seq<CartItem>, cost: Line -> int)
    requires GroupLines(db, groups, cart).Ok?
    ensures SumBy(GroupLines(db, groups, cart).value, GroupCost(cost))
         == SumBy(groups, GroupCost(cost)) + SumBy(cart, ItemCost(cost))
    decreases |cart|
  {
    if cart != [] {
      var store := ProductStore(db, cart[0]);
      AddLineCost(groups, store, LineOf(cart[0]), cost);
      GroupsKeepCost(db, AddLine(groups, store, LineOf(cart[0])), cart[1..], cost);
      assert cart == [cart[0]] + cart[1..];
      SumByCons(cart[0], cart[1..], ItemCost(cost));
    }
  }

  // ----- the multi-seller flag -----

  /** The stores of the products in the cart. */
  function CartStores(db: Db, cart: seq<CartItem>): set<int> {
    set item | item in cart :: ProductStore(db, item)
  }

  lemma {:induction false} StoresCounted(groups: seq<Group>)
    requires DistinctStores(groups)
    ensures |set g | g in groups :: g.storeId| == |groups|
  {
    if groups != [] {
      var n := |groups| - 1;
      StoresCounted(groups[..n]);
      var before := set g | g in groups[..n] :: g.storeId;
      assert groups == groups[..n] + [groups[n]];
      assert (set g | g in groups :: g.storeId) == before + {groups[n].storeId};
      assert groups[n].storeId !in before;
    }
  }

  /** There is one group per store of the cart. */
  lemma OrderPerStore(db: Db, cart: seq<CartItem>)
    requires GroupLines(db, [], cart).Ok?
    ensures |GroupLines(db, [], cart).value| == |CartStores(db, cart)|
    ensures forall s :: HasStore(GroupLines(db, [], cart).value, s) <==> s in CartStores(db, cart)
  {
    var groups := GroupLines(db, [], cart).value;
    GroupsPartitionCart(db, cart);
    StoresCounted(groups);
    var stores := set g | g in groups :: g.storeId;
    forall s ensures s in stores <==> s in CartStores(db, cart) {
      if s in stores {
        var g :| g in groups && g.storeId == s;
        assert HasStore(groups, s);
        var item := LineOfStore(db, cart, s);
      }
      if s in CartStores(db, cart) {
        var item :| item in cart && ProductStore(db, item) == s;
        StoreHasLine(db, cart, item);
        assert HasStore(groups, s);
      }
    }
    assert stores == CartStores(db, cart);
  }

  lemma {:induction false} GroupStores(db: Db, groups: seq<Group>, cart: seq<CartItem>)
    requires GroupLines(db, groups, cart).Ok?
    ensures forall item :: item in cart ==> item.productId in db.products
    ensures forall item :: item in cart && item.storeId.Id? ==> item.storeId.value == ProductStore(db, item)
    decreases |cart|
  {
    if cart != [] {
      GroupStores(db, AddLine(groups, ProductStore(db, cart[0]), LineOf(cart[0])), cart[1..]);
      assert forall item :: item in cart ==> item == cart[0] || item in cart[1..];
    }
  }

  lemma {:induction false} StoreHasLine(db: Db, cart: seq<CartItem>, item: CartItem)
    requires item in cart
    ensures StoreLines(db, cart, ProductStore(db, item)) != []
  {
    if item != cart[0] {
      assert item in cart[1..];
      StoreHasLine(db, cart[1..], item);
    }
  }

  lemma {:induction false} LineOfStore(db: Db, cart: seq<CartItem>, storeId: int) returns (item: CartItem)
    requires StoreLines(db, cart, storeId) != []
    ensures item in cart && ProductStore(db, item) == storeId
  {
    if ProductStore(db, cart[0]) == storeId {
      item := cart[0];
    } else {
      item := LineOfStore(db, cart[1..], storeId);
    }
  }

  predicate AllNamed(cart: seq<CartItem>) {
    forall item | item in cart :: item.storeId.Id?
  }

  /** No item names its store, and all leave it out in the same way. */
  predicate AlikeUnnamed(cart: seq<CartItem>) {
    || (forall item | item in cart :: item.storeId == Absent)
    || (forall item | item in cart :: item.storeId == Null)
  }

  /**
   Every item names its store; or none does, all in the same way, and there is one store; or neither
   is so and there are several stores.
   */
  predicate FlagIsRight(db: Db, cart: seq<CartItem>) {
    || AllNamed(cart)
    || (if AlikeUnnamed(cart) then |CartStores(db, cart)| == 1 else |CartStores(db, cart)| > 1)
  }

  lemma NamedStoresCounted(db: Db, cart: seq<CartItem>)
    requires GroupLines(db, [], cart).Ok? && AllNamed(cart)
    ensures |set item | item in cart :: item.storeId| == |CartStores(db, cart)|
  {
    GroupStores(db, [], cart);
    var named := set item | item in cart :: item.storeId;
    forall s ensures s in named <==> s in RefsTo(CartStores(db, cart)) {
      if s in named {
        var item :| item in cart && item.storeId == s;
        assert ProductStore(db, item) in CartStores(db, cart);
      }
      if s in RefsTo(CartStores(db, cart)) {
        var item :| item in cart && s == Id(ProductStore(db, item));
      }
    }
    assert named == RefsTo(CartStores(db, cart));
    RefsCounted(CartStores(db, cart));
  }

  function RefsTo(stores: set<int>): set<StoreRef> {
    set x | x in stores :: Id(x)
  }

  lemma RefsCounted(stores: set<int>)
    ensures |RefsTo(stores)| == |stores|
  {
    ImageCounted(stores, (x: int) => Id(x), RefsTo(stores));
  }

  /** An image under an injective function has as many elements. */
  lemma {:induction false} ImageCounted<A(!new), B(!new)>(s: set<A>, f: A -> B, image: set<B>)
    requires forall x, y :: x in s && y in s && f(x) == f(y) ==> x == y
    requires forall y :: y in image <==> exists x :: x in s && f(x) == y
    ensures |image| == |s|
  {
    if x :| x in s {
      assert f(x) in image;
      ImageCounted(s - {x}, f, image - {f(x)});
    } else {
      assert s == {} && image == {};
    }
  }

  lemma UnnamedStoresCounted(cart: seq<CartItem>)
    requires !AllNamed(cart)
    ensures |set item | item in cart :: item.storeId| > 1 <==> !AlikeUnnamed(cart)
  {
    var sent := set item | item in cart :: item.storeId;
    var item :| item in cart && !item.storeId.Id?;
    assert item.storeId in sent;
    if AlikeUnnamed(cart) {
      assert sent == {item.storeId};
    } else {
      var other :| other in cart && other.storeId != item.storeId;
      assert {item.storeId, other.storeId} <= sent;
      SmallerSet({item.storeId, other.storeId}, sent);
    }
  }

  lemma {:induction false} SmallerSet<T>(a: set<T>, b: set<T>)
    requires a <= b
    ensures |a| <= |b|
  {
    if x :| x in a {
      SmallerSet(a - {x}, b - {x});
    } else {
      assert a == {};
    }
  }

  /** `is_multi_seller` says whether more than one order is created exactly in these cases. */
  lemma MultiSellerFlag(db: Db, cart: seq<CartItem>)
    requires GroupLines(db, [], cart).Ok?
    ensures (MultiSeller(cart) <==> |GroupLines(db, [], cart).value| > 1) <==> FlagIsRight(db, cart)
  {
    OrderPerStore(db, cart);
    if AllNamed(cart) {
      NamedStoresCounted(db, cart);
    } else {
      UnnamedStoresCounted(cart);
      var item :| item in cart && !item.storeId.Id?;
      assert ProductStore(db, item) in CartStores(db, cart);
    }
  }
}
