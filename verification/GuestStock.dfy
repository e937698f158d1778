/** Stock under guest orders: what is taken from the shelves is exactly what committed orders hold. */
module GuestStock {
  import opened Outcomes
  import opened Sequences
  import opened GuestOrders

  function ProductUnits(p: int): Item -> int {
    (i: Item) => if i.productId == p then i.quantity else 0
  }

  function VariantUnits(v: int): Item -> int {
    (i: Item) => if i.variantId == v then i.quantity else 0
  }

  function ProductLines(p: int): Item -> int {
    (i: Item) => if i.productId == p then 1 else 0
  }

  function InOrder(f: Item -> int): Order -> int {
    (o: Order) => SumBy(o.items, f)
  }

  /** The sum of `f` over all lines of all orders. */
  function Ordered(orders: seq<Order>, f: Item -> int): int {
    SumBy(orders, InOrder(f))
  }

  /** Nothing but stock counters and orders differs. */
  ghost predicate SameCatalog(a: Db, b: Db) {
    && a.products.Keys == b.products.Keys
    && a.variants.Keys == b.variants.Keys
    && a.stores == b.stores
    && (forall p :: p in a.products ==>
          && a.products[p].rate == b.products[p].rate
          && a.products[p].storeId == b.products[p].storeId
          && a.products[p].available == b.products[p].available)
    && (forall v :: v in a.variants ==>
          && a.variants[v].productId == b.variants[v].productId
          && a.variants[v].price == b.variants[v].price)
  }

  /** Product `p` lost exactly the units in `taken`, and did not go below zero. */
  ghost predicate ProductMoved(a: Product, b: Product, taken: seq<Item>, p: int) {
    && a.unit == b.unit + SumBy(taken, ProductUnits(p))
    && b.orderCount == a.orderCount + SumBy(taken, ProductLines(p))
    && (a.unit >= 0 ==> b.unit >= 0)
  }

  ghost predicate VariantMoved(a: Variant, b: Variant, taken: seq<Item>, v: int) {
    && a.units == b.units + SumBy(taken, VariantUnits(v))
    && (a.units >= 0 ==> b.units >= 0)
  }

  /** The stock change from `a` to `b` is exactly `taken`; variant id 0 stands for no variant. */
  ghost predicate Moved(a: Db, b: Db, taken: seq<Item>) {
    && SameCatalog(a, b)
    && (forall p :: p in a.products ==> ProductMoved(a.products[p], b.products[p], taken, p))
    && (forall v :: v in a.variants && v != 0 ==> VariantMoved(a.variants[v], b.variants[v], taken, v))
  }

  lemma MovedNothing(a: Db, b: Db)
    requires a.products == b.products && a.variants == b.variants && a.stores == b.stores
    ensures Moved(a, b, [])
  {
  }

  lemma MovedTwice(a: Db, b: Db, c: Db, s: seq<Item>, t: seq<Item>)
    requires Moved(a, b, s) && Moved(b, c, t)
    ensures Moved(a, c, s + t)
  {
    hide SumBy;
    forall p | p in a.products ensures ProductMoved(a.products[p], c.products[p], s + t, p) {
      SumByConcat(s, t, ProductUnits(p));
      SumByConcat(s, t, ProductLines(p));
      assert ProductMoved(a.products[p], b.products[p], s, p) && ProductMoved(b.products[p], c.products[p], t, p);
    }
    forall v | v in a.variants && v != 0 ensures VariantMoved(a.variants[v], c.variants[v], s + t, v) {
      SumByConcat(s, t, VariantUnits(v));
      assert VariantMoved(a.variants[v], b.variants[v], s, v) && VariantMoved(b.variants[v], c.variants[v], t, v);
    }
  }

  lemma SumOfOne(i: Item, f: Item -> int)
    ensures SumBy([i], f) == f(i)
  {
    assert [i][..0] == [];
  }

  /** A line that is taken moves exactly its own quantity, off its product and off its variant. */
  lemma TakeLineMoves(db: Db, line: Line)
    requires TakeLine(db, line).Ok?
    ensures Moved(db, TakeLine(db, line).value, [ItemOf(db, line)])
    ensures TakeLine(db, line).value.orders == db.orders && line.quantity >= 1
  {
    hide SumBy;
    var next := TakeLine(db, line).value;
    var item := ItemOf(db, line);
    forall p | p in db.products ensures ProductMoved(db.products[p], next.products[p], [item], p) {
      SumOfOne(item, ProductUnits(p));
      SumOfOne(item, ProductLines(p));
    }
    forall v | v in db.variants && v != 0 ensures VariantMoved(db.variants[v], next.variants[v], [item], v) {
      SumOfOne(item, VariantUnits(v));
    }
  }

  lemma PriceStable(a: Db, b: Db, line: Line)
    requires SameCatalog(a, b)
    ensures ItemOf(a, line) == ItemOf(b, line)
  {
    assert line.variantId in a.variants <==> line.variantId in b.variants;
    assert line.productId in a.products <==> line.productId in b.products;
  }

  /** The lines placed for an order are the lines asked for, at the catalogue's prices. */
  ghost predicate Matches(db: Db, items: seq<Item>, lines: seq<Line>) {
    |items| == |lines| && forall k :: 0 <= k < |lines| ==> items[k] == ItemOf(db, lines[k])
  }

  lemma PlaceNothing(db: Db, items: seq<Item>)
    ensures PlaceLines(db, items, []) == Ok(Placed(db, items))
    ensures Matches(db, [], []) && Moved(db, db, [])
  {
    MovedNothing(db, db);
    hide Moved;
  }

  lemma PlaceLinesStep(db: Db, items: seq<Item>, lines: seq<Line>)
    requires lines != [] && PlaceLines(db, items, lines).Ok?
    ensures TakeLine(db, lines[0]).Ok?
    ensures PlaceLines(db, items, lines)
         == PlaceLines(TakeLine(db, lines[0]).value, items + [ItemOf(db, lines[0])], lines[1..])
  {
    hide TakeLine;
    hide ItemOf;
  }

  lemma MovedKeepsCatalog(a: Db, b: Db, taken: seq<Item>)
    requires Moved(a, b, taken)
    ensures SameCatalog(a, b)
  {
  }

  lemma MatchesOneMore(db: Db, next: Db, rest: seq<Item>, lines: seq<Line>)
    requires lines != [] && SameCatalog(db, next) && Matches(next, rest, lines[1..])
    ensures Matches(db, [ItemOf(db, lines[0])] + rest, lines)
  {
    var taken := [ItemOf(db, lines[0])] + rest;
    forall k | 0 <= k < |lines| ensures taken[k] == ItemOf(db, lines[k]) {
      if k > 0 {
        assert lines[1..][k - 1] == lines[k];
        PriceStable(db, next, lines[k]);
      }
    }
  }

  lemma {:induction false} PlaceLinesMoves(db: Db, items: seq<Item>, lines: seq<Line>) returns (taken: seq<Item>)
    requires PlaceLines(db, items, lines).Ok?
    ensures PlaceLines(db, items, lines).value.items == items + taken
    ensures Matches(db, taken, lines)
    ensures Moved(db, PlaceLines(db, items, lines).value.db, taken)
    ensures PlaceLines(db, items, lines).value.db.orders == db.orders
    decreases |lines|
  {
    hide *;
    if lines == [] {
      taken := [];
      PlaceNothing(db, items);
      assert items + [] == items;
    } else {
      PlaceLinesStep(db, items, lines);
      var item, next := ItemOf(db, lines[0]), TakeLine(db, lines[0]).value;
      TakeLineMoves(db, lines[0]);
      MovedKeepsCatalog(db, next, [item]);
      var rest := PlaceLinesMoves(next, items + [item], lines[1..]);
      taken := [item] + rest;
      assert items + [item] + rest == items + taken;
      MovedTwice(db, next, PlaceLines(next, items + [item], lines[1..]).value.db, [item], rest);
      MatchesOneMore(db, next, rest, lines);
    }
  }

  lemma TakeIgnoresOrders(db: Db, line: Line, orders: seq<Order>)
    ensures TakeLine(db.(orders := orders), line)
         == match TakeLine(db, line) case Ok(next) => Ok(next.(orders := orders)) case Err(e) => Err(e)
    ensures ItemOf(db.(orders := orders), line) == ItemOf(db, line)
  {
  }

  /** Placing lines neither reads nor writes the orders. */
  lemma {:induction false} PlaceLinesIgnoresOrders(db: Db, items: seq<Item>, lines: seq<Line>, orders: seq<Order>)
    ensures PlaceLines(db.(orders := orders), items, lines)
         == match PlaceLines(db, items, lines)
            case Ok(placed) => Ok(placed.(db := placed.db.(orders := orders)))
            case Err(e) => Err(e)
    decreases |lines|
  {
    if lines != [] {
      TakeIgnoresOrders(db, lines[0], orders);
      hide TakeLine;
      hide ItemOf;
      if TakeLine(db, lines[0]).Ok? {
        PlaceLinesIgnoresOrders(TakeLine(db, lines[0]).value, items + [ItemOf(db, lines[0])], lines[1..], orders);
      }
    }
  }

  // ----- conservation over orders -----

  ghost predicate ProductConserved(a: Db, b: Db, p: int)
    requires p in a.products && p in b.products
  {
    && a.products[p].unit + Ordered(a.orders, ProductUnits(p))
       == b.products[p].unit + Ordered(b.orders, ProductUnits(p))
    && a.products[p].orderCount - Ordered(a.orders, ProductLines(p))
       == b.products[p].orderCount - Ordered(b.orders, ProductLines(p))
    && (a.products[p].unit >= 0 ==> b.products[p].unit >= 0)
  }

  ghost predicate VariantConserved(a: Db, b: Db, v: int)
    requires v in a.variants && v in b.variants
  {
    && a.variants[v].units + Ordered(a.orders, VariantUnits(v))
       == b.variants[v].units + Ordered(b.orders, VariantUnits(v))
    && (a.variants[v].units >= 0 ==> b.variants[v].units >= 0)
  }

  /**
   Shelf units plus units in committed order lines are the same in `a` and `b` for each product and
   variant, no counter goes below zero, and orders are only added.
   */
  ghost predicate Conserves(a: Db, b: Db) {
    && SameCatalog(a, b)
    && a.orders <= b.orders
    && (forall p :: p in a.products ==> ProductConserved(a, b, p))
    && (forall v :: v in a.variants && v != 0 ==> VariantConserved(a, b, v))
  }

  lemma ConservesItself(a: Db)
    ensures Conserves(a, a)
  {
  }

  lemma ConservesTwice(a: Db, b: Db, c: Db)
    requires Conserves(a, b) && Conserves(b, c)
    ensures Conserves(a, c)
  {
    hide Ordered;
    forall p | p in a.products ensures ProductConserved(a, c, p) {
      assert ProductConserved(a, b, p) && ProductConserved(b, c, p);
    }
    forall v | v in a.variants && v != 0 ensures VariantConserved(a, c, v) {
      assert VariantConserved(a, b, v) && VariantConserved(b, c, v);
    }
  }

  lemma OrderedAppend(orders: seq<Order>, o: Order, f: Item -> int)
    ensures Ordered(orders + [o], f) == Ordered(orders, f) + SumBy(o.items, f)
  {
    SumByAppend(orders, o, InOrder(f));
  }

  /** Stock moved into the lines of one new order is conserved. */
  lemma MovedIntoOrder(a: Db, b: Db, o: Order)
    requires Moved(a, b, o.items) && b.orders == a.orders
    ensures Conserves(a, b.(orders := a.orders + [o]))
  {
    hide Ordered;
    hide SumBy;
    var c := b.(orders := a.orders + [o]);
    forall p | p in a.products ensures ProductConserved(a, c, p) {
      OrderedAppend(a.orders, o, ProductUnits(p));
      OrderedAppend(a.orders, o, ProductLines(p));
      assert ProductMoved(a.products[p], b.products[p], o.items, p);
    }
    forall v | v in a.variants && v != 0 ensures VariantConserved(a, c, v) {
      OrderedAppend(a.orders, o, VariantUnits(v));
      assert VariantMoved(a.variants[v], b.variants[v], o.items, v);
    }
  }

  /** What placing one group leaves: one more order, holding the group's lines, and conserved stock. */
  lemma PlaceGroupEffect(db: Db, reference: string, multi: bool, token: Token, group: Group) returns (o: Order)
    requires PlaceGroup(db, reference, multi, token, group).Ok?
    ensures var next := PlaceGroup(db, reference, multi, token, group).value;
            next.orders == db.orders + [o] && Conserves(db, next)
    ensures o == NewOrder(LastId(db.orders) + 1, group.storeId, reference, multi, token, o.items)
    ensures Matches(db, o.items, group.lines)
  {
    hide SumBy;
    var placed := PlaceLines(db, [], group.lines).value;
    var taken := PlaceLinesMoves(db, [], group.lines);
    assert [] + taken == taken;
    o := NewOrder(LastId(db.orders) + 1, group.storeId, reference, multi, token, taken);
    MovedIntoOrder(db, placed.db, o);
  }

  lemma {:induction false} PlaceGroupsConserve(db: Db, reference: string, multi: bool, token: Token, groups: seq<Group>)
    requires PlaceGroups(db, reference, multi, token, groups).Ok?
    ensures Conserves(db, PlaceGroups(db, reference, multi, token, groups).value)
    decreases |groups|
  {
    if groups == [] {
      ConservesItself(db);
    } else {
      var next := PlaceGroup(db, reference, multi, token, groups[0]).value;
      var o := PlaceGroupEffect(db, reference, multi, token, groups[0]);
      PlaceGroupsConserve(next, reference, multi, token, groups[1..]);
      ConservesTwice(db, next, PlaceGroups(next, reference, multi, token, groups[1..]).value);
    }
  }

  /** A transaction that commits conserves stock. */
  lemma CommitConserves(db: Db, req: Request)
    requires Commit(db, req).Ok?
    ensures Conserves(db, Commit(db, req).value)
  {
    var token := BasicCheck(req).value;
    var groups := GroupLines(db, [], req.cart).value;
    hide PlaceGroups;
    PlaceGroupsConserve(db, req.reference, MultiSeller(req.cart), token, groups);
  }

  /** One call conserves stock; a call that fails changes nothing. */
  lemma CreateConserves(db: Db, req: Request)
    ensures Conserves(db, Create(db, req).db)
    ensures Create(db, req).result.Err? ==> Create(db, req).db == db
  {
    ConservesItself(db);
    if Commit(db, req).Ok? { CommitConserves(db, req); }
    hide Commit;
    hide Conserves;
  }

  // ----- serial runs -----

  /** The tables after a series of calls. */
  function CreateAll(db: Db, reqs: seq<Request>): Db {
    if reqs == [] then db else Create(CreateAll(db, reqs[..|reqs| - 1]), reqs[|reqs| - 1]).db
  }

  lemma CreateAllStep(db: Db, reqs: seq<Request>, k: nat)
    requires k < |reqs|
    ensures CreateAll(db, reqs[..k + 1]) == Create(CreateAll(db, reqs[..k]), reqs[k]).db
  {
    assert reqs[..k + 1][..k] == reqs[..k];
  }

  lemma {:induction false} CreateAllConcat(db: Db, a: seq<Request>, b: seq<Request>)
    ensures CreateAll(db, a + b) == CreateAll(CreateAll(db, a), b)
  {
    hide Create;
    if b == [] {
      assert a + b == a;
    } else {
      var n := |b| - 1;
      assert (a + b)[..|a + b| - 1] == a + b[..n];
      CreateAllConcat(db, a, b[..n]);
    }
  }

  lemma {:induction false} RunConserves(db: Db, reqs: seq<Request>)
    ensures Conserves(db, CreateAll(db, reqs))
  {
    if reqs == [] {
      ConservesItself(db);
    } else {
      hide Create;
      var n := |reqs| - 1;
      var before := CreateAll(db, reqs[..n]);
      RunConserves(db, reqs[..n]);
      CreateConserves(before, reqs[n]);
      ConservesTwice(db, before, CreateAll(db, reqs));
    }
  }

  /**
   After any serial run that starts without orders, a product's initial units are its current units
   plus all quantities of it in committed order lines, and current units are not negative.
   */
  lemma ProductStockIsConserved(db: Db, reqs: seq<Request>, p: int)
    requires db.orders == [] && p in db.products
    ensures var last := CreateAll(db, reqs);
            && p in last.products
            && db.products[p].unit == last.products[p].unit + Ordered(last.orders, ProductUnits(p))
            && (db.products[p].unit >= 0 ==> last.products[p].unit >= 0)
  {
    RunConserves(db, reqs);
    assert ProductConserved(db, CreateAll(db, reqs), p);
    hide Ordered;
    NoOrders(ProductUnits(p));
  }

  /** And so for a variant. */
  lemma VariantStockIsConserved(db: Db, reqs: seq<Request>, v: int)
    requires db.orders == [] && v in db.variants && v != 0
    ensures var last := CreateAll(db, reqs);
            && v in last.variants
            && db.variants[v].units == last.variants[v].units + Ordered(last.orders, VariantUnits(v))
            && (db.variants[v].units >= 0 ==> last.variants[v].units >= 0)
  {
    RunConserves(db, reqs);
    assert VariantConserved(db, CreateAll(db, reqs), v);
    hide Ordered;
    NoOrders(VariantUnits(v));
  }

  lemma NoOrders(f: Item -> int)
    ensures Ordered([], f) == 0
  {
  }
}
