/**
 When a guest order can be filled: although lines are taken off the shelves one by one, store by
 store, whether they all can be depends only on the cart's total demand per product and variant.
 */
module GuestDemand {
  import opened Outcomes
  import opened Sequences
  import opened Payments
  import opened Text
  import opened GuestOrders
  import opened GuestStock
  import opened GuestGrouping
  import opened GuestMoney

  // ----- demand -----

  function OfProduct(p: int): Line -> int {
    (line: Line) => if line.productId == p then line.quantity else 0
  }

  function OfVariant(v: int): Line -> int {
    (line: Line) => if line.variantId == v then line.quantity else 0
  }

  /** The line is one the shop sells, whatever its stock. */
  predicate Orderable(db: Db, line: Line) {
    && line.quantity >= 1
    && line.productId in db.products && db.products[line.productId].available
    && (line.variantId != 0 ==>
          line.variantId in db.variants && db.variants[line.variantId].productId == line.productId)
  }

  ghost predicate AllOrderable(db: Db, lines: seq<Line>) {
    forall line :: line in lines ==> Orderable(db, line)
  }

  ghost predicate ProductsSuffice(db: Db, lines: seq<Line>) {
    forall p :: p in db.products && SumBy(lines, OfProduct(p)) > 0 ==> SumBy(lines, OfProduct(p)) <= db.products[p].unit
  }

  ghost predicate VariantsSuffice(db: Db, lines: seq<Line>) {
    forall v :: v in db.variants && v != 0 && SumBy(lines, OfVariant(v)) > 0 ==>
      SumBy(lines, OfVariant(v)) <= db.variants[v].units
  }

  /** The whole demand of the lines is on the shelves. */
  ghost predicate Fits(db: Db, lines: seq<Line>) {
    AllOrderable(db, lines) && ProductsSuffice(db, lines) && VariantsSuffice(db, lines)
  }

  lemma {:induction false} DemandNotNegative(db: Db, lines: seq<Line>, p: int)
    requires AllOrderable(db, lines)
    ensures SumBy(lines, OfProduct(p)) >= 0 && SumBy(lines, OfVariant(p)) >= 0
  {
    if lines != [] {
      var n := |lines| - 1;
      assert lines == lines[..n] + [lines[n]];
      assert lines[n] in lines;
      DemandNotNegative(db, lines[..n], p);
    }
  }

  // ----- lines -----

  lemma TakeLineExactly(db: Db, line: Line)
    ensures TakeLine(db, line).Ok? <==>
              && Orderable(db, line)
              && line.quantity <= db.products[line.productId].unit
              && (line.variantId != 0 ==> line.quantity <= db.variants[line.variantId].units)
  {
  }

  /** What taking one line leaves for the others. */
  lemma TakeLineLeaves(db: Db, line: Line, rest: seq<Line>)
    requires TakeLine(db, line).Ok?
    ensures Fits(db, [line] + rest) <==> Fits(TakeLine(db, line).value, rest)
  {
    TakeLineExactly(db, line);
    var next := TakeLine(db, line).value;
    var lines := [line] + rest;
    assert line in lines;
    OrderableLeft(db, line, rest);
    if AllOrderable(db, rest) {
      forall p ensures SumBy(lines, OfProduct(p)) == OfProduct(p)(line) + SumBy(rest, OfProduct(p))
        && SumBy(rest, OfProduct(p)) >= 0
      {
        SumByCons(line, rest, OfProduct(p));
        DemandNotNegative(db, rest, p);
      }
      forall v ensures SumBy(lines, OfVariant(v)) == OfVariant(v)(line) + SumBy(rest, OfVariant(v))
        && SumBy(rest, OfVariant(v)) >= 0
      {
        SumByCons(line, rest, OfVariant(v));
        DemandNotNegative(db, rest, v);
      }
      hide SumBy;
      LeftProducts(db, line, rest);
      LeftVariants(db, line, rest);
    }
  }

  lemma OrderableLeft(db: Db, line: Line, rest: seq<Line>)
    requires TakeLine(db, line).Ok?
    ensures AllOrderable(db, [line] + rest) <==> AllOrderable(TakeLine(db, line).value, rest)
    ensures AllOrderable(db, [line] + rest) <==> AllOrderable(db, rest)
  {
    TakeLineExactly(db, line);
    var next := TakeLine(db, line).value;
    forall l ensures Orderable(db, l) <==> Orderable(next, l) {
    }
    assert forall l :: l in [line] + rest <==> l == line || l in rest;
  }

  lemma LeftProducts(db: Db, line: Line, rest: seq<Line>)
    requires TakeLine(db, line).Ok? && AllOrderable(db, rest)
    ensures ProductsSuffice(db, [line] + rest) <==> ProductsSuffice(TakeLine(db, line).value, rest)
  {
    TakeLineExactly(db, line);
    var next := TakeLine(db, line).value;
    forall p ensures SumBy([line] + rest, OfProduct(p)) == OfProduct(p)(line) + SumBy(rest, OfProduct(p)) >= 0
      && SumBy(rest, OfProduct(p)) >= 0
    {
      SumByCons(line, rest, OfProduct(p));
      DemandNotNegative(db, rest, p);
    }
    hide SumBy;
    forall p | p in db.products ensures next.products[p].unit == db.products[p].unit - OfProduct(p)(line) {
    }
  }

  lemma LeftVariants(db: Db, line: Line, rest: seq<Line>)
    requires TakeLine(db, line).Ok? && AllOrderable(db, rest)
    ensures VariantsSuffice(db, [line] + rest) <==> VariantsSuffice(TakeLine(db, line).value, rest)
  {
    TakeLineExactly(db, line);
    var next := TakeLine(db, line).value;
    forall v ensures SumBy([line] + rest, OfVariant(v)) == OfVariant(v)(line) + SumBy(rest, OfVariant(v)) >= 0
      && SumBy(rest, OfVariant(v)) >= 0
    {
      SumByCons(line, rest, OfVariant(v));
      DemandNotNegative(db, rest, v);
    }
    hide SumBy;
    forall v | v in db.variants && v != 0 ensures next.variants[v].units == db.variants[v].units - OfVariant(v)(line) {
    }
  }

  /** A line that cannot be taken does not fit, whatever comes after it. */
  lemma RefusedDoesNotFit(db: Db, line: Line, rest: seq<Line>)
    requires TakeLine(db, line).Err?
    ensures !Fits(db, [line] + rest)
  {
    TakeLineExactly(db, line);
    var lines := [line] + rest;
    assert line in lines;
    if AllOrderable(db, lines) {
      assert forall l :: l in rest ==> l in lines;
      SumByCons(line, rest, OfProduct(line.productId));
      SumByCons(line, rest, OfVariant(line.variantId));
      DemandNotNegative(db, rest, line.productId);
      DemandNotNegative(db, rest, line.variantId);
      hide SumBy;
    }
  }

  /** Lines can be taken one after the other exactly when their whole demand fits. */
  lemma {:induction false} PlaceLinesExactly(db: Db, items: seq<Item>, lines: seq<Line>)
    ensures PlaceLines(db, items, lines).Ok? <==> Fits(db, lines)
    decreases |lines|
  {
    if lines != [] {
      var line, rest := lines[0], lines[1..];
      assert lines == [line] + rest;
      var taken := TakeLine(db, line);
      if taken.Ok? {
        TakeLineLeaves(db, line, rest);
        PlaceLinesExactly(taken.value, items + [ItemOf(db, line)], rest);
      } else {
        RefusedDoesNotFit(db, line, rest);
      }
      hide Fits;
      hide TakeLine;
    }
  }

  // ----- groups -----

  lemma {:induction false} PlaceLinesConcat(db: Db, items: seq<Item>, a: seq<Line>, b: seq<Line>)
    ensures PlaceLines(db, items, a + b)
         == match PlaceLines(db, items, a)
            case Ok(placed) => PlaceLines(placed.db, placed.items, b)
            case Err(e) => Err(e)
    decreases |a|
  {
    hide TakeLine;
    hide ItemOf;
    if a == [] {
      assert a + b == b;
    } else {
      assert (a + b)[1..] == a[1..] + b;
      if TakeLine(db, a[0]).Ok? {
        PlaceLinesConcat(TakeLine(db, a[0]).value, items + [ItemOf(db, a[0])], a[1..], b);
      }
    }
  }

  ghost predicate StoresExist(db: Db, groups: seq<Group>) {
    forall g :: g in groups ==> g.storeId in db.stores
  }

  lemma {:induction false} PlaceGroupsExactly(
      db: Db, items: seq<Item>, reference: string, multi: bool, token: Token, groups: seq<Group>)
    ensures PlaceGroups(db, reference, multi, token, groups).Ok? <==>
              PlaceLines(db, items, AllLines(groups)).Ok? && StoresExist(db, groups)
    decreases |groups|
  {
    if groups != [] {
      var g, rest := groups[0], groups[1..];
      assert forall h :: h in groups <==> h == g || h in rest;
      PlaceLinesConcat(db, items, g.lines, AllLines(rest));
      PlaceLinesExactly(db, items, g.lines);
      PlaceLinesExactly(db, [], g.lines);
      if PlaceGroup(db, reference, multi, token, g).Ok? {
        var next := PlaceGroup(db, reference, multi, token, g).value;
        var placed := PlaceLines(db, items, g.lines).value;
        SameStock(db, items, g.lines);
        var o := PlaceGroupEffect(db, reference, multi, token, g);
        PlaceLinesIgnoresOrders(placed.db, placed.items, AllLines(rest), next.orders);
        PlaceGroupsExactly(next, placed.items, reference, multi, token, rest);
        hide PlaceLines;
        hide Conserves;
        assert next.stores == db.stores;
      }
      hide Fits;
    }
  }

  /** Placing the groups leaves the stock that placing all their lines leaves. */
  lemma {:induction false} PlaceGroupsStock(
      db: Db, items: seq<Item>, reference: string, multi: bool, token: Token, groups: seq<Group>)
    requires PlaceGroups(db, reference, multi, token, groups).Ok?
    ensures PlaceLines(db, items, AllLines(groups)).Ok?
    ensures var next := PlaceGroups(db, reference, multi, token, groups).value;
            next == PlaceLines(db, items, AllLines(groups)).value.db.(orders := next.orders)
    decreases |groups|
  {
    PlaceGroupsExactly(db, items, reference, multi, token, groups);
    if groups != [] {
      var g, rest := groups[0], groups[1..];
      PlaceLinesConcat(db, items, g.lines, AllLines(rest));
      SameStock(db, items, g.lines);
      var next := PlaceGroup(db, reference, multi, token, g).value;
      var placed := PlaceLines(db, items, g.lines).value;
      PlaceLinesIgnoresOrders(placed.db, placed.items, AllLines(rest), next.orders);
      PlaceGroupsStock(next, placed.items, reference, multi, token, rest);
      hide PlaceLines;
    }
  }

  /** The stock after placing lines does not depend on the lines placed before in the list. */
  lemma {:induction false} SameStock(db: Db, items: seq<Item>, lines: seq<Line>)
    requires PlaceLines(db, items, lines).Ok? && PlaceLines(db, [], lines).Ok?
    ensures PlaceLines(db, items, lines).value.db == PlaceLines(db, [], lines).value.db
  {
    StockOf(db, items, [], lines);
  }

  lemma {:induction false} StockOf(db: Db, a: seq<Item>, b: seq<Item>, lines: seq<Line>)
    requires PlaceLines(db, a, lines).Ok? && PlaceLines(db, b, lines).Ok?
    ensures PlaceLines(db, a, lines).value.db == PlaceLines(db, b, lines).value.db
    decreases |lines|
  {
    hide TakeLine;
    hide ItemOf;
    if lines != [] {
      var item := ItemOf(db, lines[0]);
      StockOf(TakeLine(db, lines[0]).value, a + [item], b + [item], lines[1..]);
    }
  }

  // ----- order does not matter -----

  lemma {:induction false} FitsPermuted(db: Db, a: seq<Line>, b: seq<Line>)
    requires multiset(a) == multiset(b)
    ensures Fits(db, a) <==> Fits(db, b)
  {
    forall line ensures line in a <==> line in b {
      assert line in multiset(a) <==> line in multiset(b);
    }
    forall p ensures SumBy(a, OfProduct(p)) == SumBy(b, OfProduct(p)) {
      SumByPermuted(a, b, OfProduct(p));
    }
    forall v ensures SumBy(a, OfVariant(v)) == SumBy(b, OfVariant(v)) {
      SumByPermuted(a, b, OfVariant(v));
    }
  }

  // ----- the call -----

  /** The item names no other store than its product's, which exists. */
  predicate RightStore(db: Db, item: CartItem) {
    && item.productId in db.products
    && (!item.storeId.Id? || item.storeId.value == db.products[item.productId].storeId)
    && db.products[item.productId].storeId in db.stores
  }

  lemma {:induction false} GroupLinesExactly(db: Db, groups: seq<Group>, cart: seq<CartItem>)
    ensures GroupLines(db, groups, cart).Ok? <==> forall item :: item in cart ==> StoreOf(db, item).Ok?
    decreases |cart|
  {
    if cart != [] {
      assert forall item :: item in cart <==> item == cart[0] || item in cart[1..];
      if StoreOf(db, cart[0]).Ok? {
        GroupLinesExactly(db, AddLine(groups, StoreOf(db, cart[0]).value, LineOf(cart[0])), cart[1..]);
      }
    }
  }

  lemma GroupStoresExist(db: Db, cart: seq<CartItem>)
    requires GroupLines(db, [], cart).Ok?
    ensures StoresExist(db, GroupLines(db, [], cart).value) <==>
              forall item :: item in cart ==> ProductStore(db, item) in db.stores
  {
    var groups := GroupLines(db, [], cart).value;
    GroupsPartitionCart(db, cart);
    forall item | item in cart && StoresExist(db, groups) ensures ProductStore(db, item) in db.stores {
      StoreHasLine(db, cart, item);
      assert HasStore(groups, ProductStore(db, item));
    }
    forall g | g in groups && forall item :: item in cart ==> ProductStore(db, item) in db.stores
      ensures g.storeId in db.stores
    {
      var item := LineOfStore(db, cart, g.storeId);
    }
  }

  /** Every item's store is right and the demand of the whole cart fits. */
  ghost predicate CanFill(db: Db, cart: seq<CartItem>) {
    (forall item :: item in cart ==> RightStore(db, item)) && Fits(db, CartLines(cart))
  }

  lemma CartOrderable(db: Db, cart: seq<CartItem>)
    requires AllOrderable(db, CartLines(cart))
    ensures forall item :: item in cart ==> item.productId in db.products && db.products[item.productId].available
  {
    forall item | item in cart ensures Orderable(db, LineOf(item)) {
      var i :| 0 <= i < |cart| && cart[i] == item;
      assert CartLines(cart)[i] in CartLines(cart);
    }
  }

  /** Grouping and placing a cart succeeds exactly when the cart can be filled. */
  lemma FilledExactly(db: Db, reference: string, multi: bool, token: Token, cart: seq<CartItem>)
    ensures (&& GroupLines(db, [], cart).Ok?
             && PlaceGroups(db, reference, multi, token, GroupLines(db, [], cart).value).Ok?)
            <==> CanFill(db, cart)
  {
    GroupLinesExactly(db, [], cart);
    if GroupLines(db, [], cart).Ok? {
      var groups := GroupLines(db, [], cart).value;
      GroupStoresExist(db, cart);
      PlaceGroupsExactly(db, [], reference, multi, token, groups);
      PlaceLinesExactly(db, [], AllLines(groups));
      GroupsPermuteCart(db, [], cart);
      FitsPermuted(db, AllLines(groups), CartLines(cart));
      hide Fits;
      hide GroupLines;
      hide PlaceGroups;
      hide PlaceLines;
      hide StoresExist;
    } else if CanFill(db, cart) {
      CartOrderable(db, cart);
    }
  }

  /** A transaction commits exactly when every check passes and the cart can be filled. */
  lemma CommitsIfChecked(db: Db, req: Request)
    ensures Commit(db, req).Ok? <==>
              && BasicCheck(req).Ok?
              && ExpectedKobo(db, req.cart, BasicCheck(req).value).Ok?
              && PaymentGate(req.payment, req.reference,
                             ExpectedKobo(db, req.cart, BasicCheck(req).value).value, req.email).Ok?
              && CanFill(db, req.cart)
  {
    if BasicCheck(req).Ok? {
      FilledExactly(db, req.reference, MultiSeller(req.cart), BasicCheck(req).value, req.cart);
    }
    hide BasicCheck;
    hide ExpectedKobo;
    hide PaymentGate;
    hide CanFill;
    hide GroupLines;
    hide PlaceGroups;
    hide MultiSeller;
  }

  // ----- what a call needs, field by field -----

  /** The goods at catalogue prices with the token's delivery and tax, less its discount. */
  function Owed(db: Db, cart: seq<CartItem>, token: Token): int {
    SumBy(cart, PricedCost(db)) + token.amount + token.tax
    - match token.discount
      case Scalar(amount) => amount
      case PerStore(entries) => EntriesTotal(entries)
  }

  /** A decoded guest token, for the selected address if one is, and not expired if that is looked at. */
  predicate TokenGood(token: Token, req: Request) {
    && token.isGuest != Some(false)
    && (req.addressId == "" || token.addressId == req.addressId)
    && (req.checkExpiry && token.exp != 0 ==> req.now <= token.exp)
  }

  /** A successful payment of the guest's, under this reference or none, of exactly what is owed, or nothing. */
  predicate PaymentGood(payment: PaymentData, req: Request, owed: int) {
    && payment.success
    && (payment.reference == "" || payment.reference == req.reference)
    && payment.email.Some? && Lower(payment.email.value) == Lower(req.email)
    && payment.amountKobo == (if owed > 0 then owed else 0)
  }

  /** Everything a call needs for its orders to be created. */
  ghost predicate MayOrder(db: Db, req: Request) {
    && req.cart != [] && req.email != "" && req.formComplete && req.reference != ""
    && req.token.Some? && TokenGood(req.token.value, req)
    && (forall item :: item in req.cart ==> Priced(db, item))
    && req.payment.Some? && PaymentGood(req.payment.value, req, Owed(db, req.cart, req.token.value))
    && CanFill(db, req.cart)
  }

  lemma ExpectedIsOwed(db: Db, cart: seq<CartItem>, token: Token)
    ensures ExpectedKobo(db, cart, token).Ok? <==> cart != [] && forall item :: item in cart ==> Priced(db, item)
    ensures ExpectedKobo(db, cart, token).Ok? ==>
              var owed := Owed(db, cart, token);
              ExpectedKobo(db, cart, token).value == if owed > 0 then owed else 0
  {
    CartPrice(db, cart);
    if token.discount.PerStore? { DiscountIsTotal(token.discount.entries); }
    hide CartSubtotal;
    hide Priced;
    hide SumBy;
    hide EntriesTotal;
  }

  /**
   A transaction commits, whatever orders exist, exactly when the form is complete, the token good,
   every item priced, what is owed paid, and the cart can be filled.
   */
  lemma CommitsExactly(db: Db, req: Request)
    ensures Commit(db, req).Ok? <==> MayOrder(db, req)
  {
    CommitsIfChecked(db, req);
    if req.token.Some? { ExpectedIsOwed(db, req.cart, req.token.value); }
    hide Commit;
    hide ExpectedKobo;
    hide Owed;
    hide Priced;
    hide CanFill;
  }

  /** So does a call for a reference without orders. */
  lemma CreatesExactly(db: Db, req: Request)
    requires OrdersOf(db.orders, req.reference) == []
    ensures Create(db, req).result.Ok? <==> MayOrder(db, req)
  {
    CommitsExactly(db, req);
    hide Commit;
    hide MayOrder;
    hide OrdersOf;
  }
}
