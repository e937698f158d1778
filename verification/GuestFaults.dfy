/**
 Carts that are priced and filled but not ordered as intended: for each fault, exactly which carts
 have it on some successful call, and one such call.
 */
module GuestFaults {
  import opened Outcomes
  import opened Sequences
  import opened Payments
  import opened GuestOrders
  import opened GuestGrouping
  import opened GuestMoney
  import opened GuestDemand
  import opened GuestReconciliation
  import opened GuestRuns

  // ----- every cart that is priced and can be filled can be ordered -----

  /** A guest token that adds `amount` for delivery and nothing else. */
  function DeliveryOnly(amount: int): Token {
    Token(amount, 0, Scalar(0), None, 0, Some(true), "", 0)
  }

  /** An order for the cart with that token, against a payment of `amountKobo`. */
  function DeliveredRequest(cart: seq<CartItem>, reference: string, amount: int, amountKobo: int): Request {
    Request("guest", true, "", cart, reference, Some(DeliveryOnly(amount)), false, 0,
            Some(PaymentData(true, reference, Some("guest"), amountKobo)))
  }

  /** The same without a charge for delivery. */
  function PaidRequest(cart: seq<CartItem>, reference: string, amountKobo: int): Request {
    DeliveredRequest(cart, reference, 0, amountKobo)
  }

  function DueWith(db: Db, cart: seq<CartItem>, amount: int): int
    requires CartSubtotal(db, cart).Ok?
  {
    var total := CartSubtotal(db, cart).value + amount;
    if total < 0 then 0 else total
  }

  function Due(db: Db, cart: seq<CartItem>): int
    requires CartSubtotal(db, cart).Ok?
  {
    DueWith(db, cart, 0)
  }

  /** A transaction for a priced cart that can be filled commits when paid exactly. */
  lemma DeliveredCommits(db: Db, cart: seq<CartItem>, reference: string, amount: int)
    requires reference != "" && CartSubtotal(db, cart).Ok? && CanFill(db, cart)
    ensures Commit(db, DeliveredRequest(cart, reference, amount, DueWith(db, cart, amount))).Ok?
  {
    var req := DeliveredRequest(cart, reference, amount, DueWith(db, cart, amount));
    assert BasicCheck(req) == Ok(DeliveryOnly(amount));
    hide BasicCheck;
    assert ExpectedKobo(db, cart, DeliveryOnly(amount)) == Ok(DueWith(db, cart, amount)) by {
      hide CartSubtotal;
    }
    hide ExpectedKobo;
    hide CartSubtotal;
    hide CanFill;
    CommitsIfChecked(db, req);
    hide Commit;
  }

  lemma DeliveredSucceeds(db: Db, cart: seq<CartItem>, reference: string, amount: int)
    requires reference != "" && OrdersOf(db.orders, reference) == []
    requires CartSubtotal(db, cart).Ok? && CanFill(db, cart)
    ensures Create(db, DeliveredRequest(cart, reference, amount, DueWith(db, cart, amount))).result.Ok?
  {
    DeliveredCommits(db, cart, reference, amount);
    hide Commit;
    hide CartSubtotal;
    hide CanFill;
    hide OrdersOf;
  }

  lemma PaidRequestSucceeds(db: Db, cart: seq<CartItem>, reference: string)
    requires reference != "" && OrdersOf(db.orders, reference) == []
    requires CartSubtotal(db, cart).Ok? && CanFill(db, cart)
    ensures Create(db, PaidRequest(cart, reference, Due(db, cart))).result.Ok?
  {
    DeliveredSucceeds(db, cart, reference, 0);
  }

  // ----- variants named by `variantId` alone -----

  lemma RepricedFills(db: Db, cart: seq<CartItem>)
    requires CanFill(db, cart)
    ensures CanFill(Repriced(db), cart)
  {
    var lines := CartLines(cart);
    hide SumBy;
    forall line | line in lines ensures Orderable(Repriced(db), line) {
      assert Orderable(db, line);
    }
    assert ProductsSuffice(Repriced(db), lines) && VariantsSuffice(Repriced(db), lines);
    forall item | item in cart ensures RightStore(Repriced(db), item) {
      assert RightStore(db, item);
    }
  }

  /** On every successful first call for the cart the order totals add up to what the cart was priced at. */
  ghost predicate AlwaysTotalsPrice(cart: seq<CartItem>) {
    forall d: Db, req: Request ::
      req.cart == cart && OrdersOf(d.orders, req.reference) == [] && Create(d, req).result.Ok? ==>
      TotalsPrice(d, req)
  }

  ghost predicate TotalsPrice(db: Db, req: Request) {
    && Create(db, req).result.Ok? && CartSubtotal(db, req.cart).Ok?
    && SumBy(Create(db, req).result.value, OrderTotal()) == CartSubtotal(db, req.cart).value
  }

  /**
   For a cart that can be ordered at all, the orders add up to its price on every successful call
   exactly when no item names its variant by `variantId` alone.
   */
  lemma TotalsPriceExactly(db: Db, cart: seq<CartItem>)
    requires db.orders == [] && CartSubtotal(db, cart).Ok? && CanFill(db, cart)
    ensures AlwaysTotalsPrice(cart) <==> forall item :: item in cart ==> !CamelOnly(item)
  {
    if forall item :: item in cart ==> !CamelOnly(item) {
      forall d: Db, req: Request |
        req.cart == cart && OrdersOf(d.orders, req.reference) == [] && Create(d, req).result.Ok?
        ensures TotalsPrice(d, req)
      {
        TotalsMatchSubtotal(d, req);
      }
    } else {
      MispricedCall(db, cart);
    }
  }

  /** With an item that does, a catalogue and a successful call whose orders miss the price. */
  lemma MispricedCall(db: Db, cart: seq<CartItem>)
    requires db.orders == [] && CartSubtotal(db, cart).Ok? && CanFill(db, cart)
    requires exists item :: item in cart && CamelOnly(item)
    ensures exists d: Db, req: Request ::
              && req.cart == cart && OrdersOf(d.orders, req.reference) == []
              && Create(d, req).result.Ok? && !TotalsPrice(d, req)
  {
    var d := Repriced(db);
    RepricedStillPrices(db, 0, 0, cart);
    PricedItems(db, 0, cart);
    RepricedGap(db, cart);
    RepricedFills(db, cart);
    assert CartSubtotal(d, cart).Ok? && OrdersOf(d.orders, "r") == [];
    hide Repriced;
    hide CartSubtotal;
    hide CanFill;
    hide OrdersOf;
    PaidRequestSucceeds(d, cart, "r");
    var req := PaidRequest(cart, "r", Due(d, cart));
    TotalsMatchSubtotal(d, req);
    hide Create;
    hide SumBy;
    assert !TotalsPrice(d, req);
  }

  /** One shop, one item: the cart is priced at the variant's 9 kobo and ordered at the product's 5. */
  lemma OrderedBelowPrice()
    ensures exists db: Db, req: Request ::
              && Create(db, req).result.Ok? && req.payment.Some? && req.payment.value.amountKobo == 9
              && SumBy(Create(db, req).result.value, OrderTotal()) == 5
  {
    var db := Db(map[1 := Product(5, 1, 10, true, 0)], map[7 := Variant(1, 9, 1)], {10}, []);
    var item := CartItem(1, None, Some(7), Id(10), 1);
    var cart := [item];
    assert cart[1..] == [];
    assert PriceLines(db, 9, cart[1..]) == Ok(9);
    assert CartSubtotal(db, cart) == Ok(9);
    OneItemFills(db, item);
    PaidRequestSucceeds(db, cart, "r");
    var req := PaidRequest(cart, "r", 9);
    assert req == PaidRequest(cart, "r", Due(db, cart));
    TotalsMatchSubtotal(db, req);
    SumOfItem(item, Gap(db));
    assert PricedCost(db)(item) == 9 * 1 && LineCost(db)(LineOf(item)) == 5 * 1;
    hide Create;
  }

  lemma SumOfItem(item: CartItem, f: CartItem -> int)
    ensures SumBy([item], f) == f(item)
  {
    assert [item][..0] == [];
  }

  lemma OneItemFills(db: Db, item: CartItem)
    requires RightStore(db, item) && Orderable(db, LineOf(item))
    requires item.quantity <= db.products[item.productId].unit
    requires LineOf(item).variantId != 0 ==> item.quantity <= db.variants[LineOf(item).variantId].units
    ensures CanFill(db, [item])
  {
    var line := LineOf(item);
    assert CartLines([item]) == [line];
    TakeLineExactly(db, line);
    assert [line][1..] == [];
    var next := TakeLine(db, line).value;
    assert PlaceLines(next, [ItemOf(db, line)], [line][1..]).Ok?;
    assert [] + [ItemOf(db, line)] == [ItemOf(db, line)];
    assert PlaceLines(db, [], [line]).Ok?;
    PlaceLinesExactly(db, [], [line]);
    hide Fits;
  }

  // ----- the multi-seller flag -----

  ghost predicate AllFlagged(orders: seq<Order>) {
    forall o :: o in orders ==> (o.multiSeller <==> |orders| > 1)
  }

  /** A cart that can be ordered gets wrongly flagged orders exactly when its store ids as sent count wrong. */
  lemma MisflaggedExactly(db: Db, cart: seq<CartItem>)
    requires db.orders == [] && CartSubtotal(db, cart).Ok? && CanFill(db, cart)
    ensures (exists req: Request ::
               req.cart == cart && Create(db, req).result.Ok? && !AllFlagged(Create(db, req).result.value))
            <==> !FlagIsRight(db, cart)
  {
    forall req: Request | req.cart == cart && Create(db, req).result.Ok?
      ensures AllFlagged(Create(db, req).result.value) <==> FlagIsRight(db, cart)
    {
      assert OrdersOf(db.orders, req.reference) == [];
      FlaggedExactly(db, req);
    }
    PaidRequestSucceeds(db, cart, "r");
    hide Create;
    hide CartSubtotal;
    hide CanFill;
    hide FlagIsRight;
    hide AllFlagged;
    assert PaidRequest(cart, "r", Due(db, cart)).cart == cart;
  }

  /** What a call for the cart creates, in number and flag. */
  lemma FlaggedAs(db: Db, cart: seq<CartItem>) returns (req: Request)
    requires db.orders == [] && CartSubtotal(db, cart).Ok? && CanFill(db, cart)
    ensures req.cart == cart && Create(db, req).result.Ok?
    ensures |Create(db, req).result.value| == |CartStores(db, cart)|
    ensures forall o :: o in Create(db, req).result.value ==> (o.multiSeller <==> MultiSeller(cart))
  {
    PaidRequestSucceeds(db, cart, "r");
    req := PaidRequest(cart, "r", Due(db, cart));
    assert OrdersOf(db.orders, "r") == [];
    hide CanFill;
    hide CartSubtotal;
    hide OrdersOf;
    FlaggedExactly(db, req);
    var token, groups, created, subtotal := CommitMakes(db, req);
    hide Create;
    hide MultiSeller;
    forall o | o in created ensures o.multiSeller <==> MultiSeller(cart) {
      var i :| 0 <= i < |created| && created[i] == o;
      assert OrderFor(db, o, groups[i], req.reference, MultiSeller(req.cart), token);
    }
  }

  /** A shop with two free products, of stores `p` and `q`, in a cart that leaves their stores to `x` and `y`. */
  lemma TwoItems(p: int, q: int, x: StoreRef, y: StoreRef) returns (db: Db, cart: seq<CartItem>)
    requires !x.Id? && !y.Id?
    ensures db.orders == [] && CartSubtotal(db, cart) == Ok(10) && CanFill(db, cart)
    ensures cart == [CartItem(1, None, None, x, 1), CartItem(2, None, None, y, 1)]
    ensures CartStores(db, cart) == {p, q}
  {
    db := Db(map[1 := Product(5, 1, p, true, 0), 2 := Product(5, 1, q, true, 0)], map[], {p, q}, []);
    var a, b := CartItem(1, None, None, x, 1), CartItem(2, None, None, y, 1);
    cart := [a, b];
    assert cart[1..] == [b] && [b][1..] == [];
    assert PriceLines(db, 5, cart[1..]) == PriceLines(db, 10, []);
    TwoItemsFill(db, a, b);
    assert cart[0] in cart && cart[1] in cart;
    assert ProductStore(db, a) == p && ProductStore(db, b) == q;
    hide CanFill;
    hide PriceLines;
  }

  /** Two items of two stores, neither naming its store: two orders, neither flagged. */
  lemma TwoOrdersUnflagged()
    ensures exists db: Db, req: Request ::
              && Create(db, req).result.Ok? && |Create(db, req).result.value| == 2
              && forall o :: o in Create(db, req).result.value ==> !o.multiSeller
  {
    var db, cart := TwoItems(10, 20, Absent, Absent);
    assert AlikeUnnamed(cart) && cart[0] in cart && !AllNamed(cart);
    hide Create;
    var req := FlaggedAs(db, cart);
    UnnamedStoresCounted(cart);
    hide CanFill;
  }

  /** Two items of one store, one without the field and one with `null` in it: one order, flagged. */
  lemma OneOrderFlagged()
    ensures exists db: Db, req: Request ::
              && Create(db, req).result.Ok? && |Create(db, req).result.value| == 1
              && forall o :: o in Create(db, req).result.value ==> o.multiSeller
  {
    var db, cart := TwoItems(10, 10, Absent, Null);
    assert cart[0] in cart && cart[1] in cart;
    assert CartStores(db, cart) == {10};
    hide Create;
    var req := FlaggedAs(db, cart);
    UnnamedStoresCounted(cart);
    hide CanFill;
  }

  lemma TwoItemsFill(db: Db, a: CartItem, b: CartItem)
    requires RightStore(db, a) && Orderable(db, LineOf(a)) && LineOf(a).variantId == 0
    requires RightStore(db, b) && Orderable(db, LineOf(b)) && LineOf(b).variantId == 0
    requires a.productId != b.productId
    requires a.quantity <= db.products[a.productId].unit && b.quantity <= db.products[b.productId].unit
    ensures CanFill(db, [a, b])
  {
    var x, y := LineOf(a), LineOf(b);
    assert CartLines([a, b]) == [x, y];
    TakeLineExactly(db, x);
    var db1 := TakeLine(db, x).value;
    TakeLineExactly(db1, y);
    assert [x, y][1..] == [y] && [y][1..] == [];
    var db2, items := TakeLine(db1, y).value, [ItemOf(db, x)];
    assert [] + [ItemOf(db, x)] == items;
    assert PlaceLines(db2, items + [ItemOf(db1, y)], []).Ok?;
    assert PlaceLines(db1, items, [y]) == PlaceLines(db2, items + [ItemOf(db1, y)], [y][1..]);
    assert PlaceLines(db, [], [x, y]) == PlaceLines(db1, items, [x, y][1..]);
    PlaceLinesExactly(db, [], [x, y]);
    hide Fits;
  }

  // ----- charges on every order -----

  /** A successful first call with plain charges and a balance that is not negative. */
  ghost predicate PlainCall(db: Db, req: Request) {
    && OrdersOf(db.orders, req.reference) == [] && Create(db, req).result.Ok?
    && req.token.Some? && PlainToken(req.token.value) && req.payment.Some?
    && CartSubtotal(db, req.cart).Ok? && Balance(CartSubtotal(db, req.cart).value, req.token.value) >= 0
  }

  /**
   For a cart that can be ordered at its price, some such call collects something else than was paid
   exactly when the cart has products of several stores.
   */
  lemma MiscollectedExactly(db: Db, cart: seq<CartItem>)
    requires db.orders == [] && CartSubtotal(db, cart).Ok? && CanFill(db, cart)
    requires forall item :: item in cart ==> !CamelOnly(item)
    ensures (exists req: Request ::
               && req.cart == cart && PlainCall(db, req)
               && Collected(Create(db, req).result.value) != req.payment.value.amountKobo as real)
            <==> |CartStores(db, cart)| > 1
  {
    forall req: Request | req.cart == cart && PlainCall(db, req)
      ensures |CartStores(db, cart)| >= 1
      ensures Collected(Create(db, req).result.value) == req.payment.value.amountKobo as real
              <==> |CartStores(db, cart)| == 1 || Extra(req.token.value) == 0
    {
      PlainLedger(db, req);
      FlaggedExactly(db, req);
    }
    var subtotal := CartSubtotal(db, cart).value;
    var amount := if subtotal < 0 then 1 - subtotal else 1;
    var req := DeliveredRequest(cart, "r", amount, DueWith(db, cart, amount));
    DeliveredSucceeds(db, cart, "r", amount);
    assert OrdersOf(db.orders, "r") == [];
    hide CartSubtotal;
    hide CanFill;
    hide Create;
    hide OrdersOf;
    hide Collected;
    assert PlainCall(db, req) && Extra(req.token.value) == amount;
  }

  /** Two items of two stores with 3 kobo of delivery: 13 kobo are paid and 16 collected. */
  lemma CollectedTwice()
    ensures exists db: Db, req: Request ::
              && Create(db, req).result.Ok? && req.payment.Some? && req.payment.value.amountKobo == 13
              && Collected(Create(db, req).result.value) == 16.0
  {
    var db, cart := TwoItems(10, 20, Absent, Absent);
    DeliveredTwice(db, cart, 3, 13);
  }

  /** On a cart of two stores the amount for delivery is collected twice. */
  lemma DeliveredTwice(db: Db, cart: seq<CartItem>, amount: nat, paid: nat)
    requires db.orders == [] && CartSubtotal(db, cart).Ok? && CanFill(db, cart)
    requires CartSubtotal(db, cart).value >= 0 && paid == CartSubtotal(db, cart).value + amount
    requires |CartStores(db, cart)| == 2 && forall item :: item in cart ==> !CamelOnly(item)
    ensures var req := DeliveredRequest(cart, "r", amount, paid);
            && Create(db, req).result.Ok?
            && Collected(Create(db, req).result.value) == (paid + amount) as real
  {
    DeliveredSucceeds(db, cart, "r", amount);
    assert OrdersOf(db.orders, "r") == [];
    hide CanFill;
    hide CartSubtotal;
    hide Create;
    hide OrdersOf;
    hide CartStores;
    hide CamelOnly;
    hide Collected;
    assert Extra(DeliveryOnly(amount)) == amount;
    PlainLedger(db, DeliveredRequest(cart, "r", amount, paid));
  }

  // ----- asking again for a completed checkout -----

  /** A paid checkout under `own` whose stored request names the payment reference `other`. */
  function StoredRow(cart: seq<CartItem>, own: string, other: string): Checkout {
    Checkout(own, true, Initialized, Some(Payload("guest", true, "", cart, other, None, None, 0, 0)), [])
  }

  /** For any cart that can be ordered such a row is reconciled, and asking again finds none of its orders. */
  lemma ForeignRowForgotten(db: Db, cart: seq<CartItem>, own: string, other: string)
    requires db.orders == [] && CartSubtotal(db, cart).Ok? && CanFill(db, cart)
    requires other != "" && own != other
    ensures var shop := Shop(db, [StoredRow(cart, own, other)]);
            var provider: Provider := map[other := PaymentData(true, other, Some("guest"), Due(db, cart))];
            var once := Reconcile(shop, 0, provider);
            && once.reply.Reconciled? && once.reply.orders != []
            && Reconcile(once.shop, 0, provider) == Reconciliation(once.shop, AlreadyReconciled([]))
  {
    var row := StoredRow(cart, own, other);
    var shop := Shop(db, [row]);
    var payment := PaymentData(true, other, Some("guest"), Due(db, cart));
    var provider: Provider := map[other := payment];
    var req := PaidRequest(cart, other, Due(db, cart));
    assert ReplayCall(shop, 0, provider) == Some(req);
    PaidRequestSucceeds(db, cart, other);
    assert OrdersOf(db.orders, other) == [] && OrdersOf(db.orders, own) == [];
    FirstCall(db, req);
    hide Create;
    hide CartSubtotal;
    hide CanFill;
    hide OrdersOf;
  }
}
