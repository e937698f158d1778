/** The money of a committed call: what was priced, what the orders add up to, and what was paid. */
module GuestMoney {
  import opened Outcomes
  import opened Sequences
  import opened Text
  import opened GuestOrders
  import opened GuestStock
  import opened GuestGrouping

  // ----- the price of a cart -----

  /** What a cart item is priced at. */
  function PricedCost(db: Db): CartItem -> int {
    (item: CartItem) => PriceAt(db, Line(item.productId, PricedVariant(item), item.quantity)) * item.quantity
  }

  /** What a line is ordered at. */
  function LineCost(db: Db): Line -> int {
    (line: Line) => PriceAt(db, line) * line.quantity
  }

  lemma {:induction false} PriceLinesSum(db: Db, subtotal: int, cart: seq<CartItem>)
    requires PriceLines(db, subtotal, cart).Ok?
    ensures PriceLines(db, subtotal, cart).value == subtotal + SumBy(cart, PricedCost(db))
    decreases |cart|
  {
    if cart != [] {
      var price := UnitPrice(db, cart[0]).value;
      assert price * cart[0].quantity == PricedCost(db)(cart[0]);
      PriceLinesSum(db, subtotal + price * cart[0].quantity, cart[1..]);
      assert cart == [cart[0]] + cart[1..];
      SumByCons(cart[0], cart[1..], PricedCost(db));
    }
  }

  /** The item asks for an available product, and a variant of it if any, in a whole quantity. */
  predicate Priced(db: Db, item: CartItem) {
    && item.quantity >= 1 && item.productId > 0
    && item.productId in db.products && db.products[item.productId].available
    && var v := PricedVariant(item);
       v != 0 ==> v in db.variants && db.variants[v].productId == item.productId
  }

  lemma {:induction false} PriceLinesExactly(db: Db, subtotal: int, cart: seq<CartItem>)
    ensures PriceLines(db, subtotal, cart).Ok? <==> forall item :: item in cart ==> Priced(db, item)
    decreases |cart|
  {
    if cart != [] {
      assert forall item :: item in cart <==> item == cart[0] || item in cart[1..];
      assert UnitPrice(db, cart[0]).Ok? <==> Priced(db, cart[0]);
      if UnitPrice(db, cart[0]).Ok? {
        PriceLinesExactly(db, subtotal + UnitPrice(db, cart[0]).value * cart[0].quantity, cart[1..]);
      }
      hide Priced;
    }
  }

  /** Exactly the carts with something in them and nothing but priced items have a price, the sum of their items'. */
  lemma CartPrice(db: Db, cart: seq<CartItem>)
    ensures CartSubtotal(db, cart).Ok? <==> cart != [] && forall item :: item in cart ==> Priced(db, item)
    ensures CartSubtotal(db, cart).Ok? ==> CartSubtotal(db, cart).value == SumBy(cart, PricedCost(db))
  {
    PriceLinesExactly(db, 0, cart);
    if CartSubtotal(db, cart).Ok? { PriceLinesSum(db, 0, cart); }
    hide Priced;
    hide PriceLines;
  }

  /** Prices do not depend on what is left on the shelves. */
  lemma {:induction false} CostStable(a: Db, b: Db, cart: seq<CartItem>)
    requires SameCatalog(a, b)
    ensures SumBy(cart, PricedCost(a)) == SumBy(cart, PricedCost(b))
    ensures forall item :: item in cart ==> (Priced(a, item) <==> Priced(b, item))
  {
    if cart != [] {
      var n := |cart| - 1;
      CostStable(a, b, cart[..n]);
      assert cart == cart[..n] + [cart[n]];
      var line := Line(cart[n].productId, PricedVariant(cart[n]), cart[n].quantity);
      PriceStable(a, b, line);
      assert line.variantId in a.variants <==> line.variantId in b.variants;
      assert line.productId in a.products <==> line.productId in b.products;
    }
  }

  /** How much more an item is ordered at than it was priced at. */
  function Gap(db: Db): CartItem -> int {
    (item: CartItem) => LineCost(db)(LineOf(item)) - PricedCost(db)(item)
  }

  lemma {:induction false} GapIsDifference(db: Db, cart: seq<CartItem>)
    ensures SumBy(cart, ItemCost(LineCost(db))) == SumBy(cart, PricedCost(db)) + SumBy(cart, Gap(db))
  {
    if cart != [] {
      GapIsDifference(db, cart[..|cart| - 1]);
    }
  }

  /** The item names its variant only through `variantId`, which orders ignore. */
  predicate CamelOnly(item: CartItem) {
    item.variantId.None? && Truthy(item.camelVariantId) != 0
  }

  lemma NoGapForItem(db: Db, item: CartItem)
    requires !CamelOnly(item)
    ensures Gap(db)(item) == 0
  {
    assert PricedVariant(item) == OrderedVariant(item);
    assert Line(item.productId, PricedVariant(item), item.quantity) == LineOf(item);
    var price := PriceAt(db, LineOf(item));
    assert LineCost(db)(LineOf(item)) == price * item.quantity == PricedCost(db)(item);
  }

  lemma {:induction false} NoGap(db: Db, cart: seq<CartItem>)
    requires forall item :: item in cart ==> !CamelOnly(item)
    ensures SumBy(cart, Gap(db)) == 0
  {
    if cart != [] {
      var n := |cart| - 1;
      NoGap(db, cart[..n]);
      assert cart[n] in cart;
      NoGapForItem(db, cart[n]);
    }
  }

  lemma {:induction false} PricedItems(db: Db, subtotal: int, cart: seq<CartItem>)
    requires PriceLines(db, subtotal, cart).Ok?
    ensures forall item :: item in cart ==> UnitPrice(db, item).Ok?
    decreases |cart|
  {
    if cart != [] {
      PricedItems(db, subtotal + UnitPrice(db, cart[0]).value * cart[0].quantity, cart[1..]);
      assert forall item :: item in cart ==> item == cart[0] || item in cart[1..];
    }
  }

  /** The same catalogue with every product free and every variant at one kobo. */
  function Repriced(db: Db): Db {
    db.(products := map p | p in db.products :: db.products[p].(rate := 0),
        variants := map v | v in db.variants :: db.variants[v].(price := 1))
  }

  lemma {:induction false} RepricedStillPrices(db: Db, a: int, b: int, cart: seq<CartItem>)
    ensures PriceLines(Repriced(db), a, cart).Ok? <==> PriceLines(db, b, cart).Ok?
    decreases |cart|
  {
    if cart != [] {
      var db' := Repriced(db);
      assert UnitPrice(db', cart[0]).Ok? <==> UnitPrice(db, cart[0]).Ok?;
      if UnitPrice(db, cart[0]).Ok? {
        RepricedStillPrices(db, a + UnitPrice(db', cart[0]).value * cart[0].quantity,
                            b + UnitPrice(db, cart[0]).value * cart[0].quantity, cart[1..]);
      }
    }
  }

  /** There, an item that names its variant by `variantId` alone costs more in the cart than on the order. */
  lemma RepricedItemGap(db: Db, item: CartItem)
    requires UnitPrice(db, item).Ok?
    ensures Gap(Repriced(db))(item) == if CamelOnly(item) then -item.quantity else 0
  {
    if CamelOnly(item) {
      assert PricedCost(Repriced(db))(item) == 1 * item.quantity;
      assert LineCost(Repriced(db))(LineOf(item)) == 0 * item.quantity;
    } else {
      NoGapForItem(Repriced(db), item);
    }
  }

  lemma {:induction false} RepricedGap(db: Db, cart: seq<CartItem>)
    requires forall item :: item in cart ==> UnitPrice(db, item).Ok?
    ensures SumBy(cart, Gap(Repriced(db))) <= 0
    ensures (exists item :: item in cart && CamelOnly(item)) ==> SumBy(cart, Gap(Repriced(db))) < 0
  {
    hide Repriced;
    hide Gap;
    if cart != [] {
      var n := |cart| - 1;
      var last := cart[n];
      assert last in cart && cart == cart[..n] + [last];
      RepricedGap(db, cart[..n]);
      RepricedItemGap(db, last);
      assert last.quantity >= 1;
      hide UnitPrice;
      hide CamelOnly;
    }
  }

  /**
   A cart some catalogue prices is ordered at its price, under every catalogue that prices it,
   exactly when no item names its variant by `variantId` alone.
   */
  lemma GapFreeExactly(db: Db, cart: seq<CartItem>)
    requires CartSubtotal(db, cart).Ok?
    ensures (forall d :: CartSubtotal(d, cart).Ok? ==> SumBy(cart, Gap(d)) == 0)
            <==> forall item :: item in cart ==> !CamelOnly(item)
  {
    if forall item :: item in cart ==> !CamelOnly(item) {
      forall d ensures SumBy(cart, Gap(d)) == 0 {
        NoGap(d, cart);
      }
    } else {
      RepricedStillPrices(db, 0, 0, cart);
      PricedItems(db, 0, cart);
      RepricedGap(db, cart);
      assert CartSubtotal(Repriced(db), cart).Ok?;
    }
  }

  // ----- the orders -----

  function OrderTotal(): Order -> int {
    (o: Order) => o.total
  }

  function OrderGrand(): Order -> int {
    (o: Order) => o.grandTotal
  }

  function OrderDelivery(): Order -> real {
    (o: Order) => o.deliveryCharge
  }

  function LineQuantity(): Line -> int {
    (line: Line) => line.quantity
  }

  lemma {:induction false} ItemsCost(db: Db, items: seq<Item>, lines: seq<Line>)
    requires Matches(db, items, lines)
    ensures SumBy(items, ItemTotal()) == SumBy(lines, LineCost(db))
    ensures SumBy(items, ItemQuantity()) == SumBy(lines, LineQuantity())
  {
    if lines != [] {
      var n := |lines| - 1;
      ItemsCost(db, items[..n], lines[..n]);
    }
  }

  lemma {:induction false} LineCostStable(a: Db, b: Db, lines: seq<Line>)
    requires SameCatalog(a, b)
    ensures SumBy(lines, LineCost(a)) == SumBy(lines, LineCost(b))
  {
    if lines != [] {
      LineCostStable(a, b, lines[..|lines| - 1]);
      PriceStable(a, b, lines[|lines| - 1]);
    }
  }

  lemma {:induction false} GroupCostStable(a: Db, b: Db, groups: seq<Group>)
    requires SameCatalog(a, b)
    ensures SumBy(groups, GroupCost(LineCost(a))) == SumBy(groups, GroupCost(LineCost(b)))
  {
    if groups != [] {
      GroupCostStable(a, b, groups[..|groups| - 1]);
      LineCostStable(a, b, groups[|groups| - 1].lines);
    }
  }

  /** The order placed for a group. */
  ghost predicate OrderFor(db: Db, o: Order, g: Group, reference: string, multi: bool, token: Token) {
    && o.storeId == g.storeId && o.reference == reference && o.multiSeller == multi
    && o.total == SumBy(g.lines, LineCost(db))
    && o.totalItems == SumBy(g.lines, LineQuantity())
    && o.tax == token.tax
    && o.deliveryCharge == DeliveryShare(token, g.storeId)
    && o.discount == DiscountShare(token, g.storeId)
    && o.grandTotal == o.total - o.discount + o.tax
    && Matches(db, o.items, g.lines)
  }

  lemma OrderForStable(a: Db, b: Db, o: Order, g: Group, reference: string, multi: bool, token: Token)
    requires SameCatalog(a, b) && OrderFor(b, o, g, reference, multi, token)
    ensures OrderFor(a, o, g, reference, multi, token)
  {
    hide SumBy;
    LineCostStable(a, b, g.lines);
    forall k | 0 <= k < |g.lines| ensures o.items[k] == ItemOf(a, g.lines[k]) {
      PriceStable(a, b, g.lines[k]);
    }
  }

  /** One order per group, in the same order. */
  ghost predicate OrdersFor(
      db: Db, orders: seq<Order>, groups: seq<Group>, reference: string, multi: bool, token: Token) {
    |orders| == |groups|
    && forall i :: 0 <= i < |groups| ==> OrderFor(db, orders[i], groups[i], reference, multi, token)
  }

  lemma PlaceGroupMakes(db: Db, reference: string, multi: bool, token: Token, g: Group) returns (o: Order)
    requires PlaceGroup(db, reference, multi, token, g).Ok?
    ensures PlaceGroup(db, reference, multi, token, g).value.orders == db.orders + [o]
    ensures SameCatalog(db, PlaceGroup(db, reference, multi, token, g).value)
    ensures OrderFor(db, o, g, reference, multi, token) && o.id == LastId(db.orders) + 1
  {
    o := PlaceGroupEffect(db, reference, multi, token, g);
    hide SumBy;
    ItemsCost(db, o.items, g.lines);
  }

  lemma {:induction false} PlaceGroupsMake(db: Db, reference: string, multi: bool, token: Token, groups: seq<Group>)
      returns (created: seq<Order>)
    requires PlaceGroups(db, reference, multi, token, groups).Ok?
    ensures PlaceGroups(db, reference, multi, token, groups).value.orders == db.orders + created
    ensures OrdersFor(db, created, groups, reference, multi, token)
    ensures forall i :: 0 <= i < |created| ==> created[i].id == LastId(db.orders) + 1 + i
    decreases |groups|
  {
    if groups == [] {
      created := [];
    } else {
      var next := PlaceGroup(db, reference, multi, token, groups[0]).value;
      var o := PlaceGroupMakes(db, reference, multi, token, groups[0]);
      assert PlaceGroups(db, reference, multi, token, groups)
          == PlaceGroups(next, reference, multi, token, groups[1..]);
      hide PlaceGroup;
      hide SameCatalog;
      var rest := PlaceGroupsMake(next, reference, multi, token, groups[1..]);
      created := [o] + rest;
      assert db.orders + [o] + rest == db.orders + created;
      hide OrderFor;
      forall i | 0 <= i < |groups| ensures OrderFor(db, created[i], groups[i], reference, multi, token) {
        if i > 0 {
          assert groups[1..][i - 1] == groups[i] && rest[i - 1] == created[i];
          OrderForStable(db, next, created[i], groups[i], reference, multi, token);
        }
      }
    }
  }

  // ----- sums over the created orders -----

  function GroupDelivery(token: Token): Group -> real {
    (g: Group) => DeliveryShare(token, g.storeId)
  }

  function GroupDiscount(token: Token): Group -> int {
    (g: Group) => DiscountShare(token, g.storeId)
  }

  lemma {:induction false} OrdersSum(
      db: Db, orders: seq<Order>, groups: seq<Group>, reference: string, multi: bool, token: Token)
    requires OrdersFor(db, orders, groups, reference, multi, token)
    ensures SumBy(orders, OrderTotal()) == SumBy(groups, GroupCost(LineCost(db)))
    ensures SumBy(orders, OrderGrand())
         == SumBy(orders, OrderTotal()) - SumBy(groups, GroupDiscount(token)) + |groups| * token.tax
  {
    hide Matches;
    hide LineCost;
    hide DiscountShare;
    if groups == [] {
      assert orders == [];
    } else {
      var n := |groups| - 1;
      OrdersSum(db, orders[..n], groups[..n], reference, multi, token);
      assert |groups[..n]| * token.tax + token.tax == |groups| * token.tax;
      var o, g := orders[n], groups[n];
      assert OrderFor(db, o, g, reference, multi, token);
    }
  }

  lemma {:induction false} OrdersDelivery(
      db: Db, orders: seq<Order>, groups: seq<Group>, reference: string, multi: bool, token: Token)
    requires OrdersFor(db, orders, groups, reference, multi, token)
    ensures SumRealBy(orders, OrderDelivery()) == SumRealBy(groups, GroupDelivery(token))
  {
    hide Matches;
    hide LineCost;
    hide DeliveryShare;
    hide DiscountShare;
    if groups == [] {
      assert orders == [];
    } else {
      var n := |groups| - 1;
      OrdersDelivery(db, orders[..n], groups[..n], reference, multi, token);
      var o, g := orders[n], groups[n];
      assert OrderFor(db, o, g, reference, multi, token);
    }
  }

  /** Everything a call that creates orders has established about its money. */
  ghost predicate Committed(
      db: Db, req: Request, token: Token, groups: seq<Group>, created: seq<Order>, subtotal: int)
  {
    && BasicCheck(req) == Ok(token)
    && CartSubtotal(db, req.cart) == Ok(subtotal)
    && GroupLines(db, [], req.cart) == Ok(groups)
    && req.payment.Some?
    && req.payment.value.amountKobo == (if Balance(subtotal, token) < 0 then 0 else Balance(subtotal, token))
    && OrdersFor(db, created, groups, req.reference, MultiSeller(req.cart), token)
  }

  /** What a transaction that commits adds, whatever orders there are. */
  lemma CommittedMakes(db: Db, req: Request)
      returns (token: Token, groups: seq<Group>, created: seq<Order>, subtotal: int)
    requires Commit(db, req).Ok?
    ensures Committed(db, req, token, groups, created, subtotal)
    ensures Commit(db, req).value.orders == db.orders + created && created != []
    ensures forall i :: 0 <= i < |created| ==> created[i].id == LastId(db.orders) + 1 + i
  {
    token := BasicCheck(req).value;
    groups := GroupLines(db, [], req.cart).value;
    subtotal := CartSubtotal(db, req.cart).value;
    GroupsPartitionCart(db, req.cart);
    hide PlaceGroups;
    created := PlaceGroupsMake(db, req.reference, MultiSeller(req.cart), token, groups);
  }

  lemma CommitMakes(db: Db, req: Request)
      returns (token: Token, groups: seq<Group>, created: seq<Order>, subtotal: int)
    requires OrdersOf(db.orders, req.reference) == [] && Create(db, req).result.Ok?
    ensures Committed(db, req, token, groups, created, subtotal)
    ensures Create(db, req).db.orders == db.orders + created
    ensures Create(db, req).result == Ok(created) && created != []
    ensures forall i :: 0 <= i < |created| ==> created[i].id == LastId(db.orders) + 1 + i
  {
    token, groups, created, subtotal := CommittedMakes(db, req);
    hide Commit;
    hide Committed;
    assert (db.orders + created)[|db.orders|..] == created;
  }

  /**
   Regrouping and money: the totals of the created orders add up to the cart's subtotal plus the
   gap of items that name a variant only through `variantId`.
   */
  lemma TotalsMatchSubtotal(db: Db, req: Request)
    requires OrdersOf(db.orders, req.reference) == [] && Create(db, req).result.Ok?
    ensures CartSubtotal(db, req.cart).Ok?
    ensures SumBy(Create(db, req).result.value, OrderTotal())
         == CartSubtotal(db, req.cart).value + SumBy(req.cart, Gap(db))
    ensures (forall item :: item in req.cart ==> !CamelOnly(item)) ==>
              SumBy(Create(db, req).result.value, OrderTotal()) == CartSubtotal(db, req.cart).value
  {
    var token, groups, created, subtotal := CommitMakes(db, req);
    hide Create;
    hide SumBy;
    OrdersSum(db, created, groups, req.reference, MultiSeller(req.cart), token);
    GroupsKeepCost(db, [], req.cart, LineCost(db));
    NoGroups(GroupCost(LineCost(db)));
    PriceLinesSum(db, 0, req.cart);
    GapIsDifference(db, req.cart);
    if forall item :: item in req.cart ==> !CamelOnly(item) {
      NoGap(db, req.cart);
    }
  }

  lemma NoGroups(f: Group -> int)
    ensures SumBy([], f) == 0
  {
  }

  // ----- what a created order rests on -----

  /**
   Orders are created only against a successful payment of the guest's, under this reference or none,
   of exactly the goods at catalogue prices plus what the token adds, and only with a guest token for
   the selected address that has not expired.
   */
  lemma OrdersArePaidFor(db: Db, req: Request)
    requires OrdersOf(db.orders, req.reference) == [] && Create(db, req).result.Ok?
    ensures req.token.Some? && req.payment.Some? && req.reference != ""
    ensures var payment, token := req.payment.value, req.token.value;
            var due := SumBy(req.cart, PricedCost(db)) + token.amount + token.tax - DiscountTotal(token.discount);
            && payment.success && payment.reference in {"", req.reference}
            && payment.email.Some? && Lower(payment.email.value) == Lower(req.email)
            && payment.amountKobo == (if due < 0 then 0 else due)
            && token.isGuest != Some(false)
            && (req.addressId != "" ==> token.addressId == req.addressId)
            && (req.checkExpiry && token.exp != 0 ==> req.now <= token.exp)
  {
    CreatedPassedChecks(db, req);
    PriceLinesSum(db, 0, req.cart);
    hide Create;
    hide SumBy;
  }

  lemma CreatedPassedChecks(db: Db, req: Request)
    requires OrdersOf(db.orders, req.reference) == [] && Create(db, req).result.Ok?
    ensures BasicCheck(req).Ok? && ExpectedKobo(db, req.cart, BasicCheck(req).value).Ok?
    ensures PaymentGate(req.payment, req.reference,
                        ExpectedKobo(db, req.cart, BasicCheck(req).value).value, req.email).Ok?
  {
    hide BasicCheck;
    hide ExpectedKobo;
    hide PaymentGate;
    hide OrdersOf;
    hide GroupLines;
    hide PlaceGroups;
  }

  // ----- the multi-seller flag -----

  /** The orders of a call carry the right flag exactly for carts whose store ids as sent count right. */
  lemma FlaggedExactly(db: Db, req: Request)
    requires OrdersOf(db.orders, req.reference) == [] && Create(db, req).result.Ok?
    ensures var created := Create(db, req).result.value;
            && |created| == |CartStores(db, req.cart)| >= 1
            && ((forall o :: o in created ==> (o.multiSeller <==> |created| > 1)) <==> FlagIsRight(db, req.cart))
  {
    var token, groups, created, subtotal := CommitMakes(db, req);
    hide Create;
    hide CartSubtotal;
    OrderPerStore(db, req.cart);
    MultiSellerFlag(db, req.cart);
    forall o | o in created ensures o.multiSeller <==> MultiSeller(req.cart) {
      var i :| 0 <= i < |created| && created[i] == o;
      assert OrderFor(db, o, groups[i], req.reference, MultiSeller(req.cart), token);
    }
    assert created[0] in created;
  }

  // ----- the payment ledger -----

  function Negative(balance: int): int {
    if balance < 0 then balance else 0
  }

  /** What every call that created orders passed on its way. */
  lemma CommitPassed(db: Db, req: Request)
    requires OrdersOf(db.orders, req.reference) == [] && Create(db, req).result.Ok?
    ensures req.token.Some? && req.payment.Some? && CartSubtotal(db, req.cart).Ok? && GroupLines(db, [], req.cart).Ok?
  {
  }

  /**
   The ledger of one committed call, for any token: what the orders collect differs from what was
   paid by the shares of delivery, tax and discount the token does not cover, by the gap, and by a
   balance below zero that no payment can meet.
   */
  lemma LedgerOfCommit(db: Db, req: Request)
    requires OrdersOf(db.orders, req.reference) == [] && Create(db, req).result.Ok?
    ensures req.token.Some? && req.payment.Some? && CartSubtotal(db, req.cart).Ok? && GroupLines(db, [], req.cart).Ok?
    ensures var created, token := Create(db, req).result.value, req.token.value;
            var groups, balance := GroupLines(db, [], req.cart).value, Balance(CartSubtotal(db, req.cart).value, token);
            && |created| == |groups|
            && SumBy(created, OrderGrand())
               == req.payment.value.amountKobo + Negative(balance) + SumBy(req.cart, Gap(db))
                  + (|created| - 1) * token.tax - token.amount
                  + DiscountTotal(token.discount) - SumBy(groups, GroupDiscount(token))
            && SumRealBy(created, OrderDelivery()) == SumRealBy(groups, GroupDelivery(token))
  {
    hide *;
    CommitPassed(db, req);
    TotalsMatchSubtotal(db, req);
    var token, groups, created, subtotal := CommitMakes(db, req);
    CommittedLedger(db, req, token, groups, created, subtotal);
    CommittedBalance(db, req, token, groups, created, subtotal);
  }

  /** What the orders collect, from their totals. */
  lemma CommittedLedger(db: Db, req: Request, token: Token, groups: seq<Group>, created: seq<Order>, subtotal: int)
    requires Committed(db, req, token, groups, created, subtotal)
    ensures |created| == |groups|
    ensures SumBy(created, OrderGrand())
         == SumBy(created, OrderTotal()) - SumBy(groups, GroupDiscount(token)) + |created| * token.tax
    ensures SumRealBy(created, OrderDelivery()) == SumRealBy(groups, GroupDelivery(token))
  {
    hide SumBy;
    hide SumRealBy;
    OrdersSum(db, created, groups, req.reference, MultiSeller(req.cart), token);
    OrdersDelivery(db, created, groups, req.reference, MultiSeller(req.cart), token);
  }

  /** What was paid, from the price and the token. */
  lemma CommittedBalance(db: Db, req: Request, token: Token, groups: seq<Group>, created: seq<Order>, subtotal: int)
    requires Committed(db, req, token, groups, created, subtotal)
    ensures req.token == Some(token) && req.payment.Some?
    ensures CartSubtotal(db, req.cart) == Ok(subtotal) && GroupLines(db, [], req.cart) == Ok(groups)
    ensures req.payment.value.amountKobo + Negative(Balance(subtotal, token))
         == subtotal + token.amount + token.tax - DiscountTotal(token.discount)
    ensures (|created| - 1) * token.tax == |created| * token.tax - token.tax
  {
    hide CartSubtotal;
    hide GroupLines;
    hide OrdersFor;
  }

  lemma {:induction false} ScalarShares(token: Token, groups: seq<Group>)
    requires token.discount.Scalar? && token.deliveryCharges.None? && token.storeCount == 0
    ensures SumBy(groups, GroupDiscount(token)) == |groups| * token.discount.amount
    ensures SumRealBy(groups, GroupDelivery(token)) == (|groups| * token.amount) as real
  {
    if groups != [] {
      var n := |groups| - 1;
      ScalarShares(token, groups[..n]);
      assert n * token.discount.amount + token.discount.amount == |groups| * token.discount.amount;
      assert n * token.amount + token.amount == |groups| * token.amount;
    }
  }

  /** The token carries plain amounts: no per-store lists and no store count. */
  predicate PlainToken(token: Token) {
    token.discount.Scalar? && token.deliveryCharges.None? && token.storeCount == 0
  }

  /** What a token adds to the price of the goods. */
  function Extra(token: Token): int {
    token.amount + token.tax - DiscountTotal(token.discount)
  }

  /** What orders collect, delivery included. */
  function Collected(orders: seq<Order>): real {
    SumBy(orders, OrderGrand()) as real + SumRealBy(orders, OrderDelivery())
  }

  lemma PlainArithmetic(n: nat, a: int, t: int, d: int)
    ensures (n - 1) * t - a + d - n * d + n * a == (n - 1) * (a + t - d)
  {
    var m: int := n - 1;
    assert n * d == m * d + d && n * a == m * a + a;
    assert m * (a + t - d) == m * (a + t) - m * d;
    assert m * (a + t) == m * a + m * t;
  }

  lemma ProductIsZero(m: int, x: int)
    ensures m * x == 0 <==> m == 0 || x == 0
  {
  }

  /**
   With a plain token, no gap and a balance that is not negative, the orders together collect the
   payment plus what the token adds once more for every store of the cart but one; so the payment
   exactly for carts of one store and tokens that add nothing.
   */
  lemma PlainLedger(db: Db, req: Request)
    requires OrdersOf(db.orders, req.reference) == [] && Create(db, req).result.Ok?
    requires forall item :: item in req.cart ==> !CamelOnly(item)
    requires req.token.Some? && PlainToken(req.token.value)
    requires CartSubtotal(db, req.cart).Ok? && Balance(CartSubtotal(db, req.cart).value, req.token.value) >= 0
    ensures req.payment.Some?
    ensures var created, paid := Create(db, req).result.value, req.payment.value.amountKobo;
            var extra := Extra(req.token.value);
            var stores := |CartStores(db, req.cart)|;
            && Collected(created) == (paid + (stores - 1) * extra) as real
            && (Collected(created) == paid as real <==> (stores == 1 || extra == 0))
  {
    hide Create;
    hide SumBy;
    hide SumRealBy;
    hide GroupLines;
    hide CartSubtotal;
    hide OrdersOf;
    hide CartStores;
    hide FlagIsRight;
    LedgerOfCommit(db, req);
    FlaggedExactly(db, req);
    NoGap(db, req.cart);
    hide CamelOnly;
    var token := req.token.value;
    ScalarShares(token, GroupLines(db, [], req.cart).value);
    PlainArithmetic(|CartStores(db, req.cart)|, token.amount, token.tax, token.discount.amount);
    ProductIsZero(|CartStores(db, req.cart)| - 1, Extra(token));
  }

  /** A store count equal to the number of stores splits the delivery amount without loss. */
  lemma {:induction false} CountedDelivery(token: Token, groups: seq<Group>)
    requires token.deliveryCharges.None? && token.storeCount >= 1
    ensures SumRealBy(groups, GroupDelivery(token))
         == |groups| as real * (token.amount as real / token.storeCount as real)
    ensures |groups| == token.storeCount ==> SumRealBy(groups, GroupDelivery(token)) == token.amount as real
  {
    if groups != [] {
      var n := |groups| - 1;
      CountedDelivery(token, groups[..n]);
      var share := token.amount as real / token.storeCount as real;
      assert n as real * share + share == |groups| as real * share;
    }
  }

  // ----- charges per store -----

  function EntriesTotal(entries: seq<StoreCharge>): int {
    if entries == [] then 0 else entries[0].amount + EntriesTotal(entries[1..])
  }

  lemma {:induction false} DiscountIsTotal(entries: seq<StoreCharge>)
    ensures DiscountTotal(PerStore(entries)) == EntriesTotal(entries)
  {
    if entries != [] {
      assert entries == [entries[0]] + entries[1..];
      DiscountIsTotal(entries[1..]);
      SumByCons(entries[0], entries[1..], StoreAmount());
    }
  }

  /** `amount` is in the store's first entry, or 0 when the store has none. */
  ghost predicate OwnEntry(entries: seq<StoreCharge>, storeId: int, amount: int) {
    || (exists i :: 0 <= i < |entries| && entries[i] == StoreCharge(storeId, amount)
          && forall j :: 0 <= j < i ==> entries[j].storeId != storeId)
    || (amount == 0 && forall i :: 0 <= i < |entries| ==> entries[i].storeId != storeId)
  }

  lemma {:induction false} ChargeIsOwn(entries: seq<StoreCharge>, storeId: int)
    ensures OwnEntry(entries, storeId, ChargeFor(entries, storeId))
  {
    if entries != [] && entries[0].storeId != storeId {
      var rest, amount := entries[1..], ChargeFor(entries, storeId);
      ChargeIsOwn(rest, storeId);
      if i :| 0 <= i < |rest| && rest[i] == StoreCharge(storeId, amount)
              && forall j :: 0 <= j < i ==> rest[j].storeId != storeId {
        assert entries[i + 1] == StoreCharge(storeId, amount);
      }
    }
  }

  /** The order carries its store's own share of what the token lists per store, and the whole of the rest. */
  ghost predicate ChargedAsSent(o: Order, token: Token) {
    && o.tax == token.tax && o.grandTotal == o.total - o.discount + o.tax
    && (match token.discount
        case Scalar(amount) => o.discount == amount
        case PerStore(entries) => OwnEntry(entries, o.storeId, o.discount))
    && (match token.deliveryCharges
        case Some(entries) =>
          exists charge :: OwnEntry(entries, o.storeId, charge) && o.deliveryCharge == charge as real
        case None =>
          token.amount as real == o.deliveryCharge * if token.storeCount == 0 then 1.0 else token.storeCount as real)
  }

  lemma ChargedFor(db: Db, o: Order, g: Group, reference: string, multi: bool, token: Token)
    requires OrderFor(db, o, g, reference, multi, token)
    ensures ChargedAsSent(o, token)
  {
    if token.discount.PerStore? { ChargeIsOwn(token.discount.entries, o.storeId); }
    if token.deliveryCharges.Some? { ChargeIsOwn(token.deliveryCharges.value, o.storeId); }
    hide OwnEntry;
    hide Matches;
    hide SumBy;
    hide ChargeFor;
  }

  lemma OrdersChargedAsSent(db: Db, req: Request)
    requires OrdersOf(db.orders, req.reference) == [] && Create(db, req).result.Ok?
    ensures req.token.Some?
    ensures forall o :: o in Create(db, req).result.value ==> ChargedAsSent(o, req.token.value)
  {
    CommitPassed(db, req);
    var token, groups, created, subtotal := CommitMakes(db, req);
    CommittedBalance(db, req, token, groups, created, subtotal);
    hide Create;
    hide OrderFor;
    hide ChargedAsSent;
    forall o | o in created ensures ChargedAsSent(o, token) {
      var i :| 0 <= i < |created| && created[i] == o;
      ChargedFor(db, o, groups[i], req.reference, MultiSeller(req.cart), token);
    }
  }

  /** The entries name each of the stores once, and no other. */
  ghost predicate OnePerStore(entries: seq<StoreCharge>, stores: set<int>) {
    && (forall i, j :: 0 <= i < j < |entries| ==> entries[i].storeId != entries[j].storeId)
    && (forall e :: e in entries ==> e.storeId in stores)
    && (forall s :: s in stores ==> exists e :: e in entries && e.storeId == s)
  }

  function OwnShare(entries: seq<StoreCharge>): Group -> int {
    (g: Group) => ChargeFor(entries, g.storeId)
  }

  lemma FirstHasStore(groups: seq<Group>)
    ensures groups != [] ==> HasStore(groups, groups[0].storeId)
  {
  }

  lemma {:induction false} SharesCover(entries: seq<StoreCharge>, groups: seq<Group>, stores: set<int>)
    requires DistinctStores(groups) && OnePerStore(entries, stores)
    requires forall s :: HasStore(groups, s) <==> s in stores
    ensures SumBy(groups, OwnShare(entries)) == EntriesTotal(entries)
  {
    if entries == [] {
      FirstHasStore(groups);
    } else {
      var s := entries[0].storeId;
      assert entries[0] in entries && HasStore(groups, s);
      var i :| 0 <= i < |groups| && groups[i].storeId == s;
      var rest := groups[..i] + groups[i + 1..];
      WithoutStore(entries, groups, stores, i);
      hide HasStore;
      hide DistinctStores;
      hide OnePerStore;
      SharesCover(entries[1..], rest, stores - {s});
      SharesAgree(entries, rest);
      OneOfAll(groups, i, OwnShare(entries));
      hide SumBy;
    }
  }

  lemma SharesAgree(entries: seq<StoreCharge>, rest: seq<Group>)
    requires entries != [] && forall k :: 0 <= k < |rest| ==> rest[k].storeId != entries[0].storeId
    ensures SumBy(rest, OwnShare(entries)) == SumBy(rest, OwnShare(entries[1..]))
  {
    SumByAgrees(rest, OwnShare(entries), OwnShare(entries[1..]));
  }

  lemma OneOfAll<T>(s: seq<T>, i: nat, f: T -> int)
    requires i < |s|
    ensures SumBy(s, f) == f(s[i]) + SumBy(s[..i] + s[i + 1..], f)
  {
    hide SumBy;
    var a, b := s[..i], s[i + 1..];
    assert s == a + [s[i]] + b;
    SumByConcat(a + [s[i]], b, f);
    SumByConcat(a, b, f);
    SumByAppend(a, s[i], f);
  }

  lemma WithoutStore(entries: seq<StoreCharge>, groups: seq<Group>, stores: set<int>, i: nat)
    requires DistinctStores(groups) && OnePerStore(entries, stores) && entries != []
    requires forall s :: HasStore(groups, s) <==> s in stores
    requires i < |groups| && groups[i].storeId == entries[0].storeId
    ensures var rest, left := groups[..i] + groups[i + 1..], stores - {groups[i].storeId};
            && DistinctStores(rest) && OnePerStore(entries[1..], left)
            && (forall s :: HasStore(rest, s) <==> s in left)
            && forall k :: 0 <= k < |rest| ==> rest[k].storeId != entries[0].storeId
  {
    var rest, s := groups[..i] + groups[i + 1..], groups[i].storeId;
    forall k | 0 <= k < |rest| ensures rest[k].storeId != s && rest[k] in groups {
      assert rest[k] == groups[if k < i then k else k + 1];
    }
    forall t | t != s && HasStore(groups, t) ensures HasStore(rest, t) {
      var k :| 0 <= k < |groups| && groups[k].storeId == t;
      assert rest[if k < i then k else k - 1] == groups[k];
    }
    forall t | t in stores && t != s ensures exists e :: e in entries[1..] && e.storeId == t {
      var e :| e in entries && e.storeId == t;
      assert e in entries[1..];
    }
    forall e | e in entries[1..] ensures e.storeId in stores && e.storeId != s {
      var k :| 0 <= k < |entries[1..]| && entries[1..][k] == e;
      assert entries[k + 1] == e && e in entries;
    }
  }

  lemma {:induction false} ListedShares(token: Token, groups: seq<Group>)
    requires token.discount.PerStore? && token.deliveryCharges.Some?
    ensures SumBy(groups, GroupDiscount(token)) == SumBy(groups, OwnShare(token.discount.entries))
    ensures SumRealBy(groups, GroupDelivery(token)) == SumBy(groups, OwnShare(token.deliveryCharges.value)) as real
  {
    if groups != [] { ListedShares(token, groups[..|groups| - 1]); }
  }

  /**
   A token that lists delivery and discount once for each store of the cart is collected without loss:
   the orders together collect the payment, with the listed charges in place of the amount that was
   paid for delivery, and the tax once more for every store but one.
   */
  lemma ListedLedger(db: Db, req: Request)
    requires OrdersOf(db.orders, req.reference) == [] && Create(db, req).result.Ok?
    requires forall item :: item in req.cart ==> !CamelOnly(item)
    requires req.token.Some? && req.token.value.discount.PerStore? && req.token.value.deliveryCharges.Some?
    requires OnePerStore(req.token.value.discount.entries, CartStores(db, req.cart))
    requires OnePerStore(req.token.value.deliveryCharges.value, CartStores(db, req.cart))
    requires CartSubtotal(db, req.cart).Ok? && Balance(CartSubtotal(db, req.cart).value, req.token.value) >= 0
    ensures req.payment.Some?
    ensures var token, stores := req.token.value, |CartStores(db, req.cart)|;
            Collected(Create(db, req).result.value)
            == (req.payment.value.amountKobo - token.amount + EntriesTotal(token.deliveryCharges.value)
                + (stores - 1) * token.tax) as real
  {
    hide *;
    LedgerOfCommit(db, req);
    NoGap(db, req.cart);
    OrderPerStore(db, req.cart);
    GroupsPartitionCart(db, req.cart);
    var token, groups := req.token.value, GroupLines(db, [], req.cart).value;
    ListedShares(token, groups);
    SharesCover(token.discount.entries, groups, CartStores(db, req.cart));
    SharesCover(token.deliveryCharges.value, groups, CartStores(db, req.cart));
    DiscountIsTotal(token.discount.entries);
    assert token.discount == PerStore(token.discount.entries);
    CollectedIs(Create(db, req).result.value, Balance(CartSubtotal(db, req.cart).value, token));
  }

  lemma CollectedIs(orders: seq<Order>, balance: int)
    ensures Collected(orders) == SumBy(orders, OrderGrand()) as real + SumRealBy(orders, OrderDelivery())
    ensures balance >= 0 ==> Negative(balance) == 0
  {
  }
}
