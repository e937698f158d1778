/** Why a guest order is refused: whatever reason a call gives is true of its request and the tables. */
module GuestRefusals {
  import opened Outcomes
  import opened Sequences
  import opened Text
  import opened GuestOrders
  import opened GuestStock
  import opened GuestGrouping
  import opened GuestMoney
  import opened GuestDemand

  /** The reason is true of the item. */
  predicate ItemFails(db: Db, item: CartItem, reason: Reason) {
    var variant := PricedVariant(item);
    match reason
    case InvalidQuantity => item.quantity < 1
    case InvalidProduct => item.productId <= 0
    case ProductNotFound => item.productId !in db.products
    case ProductUnavailable => item.productId in db.products && !db.products[item.productId].available
    case VariantNotFound => variant != 0 && variant !in db.variants
    case VariantMismatch => variant in db.variants && db.variants[variant].productId != item.productId
    case WrongStore =>
      item.productId in db.products && item.storeId.Id? && item.storeId.value != db.products[item.productId].storeId
    case StoreNotFound => item.productId in db.products && db.products[item.productId].storeId !in db.stores
    case _ => false
  }

  predicate SomeItemFails(db: Db, cart: seq<CartItem>, reason: Reason) {
    exists item | item in cart :: ItemFails(db, item, reason)
  }

  /** The reason is true of the call. */
  ghost predicate Justified(db: Db, req: Request, reason: Reason) {
    match reason
    case NoProducts => req.cart == []
    case FormIncomplete => req.email == "" || !req.formComplete
    case ReferenceMissing => req.reference == ""
    case TokenInvalid => req.token.None?
    case NotAGuestToken => req.token.Some? && req.token.value.isGuest == Some(false)
    case AddressMismatch => req.token.Some? && req.addressId != "" && req.token.value.addressId != req.addressId
    case TokenExpired => req.token.Some? && req.checkExpiry && req.token.value.exp != 0 && req.token.value.exp < req.now
    case PaymentUnsuccessful => req.payment.None? || !req.payment.value.success
    case ReferenceMismatch => req.payment.Some? && req.payment.value.reference !in {"", req.reference}
    case EmailMismatch =>
      req.payment.Some? &&
      (req.payment.value.email.None? || Lower(req.payment.value.email.value) != Lower(req.email))
    case AmountMismatch =>
      req.payment.Some? && req.token.Some? &&
      var owed := Owed(db, req.cart, req.token.value);
      req.payment.value.amountKobo != if owed > 0 then owed else 0
    case OutOfStock => !ProductsSuffice(db, CartLines(req.cart)) || !VariantsSuffice(db, CartLines(req.cart))
    case _ => SomeItemFails(db, req.cart, reason)
  }

  // ----- prices and groups -----

  lemma {:induction false} PriceRefused(db: Db, subtotal: int, cart: seq<CartItem>)
    requires PriceLines(db, subtotal, cart).Err?
    ensures SomeItemFails(db, cart, PriceLines(db, subtotal, cart).error)
    decreases |cart|
  {
    var price := UnitPrice(db, cart[0]);
    if price.Err? {
      assert ItemFails(db, cart[0], price.error);
    } else {
      PriceRefused(db, subtotal + price.value * cart[0].quantity, cart[1..]);
      assert forall item :: item in cart[1..] ==> item in cart;
    }
  }

  lemma {:induction false} GroupsRefused(db: Db, groups: seq<Group>, cart: seq<CartItem>)
    requires GroupLines(db, groups, cart).Err?
    ensures SomeItemFails(db, cart, GroupLines(db, groups, cart).error)
    decreases |cart|
  {
    var store := StoreOf(db, cart[0]);
    if store.Err? {
      assert ItemFails(db, cart[0], store.error);
    } else {
      GroupsRefused(db, AddLine(groups, store.value, LineOf(cart[0])), cart[1..]);
      assert forall item :: item in cart[1..] ==> item in cart;
    }
  }

  // ----- stock and stores -----

  /** Lines the shop sells are refused for want of stock only. */
  lemma {:induction false} LinesRefused(db: Db, items: seq<Item>, lines: seq<Line>)
    requires AllOrderable(db, lines) && PlaceLines(db, items, lines).Err?
    ensures PlaceLines(db, items, lines) == Err(OutOfStock)
    decreases |lines|
  {
    var line, rest := lines[0], lines[1..];
    assert line in lines && lines == [line] + rest;
    if TakeLine(db, line).Ok? {
      OrderableLeft(db, line, rest);
      hide TakeLine;
      hide AllOrderable;
      LinesRefused(TakeLine(db, line).value, items + [ItemOf(db, line)], rest);
    }
  }

  lemma OrderableLater(db: Db, next: Db, lines: seq<Line>)
    requires AllOrderable(db, lines) && SameCatalog(db, next)
    ensures AllOrderable(next, lines)
  {
    forall line | line in lines ensures Orderable(next, line) {
      assert Orderable(db, line);
      assert line.productId in db.products && (line.variantId != 0 ==> line.variantId in db.variants);
    }
  }

  /** A store's order is refused because its lines are, or its store is missing. */
  lemma GroupRefused(db: Db, items: seq<Item>, reference: string, multi: bool, token: Token, g: Group)
    requires AllOrderable(db, g.lines) && PlaceGroup(db, reference, multi, token, g).Err?
    ensures var e := PlaceGroup(db, reference, multi, token, g).error;
            || (e == OutOfStock && PlaceLines(db, items, g.lines).Err?)
            || (e == StoreNotFound && g.storeId !in db.stores)
  {
    PlaceLinesExactly(db, [], g.lines);
    PlaceLinesExactly(db, items, g.lines);
    if PlaceLines(db, [], g.lines).Err? { LinesRefused(db, [], g.lines); }
    hide PlaceLines;
    hide Fits;
  }

  lemma {:induction false} PlacingRefused(
      db: Db, items: seq<Item>, reference: string, multi: bool, token: Token, groups: seq<Group>)
    requires AllOrderable(db, AllLines(groups)) && PlaceGroups(db, reference, multi, token, groups).Err?
    ensures var e := PlaceGroups(db, reference, multi, token, groups).error;
            || (e == OutOfStock && PlaceLines(db, items, AllLines(groups)).Err?)
            || (e == StoreNotFound && !StoresExist(db, groups))
    decreases |groups|
  {
    var g, rest := groups[0], groups[1..];
    assert g in groups && forall h :: h in rest ==> h in groups;
    assert forall line :: line in g.lines || line in AllLines(rest) ==> line in AllLines(groups);
    PlaceLinesConcat(db, items, g.lines, AllLines(rest));
    if PlaceGroup(db, reference, multi, token, g).Err? {
      GroupRefused(db, items, reference, multi, token, g);
    } else {
      var next := PlaceGroup(db, reference, multi, token, g).value;
      var o := PlaceGroupEffect(db, reference, multi, token, g);
      OrderableLater(db, next, AllLines(rest));
      assert next.stores == db.stores;
      PlaceLinesExactly(db, items, g.lines);
      PlaceLinesExactly(db, [], g.lines);
      SameStock(db, items, g.lines);
      var placed := PlaceLines(db, items, g.lines).value;
      PlaceLinesIgnoresOrders(placed.db, placed.items, AllLines(rest), next.orders);
      hide Conserves;
      hide AllOrderable;
      hide Fits;
      PlacingRefused(next, placed.items, reference, multi, token, rest);
      hide PlaceLines;
    }
  }

  lemma PricedIsOrderable(db: Db, cart: seq<CartItem>)
    requires forall item :: item in cart ==> Priced(db, item)
    ensures AllOrderable(db, CartLines(cart))
  {
    forall line | line in CartLines(cart) ensures Orderable(db, line) {
      var i :| 0 <= i < |cart| && CartLines(cart)[i] == line;
      assert Priced(db, cart[i]);
    }
  }

  /** The lines of the groups can be placed exactly when the shelves hold the cart's demand. */
  lemma GroupsFit(db: Db, cart: seq<CartItem>)
    requires (forall item :: item in cart ==> Priced(db, item)) && GroupLines(db, [], cart).Ok?
    ensures var lines := AllLines(GroupLines(db, [], cart).value);
            && AllOrderable(db, lines)
            && (PlaceLines(db, [], lines).Ok? <==>
                  ProductsSuffice(db, CartLines(cart)) && VariantsSuffice(db, CartLines(cart)))
  {
    var groups, lines := GroupLines(db, [], cart).value, CartLines(cart);
    PricedIsOrderable(db, cart);
    GroupsPermuteCart(db, [], cart);
    forall line | line in AllLines(groups) ensures line in lines {
      assert line in multiset(AllLines(groups));
    }
    PlaceLinesExactly(db, [], AllLines(groups));
    FitsPermuted(db, AllLines(groups), lines);
    hide PlaceLines;
    hide ProductsSuffice;
    hide VariantsSuffice;
    hide GroupLines;
  }

  lemma StoreMissing(db: Db, cart: seq<CartItem>)
    requires (forall item :: item in cart ==> Priced(db, item)) && GroupLines(db, [], cart).Ok?
    requires !StoresExist(db, GroupLines(db, [], cart).value)
    ensures SomeItemFails(db, cart, StoreNotFound)
  {
    GroupStoresExist(db, cart);
    hide StoresExist;
    hide GroupLines;
    var item :| item in cart && ProductStore(db, item) !in db.stores;
    assert Priced(db, item);
    assert ItemFails(db, item, StoreNotFound);
  }

  lemma CartRefused(db: Db, cart: seq<CartItem>, reference: string, multi: bool, token: Token)
    requires (forall item :: item in cart ==> Priced(db, item)) && GroupLines(db, [], cart).Ok?
    requires PlaceGroups(db, reference, multi, token, GroupLines(db, [], cart).value).Err?
    ensures var e := PlaceGroups(db, reference, multi, token, GroupLines(db, [], cart).value).error;
            || (e == OutOfStock && (!ProductsSuffice(db, CartLines(cart)) || !VariantsSuffice(db, CartLines(cart))))
            || (e == StoreNotFound && SomeItemFails(db, cart, StoreNotFound))
  {
    hide *;
    var groups := GroupLines(db, [], cart).value;
    GroupsFit(db, cart);
    PlacingRefused(db, [], reference, multi, token, groups);
    if !StoresExist(db, groups) { StoreMissing(db, cart); }
  }

  // ----- the call -----

  lemma PriceRefusedFor(db: Db, req: Request, token: Token)
    requires req.cart != [] && ExpectedKobo(db, req.cart, token).Err?
    ensures Justified(db, req, ExpectedKobo(db, req.cart, token).error)
  {
    PriceRefused(db, 0, req.cart);
    hide SomeItemFails;
  }

  lemma CheckRefused(db: Db, req: Request)
    requires BasicCheck(req).Err?
    ensures Justified(db, req, BasicCheck(req).error)
  {
    hide Owed;
    hide SomeItemFails;
  }

  lemma GateRefused(db: Db, req: Request, token: Token)
    requires BasicCheck(req) == Ok(token) && ExpectedKobo(db, req.cart, token).Ok?
    requires PaymentGate(req.payment, req.reference, ExpectedKobo(db, req.cart, token).value, req.email).Err?
    ensures Justified(db, req,
                      PaymentGate(req.payment, req.reference, ExpectedKobo(db, req.cart, token).value, req.email).error)
  {
    ExpectedIsOwed(db, req.cart, token);
    hide ExpectedKobo;
    hide Owed;
    hide SomeItemFails;
  }

  lemma CommitRefused(db: Db, req: Request)
    requires Commit(db, req).Err?
    ensures Justified(db, req, Commit(db, req).error)
  {
    if BasicCheck(req).Err? {
      CheckRefused(db, req);
    } else {
      var token := BasicCheck(req).value;
      ExpectedIsOwed(db, req.cart, token);
      if ExpectedKobo(db, req.cart, token).Err? {
        PriceRefusedFor(db, req, token);
      } else if PaymentGate(req.payment, req.reference, ExpectedKobo(db, req.cart, token).value, req.email).Err? {
        GateRefused(db, req, token);
      } else if GroupLines(db, [], req.cart).Err? {
        GroupsRefused(db, [], req.cart);
        hide PlaceGroups;
      } else {
        CartRefused(db, req.cart, req.reference, MultiSeller(req.cart), token);
      }
    }
    hide BasicCheck;
    hide PaymentGate;
    hide ExpectedKobo;
    hide Owed;
    hide Priced;
    hide SomeItemFails;
    hide GroupLines;
    hide PlaceGroups;
    hide MultiSeller;
    hide ProductsSuffice;
    hide VariantsSuffice;
  }

  /** Whatever reason a refused call gives is true. */
  lemma RefusedForAReason(db: Db, req: Request)
    requires Create(db, req).result.Err?
    ensures Justified(db, req, Create(db, req).result.error)
  {
    assert Commit(db, req).Err? && Create(db, req).result == Err(Commit(db, req).error);
    CommitRefused(db, req);
    hide *;
  }
}
