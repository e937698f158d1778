/**
 The guest order service as an object over its tables: the loops that price, group and place a cart
 and that reconcile checkouts, each proved against its function.
 */
module GuestOrderServices {
  import opened Outcomes
  import opened Sequences
  import opened GuestOrders
  import opened GuestStock
  import opened GuestGrouping
  import opened GuestMoney
  import opened GuestDemand
  import opened GuestRefusals
  import opened GuestReconciliation
  import opened GuestRuns

  /** What `createItems` returns: the total quantity, the total amount and the lines. */
  datatype CreatedItems = CreatedItems(totalQuantity: int, totalAmount: int, items: seq<Item>)

  datatype Summary = Summary(total: nat, reconciled: nat, skipped: nat, failed: nat)

  // ----- facts the loops need -----

  /** A line goes to the group of its store, or to a new group at the end. */
  lemma {:induction false} AddLineAt(groups: seq<Group>, storeId: int, line: Line, j: nat)
    requires j <= |groups|
    requires forall k :: 0 <= k < j ==> groups[k].storeId != storeId
    requires j < |groups| ==> groups[j].storeId == storeId
    ensures AddLine(groups, storeId, line)
         == if j < |groups| then groups[j := Group(storeId, groups[j].lines + [line])]
            else groups + [Group(storeId, [line])]
  {
    if j == 0 {
      if groups != [] { assert groups == [groups[0]] + groups[1..]; }
    } else {
      AddLineAt(groups[1..], storeId, line, j - 1);
      assert groups == [groups[0]] + groups[1..];
    }
  }

  class GuestOrderService {
    var products: map<int, Product>
    var variants: map<int, Variant>
    var stores: set<int>
    var orders: seq<Order>
    var checkouts: seq<Checkout>

    function Tables(): Db
      reads this
    {
      Db(products, variants, stores, orders)
    }

    function Contents(): Shop
      reads this
    {
      Shop(Tables(), checkouts)
    }

    constructor (products: map<int, Product>, variants: map<int, Variant>, stores: set<int>, checkouts: seq<Checkout>)
      ensures Contents() == Shop(Db(products, variants, stores, []), checkouts)
    {
      this.products, this.variants, this.stores, this.orders := products, variants, stores, [];
      this.checkouts := checkouts;
    }

    // ----- pricing -----

    method CalculateGuestCartSubtotal(cart: seq<CartItem>) returns (r: Result<int, Reason>)
      ensures r == CartSubtotal(Tables(), cart)
      ensures r.Ok? ==> r.value == SumBy(cart, PricedCost(Tables()))
    {
      if |cart| == 0 { return Err(NoProducts); }
      var subtotal := 0;
      for i := 0 to |cart|
        invariant PriceLines(Tables(), 0, cart) == PriceLines(Tables(), subtotal, cart[i..])
      {
        var item := cart[i];
        var variantId := PricedVariant(item);
        assert cart[i..][0] == item && cart[i..][1..] == cart[i + 1..];
        if item.quantity < 1 { return Err(InvalidQuantity); }
        if item.productId <= 0 { return Err(InvalidProduct); }
        if item.productId !in products { return Err(ProductNotFound); }
        var product := products[item.productId];
        if !product.available { return Err(ProductUnavailable); }
        var unitPrice := product.rate;
        if variantId != 0 {
          if variantId !in variants { return Err(VariantNotFound); }
          var variant := variants[variantId];
          if variant.productId != item.productId { return Err(VariantMismatch); }
          unitPrice := variant.price;
        }
        subtotal := subtotal + unitPrice * item.quantity;
      }
      assert cart[|cart|..] == [];
      PriceLinesSum(Tables(), 0, cart);
      r := Ok(subtotal);
    }

    // ----- grouping -----

    method GroupProducts(cart: seq<CartItem>) returns (r: Result<seq<Group>, Reason>)
      ensures r == GroupLines(Tables(), [], cart)
      ensures r.Ok? ==> DistinctStores(r.value) && multiset(AllLines(r.value)) == multiset(CartLines(cart))
    {
      var grouped: seq<Group> := [];
      for i := 0 to |cart|
        invariant GroupLines(Tables(), [], cart) == GroupLines(Tables(), grouped, cart[i..])
      {
        var item := cart[i];
        assert cart[i..][0] == item && cart[i..][1..] == cart[i + 1..];
        if item.productId !in products { return Err(ProductNotFound); }
        var product := products[item.productId];
        if !product.available { return Err(ProductUnavailable); }
        var storeId := if item.storeId.Id? then item.storeId.value else product.storeId;
        if product.storeId != storeId { return Err(WrongStore); }
        ghost var before := grouped;
        var j := FindGroup(grouped, storeId);
        AddLineAt(grouped, storeId, LineOf(item), j);
        if j == |grouped| {
          grouped := grouped + [Group(storeId, [])];
        }
        grouped := grouped[j := Group(storeId, grouped[j].lines + [LineOf(item)])];
        assert [] + [LineOf(item)] == [LineOf(item)];
        assert grouped == AddLine(before, storeId, LineOf(item));
      }
      assert cart[|cart|..] == [];
      r := Ok(grouped);
      GroupsPartitionCart(Tables(), cart);
      GroupsPermuteCart(Tables(), [], cart);
    }

    static method FindGroup(groups: seq<Group>, storeId: int) returns (j: nat)
      ensures j <= |groups|
      ensures forall k :: 0 <= k < j ==> groups[k].storeId != storeId
      ensures j < |groups| ==> groups[j].storeId == storeId
    {
      j := 0;
      while j < |groups| && groups[j].storeId != storeId
        invariant j <= |groups|
        invariant forall k :: 0 <= k < j ==> groups[k].storeId != storeId
      {
        j := j + 1;
      }
    }

    // ----- order lines and stock -----

    /** Takes one line off the shelves. On an error the caller rolls back. */
    method TakeStock(line: Line) returns (r: Result<Item, Reason>)
      modifies this`products, this`variants
      ensures r.Ok? ==> TakeLine(old(Tables()), line) == Ok(Tables()) && r.value == ItemOf(old(Tables()), line)
      ensures r.Err? ==> TakeLine(old(Tables()), line) == Err(r.error)
    {
      if line.quantity < 1 { return Err(InvalidQuantity); }
      if line.productId !in products { return Err(ProductNotFound); }
      var product := products[line.productId];
      if !product.available { return Err(ProductUnavailable); }
      if product.unit < line.quantity { return Err(OutOfStock); }
      products := products[line.productId := product.(unit := product.unit - line.quantity)];
      products := products[line.productId := products[line.productId].(orderCount := product.orderCount + 1)];
      var price := product.rate;
      if line.variantId != 0 {
        if line.variantId !in variants { return Err(VariantNotFound); }
        var variant := variants[line.variantId];
        if variant.productId != line.productId { return Err(VariantMismatch); }
        if variant.units < line.quantity { return Err(OutOfStock); }
        price := variant.price;
        variants := variants[line.variantId := variant.(units := variant.units - line.quantity)];
      }
      assert products == old(products)[line.productId :=
          product.(unit := product.unit - line.quantity, orderCount := product.orderCount + 1)];
      r := Ok(Item(line.productId, line.variantId, line.quantity, price, price * line.quantity));
    }

    method CreateItems(lines: seq<Line>) returns (r: Result<CreatedItems, Reason>)
      modifies this`products, this`variants
      ensures r.Ok? ==>
                && PlaceLines(old(Tables()), [], lines) == Ok(Placed(Tables(), r.value.items))
                && r.value.totalQuantity == SumBy(r.value.items, ItemQuantity())
                && r.value.totalAmount == SumBy(r.value.items, ItemTotal())
      ensures r.Err? ==> PlaceLines(old(Tables()), [], lines) == Err(r.error)
    {
      var items: seq<Item> := [];
      var totalAmount, totalQuantity := 0, 0;
      for i := 0 to |lines|
        invariant PlaceLines(old(Tables()), [], lines) == PlaceLines(Tables(), items, lines[i..])
        invariant totalQuantity == SumBy(items, ItemQuantity())
        invariant totalAmount == SumBy(items, ItemTotal())
      {
        assert lines[i..][0] == lines[i] && lines[i..][1..] == lines[i + 1..];
        ghost var before := Tables();
        var taken := TakeStock(lines[i]);
        hide TakeLine;
        hide ItemOf;
        if taken.Err? { return Err(taken.error); }
        SumByAppend(items, taken.value, ItemQuantity());
        SumByAppend(items, taken.value, ItemTotal());
        totalAmount := totalAmount + taken.value.totalPrice;
        totalQuantity := totalQuantity + taken.value.quantity;
        items := items + [taken.value];
      }
      assert lines[|lines|..] == [];
      r := Ok(CreatedItems(totalQuantity, totalAmount, items));
    }

    // ----- orders -----

    /** One store's order: the row first, then its lines, then its totals. On an error the caller rolls back. */
    method PlaceGuestOrder(reference: string, isMultiSeller: bool, token: Token, group: Group)
        returns (r: Result<Order, Reason>)
      modifies this`products, this`variants, this`orders
      ensures r.Ok? ==>
                && PlaceGroup(old(Tables()), reference, isMultiSeller, token, group) == Ok(Tables())
                && orders == old(orders) + [r.value]
      ensures r.Err? ==> PlaceGroup(old(Tables()), reference, isMultiSeller, token, group) == Err(r.error)
    {
      var n := |orders|;
      var order := Order(LastId(orders) + 1, group.storeId, reference, isMultiSeller, token.tax,
                         DeliveryShare(token, group.storeId), DiscountShare(token, group.storeId), [], 0, 0, 0);
      PlaceLinesIgnoresOrders(Tables(), [], group.lines, orders + [order]);
      hide PlaceLines;
      orders := orders + [order];
      var created := CreateItems(group.lines);
      if created.Err? { return Err(created.error); }
      if group.storeId !in stores { return Err(StoreNotFound); }
      var total := created.value.totalAmount;
      order := order.(items := created.value.items, totalItems := created.value.totalQuantity, total := total,
                      grandTotal := total - order.discount + order.tax);
      orders := orders[n := order];
      assert orders == old(orders) + [order];
      r := Ok(order);
    }

    /** The body of the transaction; `CreateGuestOrder` rolls back when it fails. */
    method CommitOrders(req: Request, isMultiSeller: bool) returns (r: Result<seq<Order>, Reason>)
      requires isMultiSeller == MultiSeller(req.cart)
      modifies this`products, this`variants, this`orders
      ensures r.Ok? ==> Commit(old(Tables()), req) == Ok(Tables()) && orders == old(orders) + r.value
      ensures r.Err? ==> Commit(old(Tables()), req) == Err(r.error)
      ensures r.Ok? <==> MayOrder(old(Tables()), req)
    {
      CommitsExactly(Tables(), req);
      hide MayOrder;
      hide BasicCheck;
      hide PaymentGate;
      hide CartSubtotal;
      hide MultiSeller;
      hide PlaceGroup;
      var verified := BasicCheck(req);
      if verified.Err? { return Err(verified.error); }
      var token := verified.value;
      var expected := ExpectedAmount(req.cart, token);
      if expected.Err? { return Err(expected.error); }
      var gate := PaymentGate(req.payment, req.reference, expected.value, req.email);
      if gate.Err? { return Err(gate.error); }
      var productsByStore := GroupProducts(req.cart);
      if productsByStore.Err? { return Err(productsByStore.error); }
      var groups := productsByStore.value;
      var newOrders: seq<Order> := [];
      for i := 0 to |groups|
        invariant PlaceGroups(old(Tables()), req.reference, isMultiSeller, token, groups)
               == PlaceGroups(Tables(), req.reference, isMultiSeller, token, groups[i..])
        invariant orders == old(orders) + newOrders
      {
        assert groups[i..][0] == groups[i] && groups[i..][1..] == groups[i + 1..];
        var order := PlaceGuestOrder(req.reference, isMultiSeller, token, groups[i]);
        if order.Err? { return Err(order.error); }
        assert old(orders) + newOrders + [order.value] == old(orders) + (newOrders + [order.value]);
        newOrders := newOrders + [order.value];
      }
      assert groups[|groups|..] == [];
      r := Ok(newOrders);
    }

    method ExpectedAmount(cart: seq<CartItem>, token: Token) returns (r: Result<int, Reason>)
      ensures r == ExpectedKobo(Tables(), cart, token)
    {
      var subtotal := CalculateGuestCartSubtotal(cart);
      hide CartSubtotal;
      if subtotal.Err? { return Err(subtotal.error); }
      var total := subtotal.value + token.amount + token.tax - DiscountTotal(token.discount);
      r := Ok(if total < 0 then 0 else total);
    }

    /** Commits every write or restores the tables. */
    method CreateGuestOrder(req: Request) returns (r: Result<seq<Order>, Reason>)
      modifies this`products, this`variants, this`orders
      ensures Outcome(Tables(), r) == Create(old(Tables()), req)
      ensures Conserves(old(Tables()), Tables())
      ensures r.Err? ==> Tables() == old(Tables())
      ensures r.Ok? ==> r.value != [] && r.value == OrdersOf(orders, req.reference)
      ensures old(OrdersOf(orders, req.reference)) == [] ==> (r.Ok? <==> MayOrder(old(Tables()), req))
      ensures r.Err? ==> Justified(old(Tables()), req, r.error)
    {
      if Create(Tables(), req).result.Err? { RefusedForAReason(Tables(), req); }
      hide Justified;
      CreateConserves(Tables(), req);
      if OrdersOf(orders, req.reference) == [] { CreatesExactly(Tables(), req); }
      hide MayOrder;
      if Create(Tables(), req).result.Ok? { CreateReturnsAll(Tables(), req); }
      hide Commit;
      hide Conserves;
      hide OrdersOf;
      hide MultiSeller;
      var existing := OrdersOf(orders, req.reference);
      if existing != [] { return Ok(existing); }
      var savedProducts, savedVariants, savedOrders := products, variants, orders;
      r := CommitOrders(req, MultiSeller(req.cart));
      if r.Err? {
        products, variants, orders := savedProducts, savedVariants, savedOrders;
      } else {
        assert orders[|old(orders)|..] == r.value;
      }
    }

    // ----- reconciliation -----

    /** `replayGuestCheckout` inside its callers' error handling. */
    method ReplayGuestCheckout(i: nat, req: Request) returns (r: Result<seq<Order>, Reason>)
      requires i < |checkouts|
      modifies this`products, this`variants, this`orders, this`checkouts
      ensures Contents() == Replay(old(Contents()), i, req) && r == Create(old(Tables()), req).result
    {
      hide Create;
      checkouts := checkouts[i := checkouts[i].(status := Processing)];
      r := CreateGuestOrder(req);
      hide Conserves;
      match r
      case Ok(orders) =>
        checkouts := checkouts[i := checkouts[i].(status := Completed, orderIds := Ids(orders))];
      case Err(_) =>
        checkouts := checkouts[i := checkouts[i].(status := Failed)];
    }

    method ReconcileGuestCheckout(id: nat, provider: Provider) returns (reply: Reply)
      modifies this`products, this`variants, this`orders, this`checkouts
      ensures Reconciliation(Contents(), reply) == Reconcile(old(Contents()), id, provider)
      ensures RepliedTo(old(Contents()), id, provider, Contents(), reply)
      ensures Evolves(old(Contents()), Contents())
    {
      StepEvolves(Contents(), ReconcileCall(id, provider));
      ReplyIsTrue(Contents(), id, provider);
      hide RepliedTo;
      hide Evolves;
      hide Create;
      hide OrdersOf;
      if id >= |checkouts| { return NotFound; }
      var checkout := checkouts[id];
      if !checkout.paid { return NotPaid; }
      if checkout.status == Completed { return AlreadyReconciled(OrdersOf(orders, checkout.reference)); }
      if checkout.payload.None? { return PayloadMissing; }
      var payload := checkout.payload.value;
      var reference := if payload.reference != "" then payload.reference else checkout.reference;
      if reference !in provider { return VerificationFailed; }
      var created := ReplayGuestCheckout(id, ReplayRequest(payload, reference, provider[reference]));
      match created
      case Ok(orders) => return Reconciled(orders);
      case Err(e) => return ReplayFailed(e);
    }

    method VisitCheckout(known: set<string>, provider: Provider, i: nat) returns (entry: Entry)
      requires i < |checkouts|
      modifies this`products, this`variants, this`orders, this`checkouts
      ensures Visit(Contents(), entry) == VisitOne(old(Contents()), known, provider, i)
      ensures entry.id == i && |checkouts| == |old(checkouts)|
    {
      hide Create;
      var checkout := checkouts[i];
      if checkout.reference in known { return Entry(i, DidSkip, []); }
      if checkout.payload.None? { return Entry(i, DidSkip, []); }
      var payload := checkout.payload.value;
      var reference := if payload.reference != "" then payload.reference else checkout.reference;
      if reference !in provider {
        checkouts := checkouts[i := checkout.(status := Failed)];
        return Entry(i, DidFail, []);
      }
      var created := ReplayGuestCheckout(i, ReplayRequest(payload, reference, provider[reference]));
      match created
      case Ok(orders) => return Entry(i, DidReconcile, Ids(orders));
      case Err(_) => return Entry(i, DidFail, []);
    }

    method ReconcileAllGuestCheckouts(provider: Provider) returns (results: seq<Entry>, summary: Summary)
      modifies this`products, this`variants, this`orders, this`checkouts
      ensures Bulk(Contents(), results) == ReconcileAll(old(Contents()), provider)
      ensures Evolves(old(Contents()), Contents())
      ensures EachOnce(results, old(checkouts))
      ensures AllTold(old(checkouts), checkouts, results, PendingIds(old(checkouts)), old(orders))
      ensures summary.reconciled == Count(results, DidReconcile) && summary.failed == Count(results, DidFail)
      ensures summary.total == summary.reconciled + summary.skipped + summary.failed == |results|
    {
      StepEvolves(Contents(), BulkCall(provider));
      BulkVisitsOnce(Contents(), provider);
      BulkReportIsTrue(Contents(), provider);
      hide AllTold;
      PendingIdsAre(checkouts);
      hide Evolves;
      hide EachOnce;
      hide VisitOne;
      var todo, known := PendingIds(checkouts), KnownReferences(Tables());
      hide PendingIds;
      hide KnownReferences;
      results := [];
      for k := 0 to |todo|
        invariant |checkouts| == |old(checkouts)|
        invariant VisitAll(old(Contents()), known, provider, todo, [])
               == VisitAll(Contents(), known, provider, todo[k..], results)
      {
        assert todo[k..][0] == todo[k] && todo[k..][1..] == todo[k + 1..];
        var entry := VisitCheckout(known, provider, todo[k]);
        results := results + [entry];
      }
      assert todo[|todo|..] == [];
      summary := Summarize(results);
    }

    static method Summarize(results: seq<Entry>) returns (s: Summary)
      ensures s.reconciled == Count(results, DidReconcile) && s.skipped == Count(results, DidSkip)
      ensures s.failed == Count(results, DidFail)
      ensures s.total == s.reconciled + s.skipped + s.failed == |results|
    {
      s := Summary(0, 0, 0, 0);
      for i := 0 to |results|
        invariant s == Summary(i, Count(results[..i], DidReconcile), Count(results[..i], DidSkip),
                               Count(results[..i], DidFail))
      {
        assert results[..i + 1][..i] == results[..i];
        s := s.(total := s.total + 1);
        match results[i].action
        case DidReconcile => s := s.(reconciled := s.reconciled + 1);
        case DidSkip => s := s.(skipped := s.skipped + 1);
        case DidFail => s := s.(failed := s.failed + 1);
      }
      assert results[..|results|] == results;
      CountsAddUp(results);
    }
  }
}
