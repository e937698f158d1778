/**
 Guest order creation: the tables, the price of a cart, the payment gate, the grouping by store and
 the placing of orders. Money is whole kobo. Every function takes the tables and says what a call
 returns or leaves behind; a call that fails leaves them as they were.
 */
module GuestOrders {
  import opened Outcomes
  import opened Sequences
  import opened Payments
  import opened Text

  datatype Reason =
    | NoProducts | InvalidQuantity | InvalidProduct
    | ProductNotFound | ProductUnavailable | VariantNotFound | VariantMismatch | OutOfStock
    | WrongStore | StoreNotFound
    | FormIncomplete | ReferenceMissing | TokenInvalid | NotAGuestToken | AddressMismatch | TokenExpired
    | PaymentUnsuccessful | ReferenceMismatch | EmailMismatch | AmountMismatch

  // ----- tables -----

  datatype Product = Product(rate: int, unit: int, storeId: int, available: bool, orderCount: int)

  datatype Variant = Variant(productId: int, price: int, units: int)

  /** An order line; `variantId` is 0 for a product without variants. */
  datatype Item = Item(productId: int, variantId: int, quantity: int, price: int, totalPrice: int)

  datatype Order = Order(
    id: nat,
    storeId: int,
    reference: string,
    multiSeller: bool,
    tax: int,
    deliveryCharge: real,
    discount: int,
    items: seq<Item>,
    totalItems: int,
    total: int,
    grandTotal: int)

  /** Orders are listed as committed; a new order gets the id after the last one's. */
  datatype Db = Db(
    products: map<int, Product>,
    variants: map<int, Variant>,
    stores: set<int>,
    orders: seq<Order>)

  // ----- requests -----

  /** A store id as sent: no field at all, `null`, or an id. The first two read the same, but compare apart. */
  datatype StoreRef = Absent | Null | Id(value: int)

  /**
   A cart line as sent. `variantId` and `camelVariantId` are the fields `variant_id` and `variantId`;
   a quantity that is no whole number is any quantity below 1.
   */
  datatype CartItem = CartItem(
    productId: int,
    variantId: Option<int>,
    camelVariantId: Option<int>,
    storeId: StoreRef,
    quantity: int)

  datatype StoreCharge = StoreCharge(storeId: int, amount: int)

  datatype Discount = Scalar(amount: int) | PerStore(entries: seq<StoreCharge>)

  /** The decoded delivery token; `storeCount` and `exp` are 0 when absent. */
  datatype Token = Token(
    amount: int,
    tax: int,
    discount: Discount,
    deliveryCharges: Option<seq<StoreCharge>>,
    storeCount: nat,
    isGuest: Option<bool>,
    addressId: string,
    exp: int)

  /**
   One `createGuestOrder` call: the form, the decoded token, and what the payment provider says of
   the reference (`None` when asking failed). Absent texts are "".
   */
  datatype Request = Request(
    email: string,
    formComplete: bool,
    addressId: string,
    cart: seq<CartItem>,
    reference: string,
    token: Option<Token>,
    checkExpiry: bool,
    now: int,
    payment: Option<PaymentData>)

  // ----- pricing -----

  function Truthy(id: Option<int>): int {
    match id
    case Some(v) => v
    case None => 0
  }

  /** The variant a line is priced as: `variant_id ?? variantId`. */
  function PricedVariant(item: CartItem): int {
    if item.variantId.Some? then item.variantId.value else Truthy(item.camelVariantId)
  }

  /** The variant a line is ordered as: `variant_id` alone. */
  function OrderedVariant(item: CartItem): int {
    Truthy(item.variantId)
  }

  function UnitPrice(db: Db, item: CartItem): Result<int, Reason> {
    var v := PricedVariant(item);
    if item.quantity < 1 then Err(InvalidQuantity)
    else if item.productId <= 0 then Err(InvalidProduct)
    else if item.productId !in db.products then Err(ProductNotFound)
    else if !db.products[item.productId].available then Err(ProductUnavailable)
    else if v == 0 then Ok(db.products[item.productId].rate)
    else if v !in db.variants then Err(VariantNotFound)
    else if db.variants[v].productId != item.productId then Err(VariantMismatch)
    else Ok(db.variants[v].price)
  }

  function PriceLines(db: Db, subtotal: int, cart: seq<CartItem>): Result<int, Reason>
    decreases |cart|
  {
    if cart == [] then Ok(subtotal)
    else
      var price :- UnitPrice(db, cart[0]);
      PriceLines(db, subtotal + price * cart[0].quantity, cart[1..])
  }

  /** `calculateGuestCartSubtotalNaira`, in kobo. */
  function CartSubtotal(db: Db, cart: seq<CartItem>): Result<int, Reason> {
    if cart == [] then Err(NoProducts) else PriceLines(db, 0, cart)
  }

  function StoreAmount(): StoreCharge -> int {
    (e: StoreCharge) => e.amount
  }

  function DiscountTotal(d: Discount): int {
    match d
    case Scalar(amount) => amount
    case PerStore(entries) => SumBy(entries, StoreAmount())
  }

  /** The balance before it is cut at zero. */
  function Balance(subtotal: int, token: Token): int {
    subtotal + token.amount + token.tax - DiscountTotal(token.discount)
  }

  function ExpectedKobo(db: Db, cart: seq<CartItem>, token: Token): Result<int, Reason> {
    var subtotal :- CartSubtotal(db, cart);
    var total := Balance(subtotal, token);
    Ok(if total < 0 then 0 else total)
  }

  // ----- checks -----

  function BasicCheck(req: Request): Result<Token, Reason> {
    if req.cart == [] then Err(NoProducts)
    else if req.email == "" || !req.formComplete then Err(FormIncomplete)
    else if req.reference == "" then Err(ReferenceMissing)
    else if req.token.None? then Err(TokenInvalid)
    else
      var token := req.token.value;
      if token.isGuest == Some(false) then Err(NotAGuestToken)
      else if req.addressId != "" && token.addressId != req.addressId then Err(AddressMismatch)
      else if req.checkExpiry && token.exp != 0 && token.exp < req.now then Err(TokenExpired)
      else Ok(token)
  }

  /** `assertVerifiedPaymentData`. */
  function PaymentGate(
      payment: Option<PaymentData>, reference: string, expected: int, email: string): Result<(), Reason>
  {
    if payment.None? || !payment.value.success then Err(PaymentUnsuccessful)
    else if payment.value.reference != "" && payment.value.reference != reference then Err(ReferenceMismatch)
    else if payment.value.email.None? || Lower(payment.value.email.value) != Lower(email) then Err(EmailMismatch)
    else if payment.value.amountKobo != expected then Err(AmountMismatch)
    else Ok(())
  }

  // ----- grouping -----

  datatype Line = Line(productId: int, variantId: int, quantity: int)

  datatype Group = Group(storeId: int, lines: seq<Line>)

  function LineOf(item: CartItem): Line {
    Line(item.productId, OrderedVariant(item), item.quantity)
  }

  function StoreOf(db: Db, item: CartItem): Result<int, Reason> {
    if item.productId !in db.products then Err(ProductNotFound)
    else
      var product := db.products[item.productId];
      if !product.available then Err(ProductUnavailable)
      else if item.storeId.Id? && item.storeId.value != product.storeId then Err(WrongStore)
      else Ok(product.storeId)
  }

  /** The insertion-ordered map of groups after one more line of a store. */
  function AddLine(groups: seq<Group>, storeId: int, line: Line): seq<Group> {
    if groups == [] then [Group(storeId, [line])]
    else if groups[0].storeId == storeId then [Group(storeId, groups[0].lines + [line])] + groups[1..]
    else [groups[0]] + AddLine(groups[1..], storeId, line)
  }

  function GroupLines(db: Db, groups: seq<Group>, cart: seq<CartItem>): Result<seq<Group>, Reason>
    decreases |cart|
  {
    if cart == [] then Ok(groups)
    else
      var storeId :- StoreOf(db, cart[0]);
      GroupLines(db, AddLine(groups, storeId, LineOf(cart[0])), cart[1..])
  }

  // ----- order lines and stock -----

  datatype Placed = Placed(db: Db, items: seq<Item>)

  /** Takes one line off the product's stock, or says why not. */
  function TakeProduct(db: Db, line: Line): Result<Db, Reason> {
    if line.quantity < 1 then Err(InvalidQuantity)
    else if line.productId !in db.products then Err(ProductNotFound)
    else
      var p := db.products[line.productId];
      if !p.available then Err(ProductUnavailable)
      else if p.unit < line.quantity then Err(OutOfStock)
      else
        Ok(db.(products := db.products[line.productId :=
                 p.(unit := p.unit - line.quantity, orderCount := p.orderCount + 1)]))
  }

  /** Takes one line off the variant's stock, when it names one. */
  function TakeVariant(db: Db, line: Line): Result<Db, Reason> {
    if line.variantId == 0 then Ok(db)
    else if line.variantId !in db.variants then Err(VariantNotFound)
    else
      var v := db.variants[line.variantId];
      if v.productId != line.productId then Err(VariantMismatch)
      else if v.units < line.quantity then Err(OutOfStock)
      else Ok(db.(variants := db.variants[line.variantId := v.(units := v.units - line.quantity)]))
  }

  /** The price a line is ordered at. */
  function PriceAt(db: Db, line: Line): int {
    if line.variantId != 0 && line.variantId in db.variants then db.variants[line.variantId].price
    else if line.variantId == 0 && line.productId in db.products then db.products[line.productId].rate
    else 0
  }

  function ItemOf(db: Db, line: Line): Item {
    Item(line.productId, line.variantId, line.quantity, PriceAt(db, line), PriceAt(db, line) * line.quantity)
  }

  function TakeLine(db: Db, line: Line): Result<Db, Reason> {
    var db1 :- TakeProduct(db, line);
    TakeVariant(db1, line)
  }

  function PlaceLines(db: Db, items: seq<Item>, lines: seq<Line>): Result<Placed, Reason>
    decreases |lines|
  {
    if lines == [] then Ok(Placed(db, items))
    else
      var next :- TakeLine(db, lines[0]);
      PlaceLines(next, items + [ItemOf(db, lines[0])], lines[1..])
  }

  // ----- orders -----

  function ChargeFor(entries: seq<StoreCharge>, storeId: int): int {
    if entries == [] then 0
    else if entries[0].storeId == storeId then entries[0].amount
    else ChargeFor(entries[1..], storeId)
  }

  function DeliveryShare(token: Token, storeId: int): real {
    match token.deliveryCharges
    case Some(entries) => ChargeFor(entries, storeId) as real
    case None => token.amount as real / (if token.storeCount == 0 then 1 else token.storeCount) as real
  }

  function DiscountShare(token: Token, storeId: int): int {
    match token.discount
    case PerStore(entries) => ChargeFor(entries, storeId)
    case Scalar(amount) => amount
  }

  function ItemTotal(): Item -> int {
    (i: Item) => i.totalPrice
  }

  function ItemQuantity(): Item -> int {
    (i: Item) => i.quantity
  }

  function NewOrder(
      id: nat, storeId: int, reference: string, multiSeller: bool, token: Token, items: seq<Item>): Order
  {
    var total := SumBy(items, ItemTotal());
    Order(id, storeId, reference, multiSeller, token.tax, DeliveryShare(token, storeId), DiscountShare(token, storeId),
          items, SumBy(items, ItemQuantity()), total, total - DiscountShare(token, storeId) + token.tax)
  }

  function LastId(orders: seq<Order>): nat {
    if orders == [] then 0 else orders[|orders| - 1].id
  }

  function PlaceGroup(db: Db, reference: string, multiSeller: bool, token: Token, group: Group): Result<Db, Reason> {
    var placed :- PlaceLines(db, [], group.lines);
    if group.storeId !in db.stores then Err(StoreNotFound)
    else
      var order := NewOrder(LastId(db.orders) + 1, group.storeId, reference, multiSeller, token, placed.items);
      Ok(placed.db.(orders := db.orders + [order]))
  }

  function PlaceGroups(
      db: Db, reference: string, multiSeller: bool, token: Token, groups: seq<Group>): Result<Db, Reason>
    decreases |groups|
  {
    if groups == [] then Ok(db)
    else
      var next :- PlaceGroup(db, reference, multiSeller, token, groups[0]);
      PlaceGroups(next, reference, multiSeller, token, groups[1..])
  }

  /** The `is_multi_seller` flag, computed from the store ids as sent. */
  predicate MultiSeller(cart: seq<CartItem>) {
    |set item | item in cart :: item.storeId| > 1
  }

  /** The orders under a payment reference, oldest first. */
  function OrdersOf(orders: seq<Order>, reference: string): seq<Order> {
    Filter(orders, HasReference(reference))
  }

  function HasReference(reference: string): Order -> bool {
    (o: Order) => o.reference == reference
  }

  /** The transaction: everything the call checks and writes once no order exists for the reference. */
  function Commit(db: Db, req: Request): Result<Db, Reason> {
    var token :- BasicCheck(req);
    var expected :- ExpectedKobo(db, req.cart, token);
    var _ :- PaymentGate(req.payment, req.reference, expected, req.email);
    var groups :- GroupLines(db, [], req.cart);
    PlaceGroups(db, req.reference, MultiSeller(req.cart), token, groups)
  }

  datatype Outcome = Outcome(db: Db, result: Result<seq<Order>, Reason>)

  /** `createGuestOrder`. */
  function Create(db: Db, req: Request): Outcome {
    var existing := OrdersOf(db.orders, req.reference);
    if existing != [] then Outcome(db, Ok(existing))
    else
      match Commit(db, req)
      case Err(e) => Outcome(db, Err(e))
      case Ok(next) => Outcome(next, Ok(if |db.orders| <= |next.orders| then next.orders[|db.orders|..] else []))
  }
}
