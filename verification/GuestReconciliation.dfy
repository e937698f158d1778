/** Reconciling paid guest checkouts, one at a time and in bulk, by replaying them as orders. */
module GuestReconciliation {
  import opened Outcomes
  import opened Sequences
  import opened Payments
  import opened GuestOrders

  datatype CheckoutStatus = Initialized | Processing | Failed | Completed | OtherStatus

  /** The stored request of a checkout; an absent payment reference or address id is "". */
  datatype Payload = Payload(
    email: string,
    formComplete: bool,
    addressId: string,
    cart: seq<CartItem>,
    reference: string,
    deliveryCharge: Option<int>,
    deliveryFee: Option<int>,
    discount: int,
    tax: int)

  /** `payload` is `None` when it holds no cart; `orderIds` is what a completion recorded. */
  datatype Checkout = Checkout(
    reference: string,
    paid: bool,
    status: CheckoutStatus,
    payload: Option<Payload>,
    orderIds: seq<nat>)

  /** Checkouts are listed oldest first and known by their position. */
  datatype Shop = Shop(db: Db, checkouts: seq<Checkout>)

  /** What the payment gateways answer, for the references they verify. */
  type Provider = map<string, PaymentData>

  function PaymentReference(c: Checkout): string {
    if c.payload.Some? && c.payload.value.reference != "" then c.payload.value.reference else c.reference
  }

  /** The delivery charges a replay trusts, taken from the stored request. */
  function ReplayToken(p: Payload): Token {
    var amount :=
      if p.deliveryCharge.Some? then p.deliveryCharge.value
      else if p.deliveryFee.Some? then p.deliveryFee.value else 0;
    Token(amount, p.tax, Scalar(p.discount), None, 0, Some(true), p.addressId, 0)
  }

  function ReplayRequest(p: Payload, reference: string, payment: PaymentData): Request {
    Request(p.email, p.formComplete, p.addressId, p.cart, reference, Some(ReplayToken(p)), false, 0, Some(payment))
  }

  function NonZero(): nat -> bool {
    (id: nat) => id != 0
  }

  function AllIds(orders: seq<Order>): (r: seq<nat>)
    ensures |r| == |orders| && forall i :: 0 <= i < |r| ==> r[i] == orders[i].id
  {
    seq(|orders|, i requires 0 <= i < |orders| => orders[i].id)
  }

  function Ids(orders: seq<Order>): seq<nat> {
    Filter(AllIds(orders), NonZero())
  }

  /** `replayGuestCheckout` and what its callers record when it fails. */
  function Replay(shop: Shop, i: nat, req: Request): Shop
    requires i < |shop.checkouts|
  {
    var out := Create(shop.db, req);
    var c := shop.checkouts[i];
    match out.result
    case Ok(orders) => Shop(out.db, shop.checkouts[i := c.(status := Completed, orderIds := Ids(orders))])
    case Err(_) => Shop(out.db, shop.checkouts[i := c.(status := Failed)])
  }

  // ----- one checkout -----

  datatype Reply =
    | NotFound
    | NotPaid
    | AlreadyReconciled(orders: seq<Order>)
    | PayloadMissing
    | VerificationFailed
    | Reconciled(orders: seq<Order>)
    | ReplayFailed(reason: Reason)

  datatype Reconciliation = Reconciliation(shop: Shop, reply: Reply)

  /** The create call a reconciliation of checkout `i` comes to, if it gets that far. */
  function ReplayCall(shop: Shop, i: nat, provider: Provider): Option<Request>
    requires i < |shop.checkouts|
  {
    var c := shop.checkouts[i];
    if c.payload.Some? && PaymentReference(c) in provider
    then Some(ReplayRequest(c.payload.value, PaymentReference(c), provider[PaymentReference(c)]))
    else None
  }

  function Reconcile(shop: Shop, id: nat, provider: Provider): Reconciliation {
    if id >= |shop.checkouts| then Reconciliation(shop, NotFound)
    else
      var c := shop.checkouts[id];
      if !c.paid then Reconciliation(shop, NotPaid)
      else if c.status == Completed then Reconciliation(shop, AlreadyReconciled(OrdersOf(shop.db.orders, c.reference)))
      else if c.payload.None? then Reconciliation(shop, PayloadMissing)
      else
        match ReplayCall(shop, id, provider)
        case None => Reconciliation(shop, VerificationFailed)
        case Some(req) =>
          var next := Replay(shop, id, req);
          match Create(shop.db, req).result
          case Ok(orders) => Reconciliation(next, Reconciled(orders))
          case Err(e) => Reconciliation(next, ReplayFailed(e))
  }

  // ----- all checkouts -----

  datatype Action = DidReconcile | DidSkip | DidFail

  datatype Entry = Entry(id: nat, action: Action, orderIds: seq<nat>)

  datatype Visit = Visit(shop: Shop, entry: Entry)

  predicate Pending(c: Checkout) {
    c.paid && c.status != Completed
  }

  /** The positions of the paid checkouts not completed yet, oldest first. */
  function PendingIds(checkouts: seq<Checkout>): seq<nat> {
    if checkouts == [] then []
    else
      var n := |checkouts| - 1;
      if Pending(checkouts[n]) then PendingIds(checkouts[..n]) + [n] else PendingIds(checkouts[..n])
  }

  /** The references that have orders when the bulk run starts. */
  function KnownReferences(db: Db): set<string> {
    set o | o in db.orders && o.reference != "" :: o.reference
  }

  function VisitOne(shop: Shop, known: set<string>, provider: Provider, i: nat): Visit
    requires i < |shop.checkouts|
  {
    var c := shop.checkouts[i];
    if c.reference in known || c.payload.None? then Visit(shop, Entry(i, DidSkip, []))
    else
      match ReplayCall(shop, i, provider)
      case None => Visit(shop.(checkouts := shop.checkouts[i := c.(status := Failed)]), Entry(i, DidFail, []))
      case Some(req) =>
        var next := Replay(shop, i, req);
        match Create(shop.db, req).result
        case Ok(orders) => Visit(next, Entry(i, DidReconcile, Ids(orders)))
        case Err(_) => Visit(next, Entry(i, DidFail, []))
  }

  datatype Bulk = Bulk(shop: Shop, results: seq<Entry>)

  function VisitAll(shop: Shop, known: set<string>, provider: Provider, todo: seq<nat>, results: seq<Entry>): Bulk
    requires forall k :: 0 <= k < |todo| ==> todo[k] < |shop.checkouts|
    decreases |todo|
  {
    if todo == [] then Bulk(shop, results)
    else
      var visit := VisitOne(shop, known, provider, todo[0]);
      VisitAll(visit.shop, known, provider, todo[1..], results + [visit.entry])
  }

  lemma {:induction false} PendingIdsAre(checkouts: seq<Checkout>)
    ensures forall k :: 0 <= k < |PendingIds(checkouts)| ==> PendingIds(checkouts)[k] < |checkouts|
    ensures forall i: nat :: i in PendingIds(checkouts) <==> i < |checkouts| && Pending(checkouts[i])
    ensures Increasing(PendingIds(checkouts))
  {
    if checkouts != [] {
      var n := |checkouts| - 1;
      PendingIdsAre(checkouts[..n]);
      assert forall i :: 0 <= i < n ==> checkouts[..n][i] == checkouts[i];
      var before := PendingIds(checkouts[..n]);
      assert forall k :: 0 <= k < |before| ==> before[k] in before;
    }
  }

  function ReconcileAll(shop: Shop, provider: Provider): Bulk {
    PendingIdsAre(shop.checkouts);
    VisitAll(shop, KnownReferences(shop.db), provider, PendingIds(shop.checkouts), [])
  }

  // ----- events -----

  datatype Event =
    | CreateCall(req: Request)
    | ReconcileCall(id: nat, provider: Provider)
    | BulkCall(provider: Provider)

  function Step(shop: Shop, e: Event): Shop {
    match e
    case CreateCall(req) => shop.(db := Create(shop.db, req).db)
    case ReconcileCall(id, provider) => Reconcile(shop, id, provider).shop
    case BulkCall(provider) => ReconcileAll(shop, provider).shop
  }

  function Run(shop: Shop, events: seq<Event>): Shop
    decreases |events|
  {
    if events == [] then shop else Run(Step(shop, events[0]), events[1..])
  }
}
