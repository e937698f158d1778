/**
 Delivery assignment: invitations between drivers and companies, the status of orders, and the
 links between drivers and orders. Each service call is one function from the tables before it to
 the tables after it, `None` when the call is refused and nothing changes.
 */
module Delivery {
  import opened Outcomes

  datatype InviteStatus = Pending | Accepted | Rejected | Cancelled

  datatype Initiator = ByDriver | ByCompany

  datatype Invitation = Invitation(driver: int, company: int, sender: Initiator, status: InviteStatus)

  datatype OrderStatus = OutForDelivery | PickedUp | Delivered | OtherStatus

  /** `company` is 0 while no delivery company has taken the order. */
  datatype Order = Order(company: int, status: OrderStatus, pickupCode: string, otp: string)

  datatype Assignment = Assigned | InTransit | HandedOver | Unassigned

  datatype Link = Link(driver: int, order: int, assignment: Assignment)

  /** `drivers` and `companies` hold the approved ones; row ids of the sequences are positions. */
  datatype State = State(
    drivers: set<int>,
    companies: set<int>,
    invitations: seq<Invitation>,
    orders: map<int, Order>,
    links: seq<Link>)

  // ----- invitations -----

  predicate Active(v: Invitation) {
    v.status == Pending || v.status == Accepted
  }

  predicate HasAccepted(invitations: seq<Invitation>, driver: int) {
    exists v | v in invitations :: v.driver == driver && v.status == Accepted
  }

  predicate HasActive(invitations: seq<Invitation>, driver: int, company: int) {
    exists v | v in invitations :: v.driver == driver && v.company == company && Active(v)
  }

  /** The flag `getAllDriversForCompany` shows beside each approved driver. */
  predicate CanInvite(s: State, driver: int) {
    !HasAccepted(s.invitations, driver)
  }

  predicate SendAllowed(s: State, driver: int, company: int, sender: Initiator) {
    && driver in s.drivers
    && (sender == ByDriver ==> !HasAccepted(s.invitations, driver))
    && company in s.companies
    && !HasActive(s.invitations, driver, company)
  }

  function SendInvitation(s: State, driver: int, company: int, sender: Initiator): Option<State> {
    if SendAllowed(s, driver, company, sender)
    then Some(s.(invitations := s.invitations + [Invitation(driver, company, sender, Pending)]))
    else None
  }

  /** The bulk update that cancels every other pending invitation of `driver`. */
  function CancelOthers(invitations: seq<Invitation>, driver: int, kept: nat): (r: seq<Invitation>)
    ensures |r| == |invitations|
    ensures forall i :: 0 <= i < |r| ==>
              r[i] == if invitations[i].driver == driver && i != kept && invitations[i].status == Pending
                      then invitations[i].(status := Cancelled) else invitations[i]
  {
    seq(|invitations|, i requires 0 <= i < |invitations| =>
      if invitations[i].driver == driver && i != kept && invitations[i].status == Pending
      then invitations[i].(status := Cancelled) else invitations[i])
  }

  predicate IsPending(s: State, id: nat) {
    id < |s.invitations| && s.invitations[id].status == Pending
  }

  function AcceptInvitation(s: State, id: nat): Option<State> {
    if IsPending(s, id) then
      var v := s.invitations[id];
      Some(s.(invitations := CancelOthers(s.invitations[id := v.(status := Accepted)], v.driver, id)))
    else None
  }

  function RejectInvitation(s: State, id: nat): Option<State> {
    if IsPending(s, id)
    then Some(s.(invitations := s.invitations[id := s.invitations[id].(status := Rejected)]))
    else None
  }

  // ----- orders and links -----

  /** The drivers with an accepted invitation of `company`, one entry per invitation. */
  function CompanyDrivers(invitations: seq<Invitation>, company: int): (r: seq<int>)
    ensures forall d :: d in r <==>
              exists v :: v in invitations && v.driver == d && v.company == company && v.status == Accepted
  {
    if invitations == [] then []
    else
      var last := invitations[|invitations| - 1];
      var rest := invitations[..|invitations| - 1];
      assert forall v :: v in invitations <==> v in rest || v == last;
      CompanyDrivers(rest, company)
      + if last.company == company && last.status == Accepted then [last.driver] else []
  }

  function NewLinks(drivers: seq<int>, order: int): (r: seq<Link>)
    ensures |r| == |drivers|
    ensures forall i :: 0 <= i < |r| ==> r[i] == Link(drivers[i], order, Assigned)
  {
    seq(|drivers|, i requires 0 <= i < |drivers| => Link(drivers[i], order, Assigned))
  }

  function AcceptOrder(s: State, order: int, company: int): Option<State> {
    if order in s.orders && s.orders[order].company == 0 then
      Some(s.(orders := s.orders[order := s.orders[order].(company := company, status := OutForDelivery)],
              links := s.links + NewLinks(CompanyDrivers(s.invitations, company), order)))
    else None
  }

  predicate Links(l: Link, driver: int, order: int) {
    l.driver == driver && l.order == order
  }

  /** The first link between `driver` and `order`. */
  function FindLink(links: seq<Link>, driver: int, order: int): (r: Option<nat>)
    ensures r.Some? ==> r.value < |links| && Links(links[r.value], driver, order)
    ensures r.None? ==> forall l :: l in links ==> !Links(l, driver, order)
  {
    if links == [] then None
    else if Links(links[0], driver, order) then Some(0)
    else
      match FindLink(links[1..], driver, order)
      case None => None
      case Some(i) => Some(i + 1)
  }

  /** The bulk update that unassigns every driver but one from an order. */
  function UnassignOthers(links: seq<Link>, order: int, driver: int): (r: seq<Link>)
    ensures |r| == |links|
    ensures forall i :: 0 <= i < |r| ==>
              r[i] == if links[i].order == order && links[i].driver != driver
                      then links[i].(assignment := Unassigned) else links[i]
  {
    seq(|links|, i requires 0 <= i < |links| =>
      if links[i].order == order && links[i].driver != driver
      then links[i].(assignment := Unassigned) else links[i])
  }

  /** Link `k` goes in transit and everyone else is taken off its order. */
  function TakeOver(links: seq<Link>, k: nat): (r: seq<Link>)
    requires k < |links|
    ensures |r| == |links|
  {
    UnassignOthers(links[k := links[k].(assignment := InTransit)], links[k].order, links[k].driver)
  }

  predicate Employs(s: State, company: int, driver: int) {
    exists v | v in s.invitations :: v.driver == driver && v.company == company && v.status == Accepted
  }

  predicate PickupAllowed(s: State, order: int, company: int, driver: int, code: string) {
    && order in s.orders
    && s.orders[order].company == company
    && s.orders[order].pickupCode == code
    && s.orders[order].status != PickedUp
    && Employs(s, company, driver)
    && FindLink(s.links, driver, order).Some?
  }

  function ConfirmPickup(s: State, order: int, company: int, driver: int, code: string): Option<State> {
    if PickupAllowed(s, order, company, driver, code) then
      Some(s.(orders := s.orders[order := s.orders[order].(status := PickedUp)],
              links := TakeOver(s.links, FindLink(s.links, driver, order).value)))
    else None
  }

  /** The first link of `order` that is in transit. */
  function FindInTransit(links: seq<Link>, order: int): (r: Option<nat>)
    ensures r.Some? ==> r.value < |links| && links[r.value].order == order && links[r.value].assignment == InTransit
    ensures r.None? ==> forall l :: l in links ==> l.order != order || l.assignment != InTransit
  {
    if links == [] then None
    else if links[0].order == order && links[0].assignment == InTransit then Some(0)
    else
      match FindInTransit(links[1..], order)
      case None => None
      case Some(i) => Some(i + 1)
  }

  /** The reads `driverSelectOrder` makes before its two writes. */
  predicate SelectAllowed(s: State, driver: int, order: int) {
    && FindLink(s.links, driver, order).Some?
    && order in s.orders
    && var current := FindInTransit(s.links, order);
       current.Some? ==> s.links[current.value].driver == driver
  }

  function DriverSelectOrder(s: State, driver: int, order: int): Option<State> {
    if SelectAllowed(s, driver, order)
    then Some(s.(links := TakeOver(s.links, FindLink(s.links, driver, order).value)))
    else None
  }

  /** The first link between `driver` and `order` that is in transit. */
  function FindCarrying(links: seq<Link>, driver: int, order: int): (r: Option<nat>)
    ensures r.Some? ==> r.value < |links| && links[r.value] == Link(driver, order, InTransit)
    ensures r.None? ==> Link(driver, order, InTransit) !in links
  {
    if links == [] then None
    else if links[0] == Link(driver, order, InTransit) then Some(0)
    else
      match FindCarrying(links[1..], driver, order)
      case None => None
      case Some(i) => Some(i + 1)
  }

  predicate DeliveryAllowed(s: State, order: int, driver: int, otp: string) {
    && FindCarrying(s.links, driver, order).Some?
    && order in s.orders
    && s.orders[order].status == PickedUp
    && s.orders[order].otp == otp
  }

  function ConfirmDelivery(s: State, order: int, driver: int, otp: string): Option<State> {
    if DeliveryAllowed(s, order, driver, otp) then
      var k := FindCarrying(s.links, driver, order).value;
      Some(s.(orders := s.orders[order := s.orders[order].(status := Delivered)],
              links := s.links[k := s.links[k].(assignment := HandedOver)]))
    else None
  }

  // ----- calls and runs -----

  datatype Call =
    | Send(driver: int, company: int, sender: Initiator)
    | Accept(id: nat)
    | Reject(id: nat)
    | Take(order: int, company: int)
    | Pickup(order: int, company: int, driver: int, code: string)
    | Select(driver: int, order: int)
    | Deliver(order: int, driver: int, otp: string)

  function Apply(s: State, c: Call): Option<State> {
    match c
    case Send(driver, company, sender) => SendInvitation(s, driver, company, sender)
    case Accept(id) => AcceptInvitation(s, id)
    case Reject(id) => RejectInvitation(s, id)
    case Take(order, company) => AcceptOrder(s, order, company)
    case Pickup(order, company, driver, code) => ConfirmPickup(s, order, company, driver, code)
    case Select(driver, order) => DriverSelectOrder(s, driver, order)
    case Deliver(order, driver, otp) => ConfirmDelivery(s, order, driver, otp)
  }

  function Step(s: State, c: Call): State {
    match Apply(s, c)
    case Some(next) => next
    case None => s
  }

  function Run(s: State, calls: seq<Call>): State
    decreases |calls|
  {
    if calls == [] then s else Run(Step(s, calls[0]), calls[1..])
  }
}
