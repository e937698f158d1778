/** The delivery service as an object over its tables, each method proved against its function. */
module DeliveryServices {
  import opened Delivery
  import opened DeliveryInvariants

  /** What every call owes its caller. */
  lemma Specified(s: State, c: Call)
    requires Invariant(s)
    ensures Invariant(Step(s, c))
    ensures Apply(s, c).Some? <==> Granted(s, c)
    ensures Granted(s, c) ==> Changes(s, c, Step(s, c))
  {
    hide Apply;
    hide Granted;
    hide Changes;
    StepKeepsInvariant(s, c);
    GrantedExactly(s, c);
    if Apply(s, c).Some? { ChangesExactly(s, c); }
  }

  class DeliveryService {
    var drivers: set<int>
    var companies: set<int>
    var invitations: seq<Invitation>
    var orders: map<int, Order>
    var links: seq<Link>

    function Model(): State
      reads this
    {
      State(drivers, companies, invitations, orders, links)
    }

    ghost predicate Valid()
      reads this
    {
      Invariant(Model())
    }

    constructor (drivers: set<int>, companies: set<int>, orders: map<int, Order>)
      requires 0 !in companies
      ensures Valid() && Model() == State(drivers, companies, [], orders, [])
    {
      this.drivers, this.companies, this.orders := drivers, companies, orders;
      invitations, links := [], [];
    }

    method SendInvitation(driver: int, company: int, sender: Initiator) returns (ok: bool)
      requires Valid()
      modifies this
      ensures Valid() && Model() == Step(old(Model()), Send(driver, company, sender))
      ensures ok <==> Granted(old(Model()), Send(driver, company, sender))
      ensures ok ==> Changes(old(Model()), Send(driver, company, sender), Model())
    {
      Specified(Model(), Send(driver, company, sender));
      if driver !in drivers { return false; }
      if sender == ByDriver && HasAccepted(invitations, driver) { return false; }
      if company !in companies { return false; }
      if HasActive(invitations, driver, company) { return false; }
      invitations := invitations + [Invitation(driver, company, sender, Pending)];
      ok := true;
    }

    method AcceptInvitation(id: nat) returns (ok: bool)
      requires Valid()
      modifies this
      ensures Valid() && Model() == Step(old(Model()), Accept(id))
      ensures ok <==> Granted(old(Model()), Accept(id))
      ensures ok ==> Changes(old(Model()), Accept(id), Model())
      ensures old(OneEmployer(invitations)) ==> OneEmployer(invitations)
    {
      Specified(Model(), Accept(id));
      if id >= |invitations| { return false; }
      var invitation := invitations[id];
      if invitation.status != Pending { return false; }
      AcceptKeepsOneEmployerIf(Model(), id);
      invitations := invitations[id := invitation.(status := Accepted)];
      invitations := CancelOthers(invitations, invitation.driver, id);
      ok := true;
    }

    method RejectInvitation(id: nat) returns (ok: bool)
      requires Valid()
      modifies this
      ensures Valid() && Model() == Step(old(Model()), Reject(id))
      ensures ok <==> Granted(old(Model()), Reject(id))
      ensures ok ==> Changes(old(Model()), Reject(id), Model())
    {
      Specified(Model(), Reject(id));
      if id >= |invitations| { return false; }
      var invitation := invitations[id];
      if invitation.status != Pending { return false; }
      invitations := invitations[id := invitation.(status := Rejected)];
      ok := true;
    }

    /** `linked` is the number of drivers the order was offered to. */
    method AcceptOrder(order: int, company: int) returns (ok: bool, linked: nat)
      requires Valid()
      modifies this
      ensures Valid() && Model() == Step(old(Model()), Take(order, company))
      ensures ok <==> Granted(old(Model()), Take(order, company))
      ensures ok ==> Changes(old(Model()), Take(order, company), Model())
      ensures |links| == |old(links)| + linked
    {
      Specified(Model(), Take(order, company));
      linked := 0;
      if order !in orders { return false, 0; }
      if orders[order].company != 0 { return false, 0; }
      var driverIds := CompanyDrivers(invitations, company);
      orders := orders[order := orders[order].(company := company, status := OutForDelivery)];
      var driverOrderLinks := NewLinks(driverIds, order);
      if |driverOrderLinks| > 0 {
        links := links + driverOrderLinks;
      }
      ok, linked := true, |driverIds|;
      assert links == old(links) + driverOrderLinks;
    }

    method ConfirmPickup(order: int, company: int, driver: int, code: string) returns (ok: bool)
      requires Valid()
      modifies this
      ensures Valid() && Model() == Step(old(Model()), Pickup(order, company, driver, code))
      ensures ok <==> Granted(old(Model()), Pickup(order, company, driver, code))
      ensures ok ==> Changes(old(Model()), Pickup(order, company, driver, code), Model())
      ensures ok ==> order in orders && orders[order].status == PickedUp && Link(driver, order, InTransit) in links
    {
      Specified(Model(), Pickup(order, company, driver, code));
      if order !in orders || orders[order].company != company { return false; }
      if orders[order].pickupCode != code { return false; }
      if orders[order].status == PickedUp { return false; }
      if !Employs(Model(), company, driver) { return false; }
      var driverOrder := FindLink(links, driver, order);
      if driverOrder.None? { return false; }
      orders := orders[order := orders[order].(status := PickedUp)];
      links := links[driverOrder.value := links[driverOrder.value].(assignment := InTransit)];
      links := UnassignOthers(links, order, driver);
      assert links[driverOrder.value] == Link(driver, order, InTransit);
      ok := true;
    }

    /** The whole call without interleaving; its separate writes are moves in `DeliveryRaces`. */
    method DriverSelectOrder(driver: int, order: int) returns (ok: bool)
      requires Valid()
      modifies this
      ensures Valid() && Model() == Step(old(Model()), Select(driver, order))
      ensures ok <==> Granted(old(Model()), Select(driver, order))
      ensures ok ==> Changes(old(Model()), Select(driver, order), Model())
      ensures ok ==> Link(driver, order, InTransit) in links && orders == old(orders)
    {
      Specified(Model(), Select(driver, order));
      var driverOrder := FindLink(links, driver, order);
      if driverOrder.None? { return false; }
      if order !in orders { return false; }
      var existing := FindInTransit(links, order);
      if existing.Some? && links[existing.value].driver != driver { return false; }
      links := links[driverOrder.value := links[driverOrder.value].(assignment := InTransit)];
      links := UnassignOthers(links, order, driver);
      assert links[driverOrder.value] == Link(driver, order, InTransit);
      ok := true;
    }

    method ConfirmDelivery(order: int, driver: int, otp: string) returns (ok: bool)
      requires Valid()
      modifies this
      ensures Valid() && Model() == Step(old(Model()), Deliver(order, driver, otp))
      ensures ok <==> Granted(old(Model()), Deliver(order, driver, otp))
      ensures ok ==> Changes(old(Model()), Deliver(order, driver, otp), Model())
      ensures ok ==> order in orders && orders[order].status == Delivered && Link(driver, order, HandedOver) in links
    {
      Specified(Model(), Deliver(order, driver, otp));
      var driverOrder := FindCarrying(links, driver, order);
      if driverOrder.None? { return false; }
      if order !in orders { return false; }
      if orders[order].status == Delivered { return false; }
      if orders[order].status != PickedUp { return false; }
      if orders[order].otp != otp { return false; }
      orders := orders[order := orders[order].(status := Delivered)];
      links := links[driverOrder.value := links[driverOrder.value].(assignment := HandedOver)];
      assert links[driverOrder.value] == Link(driver, order, HandedOver);
      ok := true;
    }
  }

  lemma AcceptKeepsOneEmployerIf(s: State, id: nat)
    requires IsPending(s, id)
    ensures OneEmployer(s.invitations) ==> OneEmployer(Delivery.AcceptInvitation(s, id).value.invitations)
  {
    if OneEmployer(s.invitations) {
      AcceptKeepsOneEmployer(s, id);
    }
  }
}
