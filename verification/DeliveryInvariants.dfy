/** What every run of the delivery calls keeps. */
module DeliveryInvariants {
  import opened Sequences
  import opened Delivery

  // ----- one live invitation per driver and company -----

  ghost predicate OneActive(invitations: seq<Invitation>) {
    forall i, j :: 0 <= i < j < |invitations| && Active(invitations[i]) && Active(invitations[j]) ==>
      invitations[i].driver != invitations[j].driver || invitations[i].company != invitations[j].company
  }

  /** With one active invitation per pair, no driver is listed twice for a company. */
  lemma {:induction false} CompanyDriversDistinct(invitations: seq<Invitation>, company: int)
    requires OneActive(invitations)
    ensures NoDup(CompanyDrivers(invitations, company))
  {
    if invitations != [] {
      var n := |invitations| - 1;
      var last, rest := invitations[n], invitations[..n];
      CompanyDriversDistinct(rest, company);
      forall v | v in rest && Active(v) && Active(last)
        ensures v.driver != last.driver || v.company != last.company
      {
        var i :| 0 <= i < n && invitations[i] == v;
      }
      assert last.company == company && last.status == Accepted ==> last.driver !in CompanyDrivers(rest, company);
    }
  }

  // ----- links -----

  /** A driver is linked to an order at most once. */
  ghost predicate UniqueLinks(links: seq<Link>) {
    forall i, j :: 0 <= i < j < |links| ==> links[i].driver != links[j].driver || links[i].order != links[j].order
  }

  /** Only orders some company has taken are linked. */
  ghost predicate TakenOrders(s: State) {
    forall l :: l in s.links ==> l.order in s.orders && s.orders[l.order].company != 0
  }

  predicate Carried(l: Link) {
    l.assignment == InTransit || l.assignment == HandedOver
  }

  /** Once a driver carries or has delivered an order, every other link of it is unassigned. */
  ghost predicate ExclusiveLinks(links: seq<Link>) {
    forall i, j :: 0 <= i < |links| && 0 <= j < |links| && i != j
                   && links[i].order == links[j].order && Carried(links[i]) ==>
      links[j].assignment == Unassigned
  }

  /** The part of the invariant that interleaved writes keep as well. */
  ghost predicate Sound(s: State) {
    && OneActive(s.invitations)
    && 0 !in s.companies
    && (forall v :: v in s.invitations ==> v.company != 0)
    && UniqueLinks(s.links)
    && TakenOrders(s)
  }

  ghost predicate Invariant(s: State) {
    Sound(s) && ExclusiveLinks(s.links)
  }

  // ----- effects, stated without the functions' bodies -----

  /** What taking an order over means: one link in transit, the rest of the order unassigned, other orders untouched. */
  lemma TakeOverEffect(links: seq<Link>, k: nat)
    requires k < |links| && UniqueLinks(links)
    ensures TakeOver(links, k)[k] == links[k].(assignment := InTransit)
    ensures forall i :: 0 <= i < |links| && i != k && links[i].order == links[k].order ==>
              TakeOver(links, k)[i] == links[i].(assignment := Unassigned)
    ensures forall i :: 0 <= i < |links| && links[i].order != links[k].order ==> TakeOver(links, k)[i] == links[i]
    ensures UniqueLinks(TakeOver(links, k))
  {
    var r := TakeOver(links, k);
    forall i | 0 <= i < |links| && i != k && links[i].order == links[k].order
      ensures r[i] == links[i].(assignment := Unassigned)
    {
      if i < k { assert links[i].driver != links[k].driver; } else { assert links[k].driver != links[i].driver; }
    }
  }

  lemma TakeOverExclusive(links: seq<Link>, k: nat)
    requires k < |links| && UniqueLinks(links) && ExclusiveLinks(links)
    ensures ExclusiveLinks(TakeOver(links, k))
  {
    TakeOverEffect(links, k);
  }

  // ----- every call keeps the invariant -----

  lemma SendKeeps(s: State, driver: int, company: int, sender: Initiator)
    requires Sound(s) && SendInvitation(s, driver, company, sender).Some?
    ensures Sound(SendInvitation(s, driver, company, sender).value)
  {
  }

  lemma AcceptKeeps(s: State, id: nat)
    requires Sound(s) && AcceptInvitation(s, id).Some?
    ensures Sound(AcceptInvitation(s, id).value)
  {
    var r := AcceptInvitation(s, id).value.invitations;
    forall i | 0 <= i < |r|
      ensures r[i].driver == s.invitations[i].driver && r[i].company == s.invitations[i].company
      ensures Active(r[i]) ==> Active(s.invitations[i])
      ensures s.invitations[i] in s.invitations
    {
    }
  }

  lemma RejectKeeps(s: State, id: nat)
    requires Sound(s) && RejectInvitation(s, id).Some?
    ensures Sound(RejectInvitation(s, id).value)
  {
    var r := RejectInvitation(s, id).value.invitations;
    forall i | 0 <= i < |r| ensures r[i].company != 0 {
      assert s.invitations[i] in s.invitations;
    }
  }

  lemma TakeKeeps(s: State, order: int, company: int)
    requires Sound(s) && AcceptOrder(s, order, company).Some?
    ensures Sound(AcceptOrder(s, order, company).value)
    ensures ExclusiveLinks(s.links) ==> ExclusiveLinks(AcceptOrder(s, order, company).value.links)
  {
    var s' := AcceptOrder(s, order, company).value;
    var drivers := CompanyDrivers(s.invitations, company);
    var n := |s.links|;
    CompanyDriversDistinct(s.invitations, company);
    assert forall i :: 0 <= i < n ==> s.links[i] in s.links;
    forall i | 0 <= i < |s'.links|
      ensures i < n ==> s'.links[i] == s.links[i] && s'.links[i].order != order
      ensures i >= n ==> s'.links[i] == Link(drivers[i - n], order, Assigned)
    {
    }
    assert drivers != [] ==> drivers[0] in drivers;
    forall l | l in s'.links ensures l.order in s'.orders && s'.orders[l.order].company != 0 {
    }
  }

  lemma MoveKeeps(s: State, k: nat, s': State)
    requires Sound(s) && k < |s.links|
    requires s'.links == TakeOver(s.links, k)
    requires s'.invitations == s.invitations && s'.companies == s.companies
    requires forall o :: o in s.orders ==> o in s'.orders && s'.orders[o].company == s.orders[o].company
    ensures Sound(s')
  {
    TakeOverEffect(s.links, k);
    forall l | l in s'.links ensures l.order in s'.orders && s'.orders[l.order].company != 0 {
      var i :| 0 <= i < |s'.links| && s'.links[i] == l;
      assert s.links[i] in s.links && l.order == s.links[i].order;
    }
  }

  lemma DeliverKeeps(s: State, order: int, driver: int, otp: string)
    requires Sound(s) && ConfirmDelivery(s, order, driver, otp).Some?
    ensures Sound(ConfirmDelivery(s, order, driver, otp).value)
    ensures ExclusiveLinks(s.links) ==> ExclusiveLinks(ConfirmDelivery(s, order, driver, otp).value.links)
  {
    var s' := ConfirmDelivery(s, order, driver, otp).value;
    forall l | l in s'.links ensures l.order in s'.orders && s'.orders[l.order].company != 0 {
      var i :| 0 <= i < |s'.links| && s'.links[i] == l;
      assert s.links[i] in s.links && l.order == s.links[i].order;
    }
  }

  /** Each call keeps links unique and exclusive and invitations single, whether refused or not. */
  lemma StepKeepsInvariant(s: State, c: Call)
    requires Invariant(s)
    ensures Invariant(Step(s, c))
  {
    if Apply(s, c).Some? {
      match c
      case Send(driver, company, sender) => SendKeeps(s, driver, company, sender);
      case Accept(id) => AcceptKeeps(s, id);
      case Reject(id) => RejectKeeps(s, id);
      case Take(order, company) => TakeKeeps(s, order, company);
      case Pickup(order, company, driver, code) =>
        var k := FindLink(s.links, driver, order).value;
        MoveKeeps(s, k, Step(s, c));
        TakeOverExclusive(s.links, k);
      case Select(driver, order) =>
        var k := FindLink(s.links, driver, order).value;
        MoveKeeps(s, k, Step(s, c));
        TakeOverExclusive(s.links, k);
      case Deliver(order, driver, otp) => DeliverKeeps(s, order, driver, otp);
    }
  }

  /** Link exclusivity in every run. */
  lemma {:induction false} RunKeepsInvariant(s: State, calls: seq<Call>)
    requires Invariant(s)
    ensures Invariant(Run(s, calls))
    decreases |calls|
  {
    if calls != [] {
      StepKeepsInvariant(s, calls[0]);
      RunKeepsInvariant(Step(s, calls[0]), calls[1..]);
    }
  }

  // ----- which calls go through, and what they change -----

  predicate Linked(s: State, driver: int, order: int) {
    exists l | l in s.links :: l.driver == driver && l.order == order
  }

  /** What a call needs to go through, said without the reads it makes. */
  ghost predicate Granted(s: State, c: Call) {
    match c
    case Send(driver, company, sender) =>
      && driver in s.drivers && company in s.companies
      && (sender == ByDriver ==> forall v :: v in s.invitations && v.driver == driver ==> v.status != Accepted)
      && (forall v :: v in s.invitations && v.driver == driver && v.company == company ==>
            v.status == Rejected || v.status == Cancelled)
    case Accept(id) => id < |s.invitations| && s.invitations[id].status == Pending
    case Reject(id) => id < |s.invitations| && s.invitations[id].status == Pending
    case Take(order, company) => order in s.orders && s.orders[order].company == 0
    case Pickup(order, company, driver, code) =>
      && order in s.orders && s.orders[order].status != PickedUp
      && company == s.orders[order].company && code == s.orders[order].pickupCode
      && (exists v :: v in s.invitations && v.driver == driver && v.company == company && v.status == Accepted)
      && Linked(s, driver, order)
    case Select(driver, order) =>
      && order in s.orders && Linked(s, driver, order)
      && forall l :: l in s.links && l.order == order && l.assignment == InTransit ==> l.driver == driver
    case Deliver(order, driver, otp) =>
      && order in s.orders && s.orders[order].status == PickedUp
      && otp == s.orders[order].otp
      && Link(driver, order, InTransit) in s.links
  }

  /** A call goes through exactly when it is granted, a select at least while links are exclusive. */
  lemma GrantedExactly(s: State, c: Call)
    requires c.Select? ==> UniqueLinks(s.links) && ExclusiveLinks(s.links)
    ensures Apply(s, c).Some? <==> Granted(s, c)
  {
    match c
    case Send(_, _, _) =>
    case Accept(_) =>
    case Reject(_) =>
    case Take(_, _) =>
    case Pickup(order, _, driver, _) => FindsLink(s, driver, order);
    case Select(driver, order) =>
      FindsLink(s, driver, order);
      var current := FindInTransit(s.links, order);
      if current.Some? { assert s.links[current.value] in s.links; }
    case Deliver(order, driver, _) =>
      var k := FindCarrying(s.links, driver, order);
      if k.Some? { assert s.links[k.value] in s.links; }
  }

  lemma FindsLink(s: State, driver: int, order: int)
    ensures FindLink(s.links, driver, order).Some? <==> Linked(s, driver, order)
  {
    var k := FindLink(s.links, driver, order);
    if k.Some? { assert s.links[k.value] in s.links; }
  }

  /** The order is as before but for its company and status, the other orders as before. */
  ghost predicate OrderMoves(s: State, s': State, order: int, company: int, status: OrderStatus) {
    && order in s.orders
    && s'.orders == s.orders[order := Order(company, status, s.orders[order].pickupCode, s.orders[order].otp)]
  }

  /** The driver's link with the order is in transit, its other links are unassigned, the rest is as before. */
  ghost predicate TakenOver(s: State, s': State, driver: int, order: int) {
    && |s'.links| == |s.links|
    && forall i :: 0 <= i < |s.links| ==>
         s'.links[i] == if s.links[i].order != order then s.links[i]
                        else if s.links[i].driver == driver then Link(driver, order, InTransit)
                        else Link(s.links[i].driver, order, Unassigned)
  }

  /** The driver has a link at place `n` or later. */
  ghost predicate LinkedFrom(links: seq<Link>, n: nat, driver: int) {
    exists i :: n <= i < |links| && links[i].driver == driver
  }

  /** What a call that goes through changes, and that it changes nothing else. */
  ghost predicate Changes(s: State, c: Call, s': State) {
    && s'.drivers == s.drivers && s'.companies == s.companies
    && (!c.Send? && !c.Accept? && !c.Reject? ==> s'.invitations == s.invitations)
    && (c.Send? || c.Accept? || c.Reject? || c.Select? ==> s'.orders == s.orders)
    && (c.Send? || c.Accept? || c.Reject? ==> s'.links == s.links)
    && match c
       case Send(driver, company, sender) =>
         s'.invitations == s.invitations + [Invitation(driver, company, sender, Pending)]
       case Accept(id) =>
         && id < |s.invitations| == |s'.invitations|
         && forall i :: 0 <= i < |s.invitations| ==>
              var v := s.invitations[i];
              s'.invitations[i] == if i == id then v.(status := Accepted)
                                   else if v.driver == s.invitations[id].driver && v.status == Pending
                                   then v.(status := Cancelled) else v
       case Reject(id) =>
         && id < |s.invitations|
         && s'.invitations == s.invitations[id := s.invitations[id].(status := Rejected)]
       case Take(order, company) =>
         && OrderMoves(s, s', order, company, OutForDelivery)
         && s.links <= s'.links
         && (forall i :: |s.links| <= i < |s'.links| ==>
               s'.links[i].order == order && s'.links[i].assignment == Assigned)
         && (forall d :: LinkedFrom(s'.links, |s.links|, d) <==>
               exists v :: v in s.invitations && v.driver == d && v.company == company && v.status == Accepted)
       case Pickup(order, company, driver, _) =>
         OrderMoves(s, s', order, company, PickedUp) && TakenOver(s, s', driver, order)
       case Select(driver, order) => TakenOver(s, s', driver, order)
       case Deliver(order, driver, _) =>
         && order in s.orders && OrderMoves(s, s', order, s.orders[order].company, Delivered)
         && |s'.links| == |s.links|
         && forall i :: 0 <= i < |s.links| ==>
              s'.links[i] == if s.links[i] == Link(driver, order, InTransit) then Link(driver, order, HandedOver)
                             else s.links[i]
  }

  lemma TakesOver(s: State, driver: int, order: int, s': State)
    requires UniqueLinks(s.links) && FindLink(s.links, driver, order).Some?
    requires s'.links == TakeOver(s.links, FindLink(s.links, driver, order).value)
    ensures TakenOver(s, s', driver, order)
  {
    var k := FindLink(s.links, driver, order).value;
    TakeOverEffect(s.links, k);
    forall i | 0 <= i < |s.links| && i != k ensures s.links[i].order != order || s.links[i].driver != driver {
      if i < k { assert !Links(s.links[i], driver, order); } else { assert !Links(s.links[i], driver, order); }
    }
  }

  lemma TakeChanges(s: State, order: int, company: int)
    requires Apply(s, Take(order, company)).Some?
    ensures Changes(s, Take(order, company), Step(s, Take(order, company)))
  {
    var drivers, s', n := CompanyDrivers(s.invitations, company), Step(s, Take(order, company)), |s.links|;
    assert forall i :: n <= i < |s'.links| ==> s'.links[i] == Link(drivers[i - n], order, Assigned);
    forall d ensures LinkedFrom(s'.links, n, d) <==> d in drivers {
      if d in drivers {
        var j :| 0 <= j < |drivers| && drivers[j] == d;
        assert s'.links[n + j].driver == d;
      }
    }
  }

  /** Every call that goes through has exactly these effects, as long as links are unique. */
  lemma ChangesExactly(s: State, c: Call)
    requires UniqueLinks(s.links) && Apply(s, c).Some?
    ensures Changes(s, c, Step(s, c))
  {
    match c
    case Send(_, _, _) =>
    case Accept(_) =>
    case Reject(_) =>
    case Take(order, company) => TakeChanges(s, order, company);
    case Pickup(order, _, driver, _) => TakesOver(s, driver, order, Step(s, c));
    case Select(driver, order) => TakesOver(s, driver, order, Step(s, c));
    case Deliver(order, driver, _) =>
      var k := FindCarrying(s.links, driver, order).value;
      forall i | 0 <= i < |s.links| && i != k ensures s.links[i] != Link(driver, order, InTransit) {
        if i < k { assert s.links[i].driver != s.links[k].driver || s.links[i].order != s.links[k].order; }
      }
  }

  /** A rejected invitation does not stand in the way of another one between the same driver and company. */
  lemma InvitedAgain(s: State, id: nat, sender: Initiator)
    requires OneActive(s.invitations) && Granted(s, Reject(id))
    ensures var v, s' := s.invitations[id], Step(s, Reject(id));
            Apply(s', Send(v.driver, v.company, sender)).Some? <==>
              && v.driver in s.drivers && v.company in s.companies
              && (sender == ByDriver ==>
                    forall w :: w in s.invitations && w.driver == v.driver ==> w.status != Accepted)
  {
    var v, s' := s.invitations[id], Step(s, Reject(id));
    GrantedExactly(s', Send(v.driver, v.company, sender));
    forall w | w in s'.invitations && w.driver == v.driver && w.company == v.company ensures !Active(w) {
      var i :| 0 <= i < |s'.invitations| && s'.invitations[i] == w;
    }
    forall i | 0 <= i < |s.invitations| && i != id ensures s.invitations[i] in s'.invitations {
      assert s'.invitations[i] == s.invitations[i];
    }
    forall w | w in s'.invitations && w.status == Accepted ensures w in s.invitations {
    }
    forall w | w in s.invitations && w.status == Accepted ensures w in s'.invitations {
      var i :| 0 <= i < |s.invitations| && s.invitations[i] == w;
    }
  }

  // ----- one employer per driver -----

  /** An accepted driver has no other accepted invitation and no pending one. */
  ghost predicate OneEmployer(invitations: seq<Invitation>) {
    forall i, j :: 0 <= i < |invitations| && 0 <= j < |invitations| && i != j
                   && invitations[i].driver == invitations[j].driver && invitations[i].status == Accepted ==>
      !Active(invitations[j])
  }

  /** The call is a send that goes through although the driver's `canInvite` flag is false. */
  predicate Overrides(s: State, c: Call) {
    c.Send? && SendAllowed(s, c.driver, c.company, c.sender) && !CanInvite(s, c.driver)
  }

  /** Exactly which successful sends keep one employer per driver: those to drivers that can be invited. */
  lemma SendKeepsOneEmployer(s: State, driver: int, company: int, sender: Initiator)
    requires OneEmployer(s.invitations) && SendInvitation(s, driver, company, sender).Some?
    ensures OneEmployer(SendInvitation(s, driver, company, sender).value.invitations) <==> CanInvite(s, driver)
  {
    var r := SendInvitation(s, driver, company, sender).value.invitations;
    var n := |s.invitations|;
    if !CanInvite(s, driver) {
      var v :| v in s.invitations && v.driver == driver && v.status == Accepted;
      var i :| 0 <= i < n && s.invitations[i] == v;
      assert r[i] == v && Active(r[n]) && r[n].driver == driver;
    } else {
      assert forall i :: 0 <= i < n ==> s.invitations[i] in s.invitations;
    }
  }

  lemma AcceptKeepsOneEmployer(s: State, id: nat)
    requires OneEmployer(s.invitations) && AcceptInvitation(s, id).Some?
    ensures OneEmployer(AcceptInvitation(s, id).value.invitations)
  {
    var r := AcceptInvitation(s, id).value.invitations;
    forall i | 0 <= i < |r| && i != id
      ensures r[i].driver == s.invitations[i].driver
      ensures r[i].status == Accepted ==> s.invitations[i].status == Accepted
      ensures r[i].driver == r[id].driver ==> !Active(r[i])
    {
      assert s.invitations[i].driver == s.invitations[id].driver && s.invitations[i].status == Accepted
        ==> !Active(s.invitations[id]);
    }
  }

  /** Such a send, always a company's, is the only call that breaks one employer per driver. */
  lemma StepKeepsOneEmployer(s: State, c: Call)
    requires OneEmployer(s.invitations)
    ensures OneEmployer(Step(s, c).invitations) <==> !Overrides(s, c)
    ensures Overrides(s, c) ==> c.sender == ByCompany
  {
    if Apply(s, c).Some? {
      match c
      case Send(driver, company, sender) => SendKeepsOneEmployer(s, driver, company, sender);
      case Accept(id) => AcceptKeepsOneEmployer(s, id);
      case _ =>
    }
  }

  lemma RunOfNone(s: State, calls: seq<Call>)
    ensures Run(s, calls[..0]) == s
  {
  }

  lemma {:induction false} RunLast(s: State, calls: seq<Call>, n: nat)
    requires n < |calls|
    ensures Run(s, calls[..n + 1]) == Step(Run(s, calls[..n]), calls[n])
    decreases n
  {
    if n > 0 {
      RunLast(Step(s, calls[0]), calls[1..], n - 1);
      assert calls[..n][1..] == calls[1..][..n - 1] && calls[..n + 1][1..] == calls[1..][..n];
    }
  }

  /** One employer per driver after the first `n` calls, if none of them overrides the flag. */
  lemma {:induction false} RunKeepsOneEmployer(s: State, calls: seq<Call>, n: nat)
    requires OneEmployer(s.invitations) && n <= |calls|
    requires forall k :: 0 <= k < n ==> !Overrides(Run(s, calls[..k]), calls[k])
    ensures OneEmployer(Run(s, calls[..n]).invitations)
  {
    if n == 0 {
      RunOfNone(s, calls);
    } else {
      hide OneEmployer;
      hide Overrides;
      hide Run;
      hide Step;
      RunKeepsOneEmployer(s, calls, n - 1);
      RunLast(s, calls, n - 1);
      StepKeepsOneEmployer(Run(s, calls[..n - 1]), calls[n - 1]);
    }
  }

  /** All through a run every driver has one employer exactly when no send of the run overrides the flag. */
  lemma OneEmployerExactly(s: State, calls: seq<Call>)
    requires OneEmployer(s.invitations)
    ensures (forall n :: 0 <= n <= |calls| ==> OneEmployer(Run(s, calls[..n]).invitations))
            <==> (forall n :: 0 <= n < |calls| ==> !Overrides(Run(s, calls[..n]), calls[n]))
  {
    hide OneEmployer;
    hide Overrides;
    hide Run;
    hide Step;
    if forall n :: 0 <= n < |calls| ==> !Overrides(Run(s, calls[..n]), calls[n]) {
      forall n | 0 <= n <= |calls| ensures OneEmployer(Run(s, calls[..n]).invitations) {
        RunKeepsOneEmployer(s, calls, n);
      }
    }
    if forall n :: 0 <= n <= |calls| ==> OneEmployer(Run(s, calls[..n]).invitations) {
      forall n | 0 <= n < |calls| ensures !Overrides(Run(s, calls[..n]), calls[n]) {
        RunLast(s, calls, n);
        assert OneEmployer(Run(s, calls[..n + 1]).invitations) && OneEmployer(Run(s, calls[..n]).invitations);
        StepKeepsOneEmployer(Run(s, calls[..n]), calls[n]);
      }
    }
  }

  /** From a start: a driver accepted by one company is invited by another, accepts, and has two employers. */
  lemma TwoEmployers()
    ensures exists s, calls ::
              && Start(s) && s.invitations == [] && |calls| == 4
              && Run(s, calls).invitations
                 == [Invitation(1, 8, ByCompany, Accepted), Invitation(1, 9, ByCompany, Accepted)]
  {
    var s0 := State({1}, {8, 9}, [], map[], []);
    var calls := [Send(1, 8, ByCompany), Accept(0), Send(1, 9, ByCompany), Accept(1)];
    var s1 := Step(s0, calls[0]);
    assert s1.invitations == [Invitation(1, 8, ByCompany, Pending)];
    var s2 := Step(s1, calls[1]);
    assert s2.invitations == [Invitation(1, 8, ByCompany, Accepted)];
    var s3 := Step(s2, calls[2]);
    assert s3.invitations == [Invitation(1, 8, ByCompany, Accepted), Invitation(1, 9, ByCompany, Pending)];
    var s4 := Step(s3, calls[3]);
    assert s4.invitations == [Invitation(1, 8, ByCompany, Accepted), Invitation(1, 9, ByCompany, Accepted)];
    RunOfNone(s0, calls);
    RunLast(s0, calls, 0);
    RunLast(s0, calls, 1);
    RunLast(s0, calls, 2);
    RunLast(s0, calls, 3);
    assert calls[..4] == calls && Start(s0);
  }

  // ----- delivered by the driver who picked up -----

  /** The tables together with the driver of the latest successful pickup of each order. */
  datatype Tracked = Tracked(s: State, picker: map<int, int>)

  function TrackedStep(t: Tracked, c: Call): Tracked {
    Tracked(Step(t.s, c), if c.Pickup? && Apply(t.s, c).Some? then t.picker[c.order := c.driver] else t.picker)
  }

  function TrackedRun(t: Tracked, calls: seq<Call>): Tracked
    decreases |calls|
  {
    if calls == [] then t else TrackedRun(TrackedStep(t, calls[0]), calls[1..])
  }

  lemma {:induction false} TrackingOnlyWatches(t: Tracked, calls: seq<Call>)
    ensures TrackedRun(t, calls).s == Run(t.s, calls)
    decreases |calls|
  {
    if calls != [] {
      TrackingOnlyWatches(TrackedStep(t, calls[0]), calls[1..]);
    }
  }

  /** A picked-up order is carried by its latest picker. */
  ghost predicate PickerCarries(t: Tracked) {
    forall o :: o in t.s.orders && t.s.orders[o].company != 0 && t.s.orders[o].status == PickedUp ==>
      o in t.picker && Link(t.picker[o], o, InTransit) in t.s.links
  }

  /** The picker stays in transit through any link update that leaves the order alone. */
  lemma StaysCarried(links: seq<Link>, links': seq<Link>, l: Link)
    requires l in links && |links| <= |links'|
    requires forall i :: 0 <= i < |links| && links[i] == l ==> links'[i] == l
    ensures l in links'
  {
    var i :| 0 <= i < |links| && links[i] == l;
    assert links'[i] == l;
  }

  lemma PickupKeepsPicker(t: Tracked, c: Call)
    requires Invariant(t.s) && PickerCarries(t) && c.Pickup? && Apply(t.s, c).Some?
    ensures PickerCarries(TrackedStep(t, c))
  {
    var t' := TrackedStep(t, c);
    var k := FindLink(t.s.links, c.driver, c.order).value;
    TakeOverEffect(t.s.links, k);
    assert t'.s.links[k] == Link(c.driver, c.order, InTransit);
    forall o | o in t'.s.orders && t'.s.orders[o].company != 0 && t'.s.orders[o].status == PickedUp
      ensures o in t'.picker && Link(t'.picker[o], o, InTransit) in t'.s.links
    {
      if o != c.order {
        StaysCarried(t.s.links, t'.s.links, Link(t.picker[o], o, InTransit));
      }
    }
  }

  lemma SelectKeepsPicker(t: Tracked, c: Call)
    requires Invariant(t.s) && PickerCarries(t) && c.Select? && Apply(t.s, c).Some?
    ensures PickerCarries(TrackedStep(t, c))
  {
    var t' := TrackedStep(t, c);
    var k := FindLink(t.s.links, c.driver, c.order).value;
    TakeOverEffect(t.s.links, k);
    forall o | o in t'.s.orders && t'.s.orders[o].company != 0 && t'.s.orders[o].status == PickedUp
      ensures o in t'.picker && Link(t'.picker[o], o, InTransit) in t'.s.links
    {
      var l := Link(t.picker[o], o, InTransit);
      if o == c.order {
        var i :| 0 <= i < |t.s.links| && t.s.links[i] == l;
        var current := FindInTransit(t.s.links, o).value;
        assert i == current;
        assert i == k;
      }
      StaysCarried(t.s.links, t'.s.links, l);
    }
  }

  lemma DeliverKeepsPicker(t: Tracked, c: Call)
    requires Invariant(t.s) && PickerCarries(t) && c.Deliver? && Apply(t.s, c).Some?
    ensures PickerCarries(TrackedStep(t, c))
  {
    var t' := TrackedStep(t, c);
    forall o | o in t'.s.orders && t'.s.orders[o].company != 0 && t'.s.orders[o].status == PickedUp
      ensures o in t'.picker && Link(t'.picker[o], o, InTransit) in t'.s.links
    {
      StaysCarried(t.s.links, t'.s.links, Link(t.picker[o], o, InTransit));
    }
  }

  lemma TakeKeepsPicker(t: Tracked, c: Call)
    requires Invariant(t.s) && PickerCarries(t) && c.Take? && Apply(t.s, c).Some?
    ensures PickerCarries(TrackedStep(t, c))
  {
    var t' := TrackedStep(t, c);
    forall o | o in t'.s.orders && t'.s.orders[o].company != 0 && t'.s.orders[o].status == PickedUp
      ensures o in t'.picker && Link(t'.picker[o], o, InTransit) in t'.s.links
    {
      StaysCarried(t.s.links, t'.s.links, Link(t.picker[o], o, InTransit));
    }
  }

  lemma StepKeepsPicker(t: Tracked, c: Call)
    requires Invariant(t.s) && PickerCarries(t)
    ensures PickerCarries(TrackedStep(t, c))
  {
    if Apply(t.s, c).Some? {
      match c
      case Send(_, _, _) =>
      case Accept(_) =>
      case Reject(_) =>
      case Take(_, _) => TakeKeepsPicker(t, c);
      case Pickup(_, _, _, _) => PickupKeepsPicker(t, c);
      case Select(_, _) => SelectKeepsPicker(t, c);
      case Deliver(_, _, _) => DeliverKeepsPicker(t, c);
    }
  }

  lemma {:induction false} RunKeepsPicker(t: Tracked, calls: seq<Call>)
    requires Invariant(t.s) && PickerCarries(t)
    ensures Invariant(TrackedRun(t, calls).s) && PickerCarries(TrackedRun(t, calls))
    decreases |calls|
  {
    if calls != [] {
      StepKeepsInvariant(t.s, calls[0]);
      StepKeepsPicker(t, calls[0]);
      RunKeepsPicker(TrackedStep(t, calls[0]), calls[1..]);
    }
  }

  /** Where runs start: nobody is linked and no order has a company. */
  ghost predicate Start(s: State) {
    && OneActive(s.invitations)
    && 0 !in s.companies
    && (forall v :: v in s.invitations ==> v.company != 0)
    && s.links == []
    && (forall o :: o in s.orders ==> s.orders[o].company == 0)
  }

  /**
   After any run from such a start, `confirmDelivery` succeeds exactly for the driver of the latest
   successful `confirmPickup` on a taken order that is still picked up, with the order's own OTP; and
   such an order has exactly one link in transit, that driver's.
   */
  lemma DeliveredByPicker(s: State, calls: seq<Call>, order: int, driver: int, otp: string)
    requires Start(s)
    ensures var t := TrackedRun(Tracked(s, map[]), calls);
            && t.s == Run(s, calls)
            && (ConfirmDelivery(t.s, order, driver, otp).Some? <==>
                  && order in t.s.orders && t.s.orders[order].company != 0 && t.s.orders[order].status == PickedUp
                  && otp == t.s.orders[order].otp
                  && order in t.picker && t.picker[order] == driver)
            && (order in t.s.orders && t.s.orders[order].company != 0 && t.s.orders[order].status == PickedUp ==>
                  && order in t.picker
                  && Link(t.picker[order], order, InTransit) in t.s.links
                  && forall i, j :: 0 <= i < j < |t.s.links| && t.s.links[i].order == order == t.s.links[j].order ==>
                       t.s.links[i].assignment != InTransit || t.s.links[j].assignment != InTransit)
  {
    var t := TrackedRun(Tracked(s, map[]), calls);
    TrackingOnlyWatches(Tracked(s, map[]), calls);
    RunKeepsPicker(Tracked(s, map[]), calls);
    GrantedExactly(t.s, Deliver(order, driver, otp));
    if Link(driver, order, InTransit) in t.s.links && order in t.s.orders && t.s.orders[order].status == PickedUp {
      var k :| 0 <= k < |t.s.links| && t.s.links[k] == Link(driver, order, InTransit);
      var i :| 0 <= i < |t.s.links| && t.s.links[i] == Link(t.picker[order], order, InTransit);
      assert i == k;
    }
  }

  // ----- how long an order stays delivered -----

  predicate IsDelivered(s: State, order: int) {
    order in s.orders && s.orders[order].company != 0 && s.orders[order].status == Delivered
  }

  /** The call picks the order up, and is allowed to. */
  predicate PicksUpAgain(s: State, c: Call, order: int) {
    c.Pickup? && c.order == order && PickupAllowed(s, order, c.company, c.driver, c.code)
  }

  /** A taken, delivered order stays delivered through a call exactly when the call does not pick it up again. */
  lemma DeliveredStep(s: State, c: Call, order: int)
    requires IsDelivered(s, order)
    ensures order in Step(s, c).orders
    ensures IsDelivered(Step(s, c), order) <==> !PicksUpAgain(s, c, order)
  {
  }

  lemma {:induction false} StaysDelivered(s: State, calls: seq<Call>, order: int, n: nat)
    requires IsDelivered(s, order) && n <= |calls|
    requires forall k :: 0 <= k < n ==> !PicksUpAgain(Run(s, calls[..k]), calls[k], order)
    ensures IsDelivered(Run(s, calls[..n]), order)
  {
    if n == 0 {
      RunOfNone(s, calls);
    } else {
      hide IsDelivered;
      hide PicksUpAgain;
      hide Run;
      hide Step;
      StaysDelivered(s, calls, order, n - 1);
      RunLast(s, calls, n - 1);
      DeliveredStep(Run(s, calls[..n - 1]), calls[n - 1], order);
    }
  }

  /** So it stays delivered all through a run exactly when no call of the run picks it up again. */
  lemma DeliveredIsFinalExactly(s: State, calls: seq<Call>, order: int)
    requires IsDelivered(s, order)
    ensures (forall n :: 0 <= n <= |calls| ==> IsDelivered(Run(s, calls[..n]), order))
            <==> (forall n :: 0 <= n < |calls| ==> !PicksUpAgain(Run(s, calls[..n]), calls[n], order))
  {
    hide IsDelivered;
    hide PicksUpAgain;
    hide Run;
    hide Step;
    if forall n :: 0 <= n < |calls| ==> !PicksUpAgain(Run(s, calls[..n]), calls[n], order) {
      forall n | 0 <= n <= |calls| ensures IsDelivered(Run(s, calls[..n]), order) {
        StaysDelivered(s, calls, order, n);
      }
    }
    if forall n :: 0 <= n <= |calls| ==> IsDelivered(Run(s, calls[..n]), order) {
      forall n | 0 <= n < |calls| ensures !PicksUpAgain(Run(s, calls[..n]), calls[n], order) {
        RunLast(s, calls, n);
        assert IsDelivered(Run(s, calls[..n + 1]), order) && IsDelivered(Run(s, calls[..n]), order);
        DeliveredStep(Run(s, calls[..n]), calls[n], order);
      }
    }
  }

  /** Who can pick a delivered order up again: any linked driver of its company who knows the pickup code. */
  lemma WhoCanPickUpAgain(s: State, order: int, company: int, driver: int, code: string)
    requires IsDelivered(s, order)
    ensures PicksUpAgain(s, Pickup(order, company, driver, code), order) <==>
              && company == s.orders[order].company && code == s.orders[order].pickupCode
              && (exists v :: v in s.invitations && v.driver == driver && v.company == company && v.status == Accepted)
              && (exists l :: l in s.links && l.driver == driver && l.order == order)
  {
    var k := FindLink(s.links, driver, order);
    if k.Some? { assert s.links[k.value] in s.links; }
  }

  /** `delivered` is not final: from a start, four calls deliver an order and pick it up again. */
  lemma DeliveredCanBePickedUpAgain()
    ensures exists s, calls ::
              && Start(s) && |calls| == 4
              && IsDelivered(Run(s, calls[..3]), 5)
              && 5 in Run(s, calls).orders && Run(s, calls).orders[5].status == PickedUp
  {
    var s0 := State({1}, {9}, [Invitation(1, 9, ByDriver, Accepted)], map[5 := Order(0, OtherStatus, "p", "q")], []);
    var calls := [Take(5, 9), Pickup(5, 9, 1, "p"), Deliver(5, 1, "q"), Pickup(5, 9, 1, "p")];
    assert s0.invitations[..0] == [];
    assert CompanyDrivers(s0.invitations, 9) == [1];
    var s1 := Step(s0, calls[0]);
    assert s1.links == [Link(1, 5, Assigned)];
    assert s0.invitations[0] in s0.invitations;
    var s2 := Step(s1, calls[1]);
    assert s2.links == [Link(1, 5, InTransit)];
    var s3 := Step(s2, calls[2]);
    assert s3.links == [Link(1, 5, HandedOver)];
    assert IsDelivered(s3, 5);
    var s4 := Step(s3, calls[3]);
    RunOfNone(s0, calls);
    RunLast(s0, calls, 0);
    RunLast(s0, calls, 1);
    RunLast(s0, calls, 2);
    RunLast(s0, calls, 3);
    assert calls[..4] == calls;
    assert Start(s0);
  }
}
