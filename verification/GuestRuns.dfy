/** Whole runs of creates, single reconciliations and bulk reconciliations. */
module GuestRuns {
  import opened Outcomes
  import opened Sequences
  import opened Payments
  import opened Text
  import opened GuestOrders
  import opened GuestStock
  import opened GuestMoney
  import opened GuestDemand
  import opened GuestReconciliation

  // ----- one batch per reference: a single call -----

  lemma {:induction false} OrdersOfNew(created: seq<Order>, reference: string, other: string)
    requires forall i :: 0 <= i < |created| ==> created[i].reference == reference
    ensures OrdersOf(created, other) == if other == reference then created else []
  {
    if created != [] {
      var n := |created| - 1;
      OrdersOfNew(created[..n], reference, other);
      assert created == created[..n] + [created[n]];
    }
  }

  /** Orders under a reference, once there are any, never change. */
  ghost predicate Frozen(a: Db, b: Db) {
    && a.orders <= b.orders
    && forall r :: OrdersOf(a.orders, r) != [] ==> OrdersOf(b.orders, r) == OrdersOf(a.orders, r)
  }

  lemma FrozenItself(a: Db)
    ensures Frozen(a, a)
  {
  }

  lemma FrozenTwice(a: Db, b: Db, c: Db)
    requires Frozen(a, b) && Frozen(b, c)
    ensures Frozen(a, c)
  {
    hide OrdersOf;
  }

  /** A call that finds orders returns them and touches nothing. */
  lemma RepeatedCall(db: Db, req: Request)
    requires OrdersOf(db.orders, req.reference) != []
    ensures Create(db, req) == Outcome(db, Ok(OrdersOf(db.orders, req.reference)))
  {
  }

  lemma OrdersOfConcat(a: seq<Order>, b: seq<Order>, reference: string)
    ensures OrdersOf(a + b, reference) == OrdersOf(a, reference) + OrdersOf(b, reference)
  {
    FilterConcat(a, b, HasReference(reference));
  }

  lemma CommittedReferences(db: Db, req: Request, token: Token, groups: seq<Group>, created: seq<Order>, subtotal: int)
    requires Committed(db, req, token, groups, created, subtotal)
    ensures forall i :: 0 <= i < |created| ==> created[i].reference == req.reference
  {
    hide SumBy;
    forall i | 0 <= i < |created| ensures created[i].reference == req.reference {
      assert OrderFor(db, created[i], groups[i], req.reference, MultiSeller(req.cart), token);
    }
  }

  /** A call that finds none either fails without a trace or makes the whole batch of its reference. */
  lemma FirstCall(db: Db, req: Request)
    requires OrdersOf(db.orders, req.reference) == []
    ensures var out := Create(db, req);
            && (out.result.Err? ==> out.db == db)
            && (out.result.Ok? ==>
                  && out.result.value != []
                  && out.db.orders == db.orders + out.result.value
                  && OrdersOf(out.db.orders, req.reference) == out.result.value
                  && (forall i :: 0 <= i < |out.result.value| ==> out.result.value[i].id == LastId(db.orders) + 1 + i))
            && (forall r :: r != req.reference ==> OrdersOf(out.db.orders, r) == OrdersOf(db.orders, r))
  {
    hide *;
    CreateConserves(db, req);
    if Create(db, req).result.Ok? {
      var token, groups, created, subtotal := CommitMakes(db, req);
      CommittedReferences(db, req, token, groups, created, subtotal);
      forall r
        ensures OrdersOf(db.orders + created, r) == OrdersOf(db.orders, r) + if r == req.reference then created else []
      {
        OrdersOfNew(created, req.reference, r);
        OrdersOfConcat(db.orders, created, r);
      }
      assert [] + created == created;
      assert forall s: seq<Order> :: s + [] == s;
    }
  }

  lemma CreateFreezes(db: Db, req: Request)
    ensures Frozen(db, Create(db, req).db)
  {
    CreateConserves(db, req);
    var last := Create(db, req).db;
    forall r | OrdersOf(db.orders, r) != [] ensures OrdersOf(last.orders, r) == OrdersOf(db.orders, r) {
      if OrdersOf(db.orders, req.reference) == [] {
        FirstCall(db, req);
      } else {
        RepeatedCall(db, req);
      }
    }
  }

  // ----- one batch per reference: every series of calls -----

  /** Call `k` is the one that made all orders under `r`. */
  ghost predicate MadeBy(db: Db, reqs: seq<Request>, r: string, k: nat)
    requires k < |reqs|
  {
    && reqs[k].reference == r
    && OrdersOf(CreateAll(db, reqs[..k]).orders, r) == []
    && Create(CreateAll(db, reqs[..k]), reqs[k]).result == Ok(OrdersOf(CreateAll(db, reqs).orders, r))
  }

  /** From call `k` on, each call for `r` returns the same orders and changes nothing. */
  ghost predicate RepeatedFrom(db: Db, reqs: seq<Request>, r: string, k: nat) {
    forall j :: k < j < |reqs| && reqs[j].reference == r ==>
      Create(CreateAll(db, reqs[..j]), reqs[j])
      == Outcome(CreateAll(db, reqs[..j]), Ok(OrdersOf(CreateAll(db, reqs).orders, r)))
  }

  lemma {:induction false} CreateAllFreezes(db: Db, reqs: seq<Request>)
    ensures Frozen(db, CreateAll(db, reqs))
  {
    if reqs == [] {
      FrozenItself(db);
    } else {
      var n := |reqs| - 1;
      CreateAllFreezes(db, reqs[..n]);
      hide Create;
      CreateFreezes(CreateAll(db, reqs[..n]), reqs[n]);
      FrozenTwice(db, CreateAll(db, reqs[..n]), CreateAll(db, reqs));
    }
  }

  /** The tables after all calls have the orders of `r` that the tables after `j` of them had. */
  lemma PrefixFreezes(db: Db, reqs: seq<Request>, j: nat)
    requires j <= |reqs|
    ensures Frozen(CreateAll(db, reqs[..j]), CreateAll(db, reqs))
  {
    assert reqs == reqs[..j] + reqs[j..];
    CreateAllConcat(db, reqs[..j], reqs[j..]);
    CreateAllFreezes(CreateAll(db, reqs[..j]), reqs[j..]);
  }

  /** A call that leaves the first orders under `r` is a call for `r`. */
  lemma OnlyItsOwn(db: Db, req: Request, r: string)
    requires OrdersOf(db.orders, r) == [] && OrdersOf(Create(db, req).db.orders, r) != []
    ensures req.reference == r
  {
    if OrdersOf(db.orders, req.reference) == [] {
      FirstCall(db, req);
    } else {
      RepeatedCall(db, req);
    }
  }

  /** The call at which orders under `r` first exist. */
  lemma {:induction false} FirstBatch(db: Db, reqs: seq<Request>, r: string) returns (k: nat)
    requires OrdersOf(db.orders, r) == [] && OrdersOf(CreateAll(db, reqs).orders, r) != []
    ensures k < |reqs|
    ensures OrdersOf(CreateAll(db, reqs[..k]).orders, r) == []
    ensures OrdersOf(CreateAll(db, reqs[..k + 1]).orders, r) != []
  {
    hide OrdersOf;
    assert reqs != [];
    var n := |reqs| - 1;
    if OrdersOf(CreateAll(db, reqs[..n]).orders, r) == [] {
      k := n;
      assert reqs[..n + 1] == reqs;
    } else {
      hide CreateAll;
      k := FirstBatch(db, reqs[..n], r);
      assert reqs[..n][..k] == reqs[..k] && reqs[..n][..k + 1] == reqs[..k + 1];
    }
  }

  lemma FirstIsWhole(db: Db, reqs: seq<Request>, r: string, k: nat)
    requires k < |reqs|
    requires OrdersOf(CreateAll(db, reqs[..k]).orders, r) == []
    requires OrdersOf(CreateAll(db, reqs[..k + 1]).orders, r) != []
    ensures MadeBy(db, reqs, r, k)
  {
    hide Create;
    hide OrdersOf;
    var before := CreateAll(db, reqs[..k]);
    CreateAllStep(db, reqs, k);
    PrefixFreezes(db, reqs, k + 1);
    hide CreateAll;
    OnlyItsOwn(before, reqs[k], r);
    FirstCall(before, reqs[k]);
  }

  lemma LaterRepeats(db: Db, reqs: seq<Request>, r: string, k: nat, j: nat)
    requires k < j < |reqs| && reqs[j].reference == r
    requires OrdersOf(CreateAll(db, reqs[..k + 1]).orders, r) != []
    ensures Create(CreateAll(db, reqs[..j]), reqs[j])
         == Outcome(CreateAll(db, reqs[..j]), Ok(OrdersOf(CreateAll(db, reqs).orders, r)))
  {
    hide Create;
    hide OrdersOf;
    hide CreateAll;
    PrefixFreezes(db, reqs[..j], k + 1);
    assert reqs[..j][..k + 1] == reqs[..k + 1];
    PrefixFreezes(db, reqs, j);
    RepeatedCall(CreateAll(db, reqs[..j]), reqs[j]);
  }

  /**
   In every series of calls, all orders under a payment reference come from one committed call, and
   every later call for it returns those orders and touches no stock.
   */
  lemma OneBatchPerPayment(db: Db, reqs: seq<Request>, r: string)
    requires OrdersOf(db.orders, r) == [] && OrdersOf(CreateAll(db, reqs).orders, r) != []
    ensures exists k: nat :: k < |reqs| && MadeBy(db, reqs, r, k) && RepeatedFrom(db, reqs, r, k)
  {
    hide Create;
    hide OrdersOf;
    hide CreateAll;
    var k := FirstBatch(db, reqs, r);
    FirstIsWhole(db, reqs, r, k);
    forall j | k < j < |reqs| && reqs[j].reference == r
      ensures Create(CreateAll(db, reqs[..j]), reqs[j])
           == Outcome(CreateAll(db, reqs[..j]), Ok(OrdersOf(CreateAll(db, reqs).orders, r)))
    {
      LaterRepeats(db, reqs, r, k, j);
    }
  }

  // ----- reconciliation goes through create calls only -----

  function CallsOfVisits(shop: Shop, known: set<string>, provider: Provider, todo: seq<nat>): seq<Request>
    requires forall k :: 0 <= k < |todo| ==> todo[k] < |shop.checkouts|
    decreases |todo|
  {
    if todo == [] then []
    else
      var c := shop.checkouts[todo[0]];
      var call := ReplayCall(shop, todo[0], provider);
      var first := if c.reference in known || call.None? then [] else [call.value];
      first + CallsOfVisits(VisitOne(shop, known, provider, todo[0]).shop, known, provider, todo[1..])
  }

  /** The create calls an event makes. */
  function Calls(shop: Shop, e: Event): seq<Request> {
    match e
    case CreateCall(req) => [req]
    case ReconcileCall(id, provider) =>
      if id < |shop.checkouts| && Pending(shop.checkouts[id]) && ReplayCall(shop, id, provider).Some?
      then [ReplayCall(shop, id, provider).value] else []
    case BulkCall(provider) =>
      PendingIdsAre(shop.checkouts);
      CallsOfVisits(shop, KnownReferences(shop.db), provider, PendingIds(shop.checkouts))
  }

  lemma OneCall(db: Db, req: Request)
    ensures CreateAll(db, [req]) == Create(db, req).db
  {
    hide Create;
    assert [req][..0] == [];
  }

  lemma {:induction false} VisitsAreCalls(
      shop: Shop, known: set<string>, provider: Provider, todo: seq<nat>, results: seq<Entry>)
    requires forall k :: 0 <= k < |todo| ==> todo[k] < |shop.checkouts|
    ensures VisitAll(shop, known, provider, todo, results).shop.db
         == CreateAll(shop.db, CallsOfVisits(shop, known, provider, todo))
    decreases |todo|
  {
    if todo != [] {
      hide Create;
      var visit := VisitOne(shop, known, provider, todo[0]);
      var c, call := shop.checkouts[todo[0]], ReplayCall(shop, todo[0], provider);
      var first := if c.reference in known || call.None? then [] else [call.value];
      if first != [] { OneCall(shop.db, call.value); }
      assert visit.shop.db == CreateAll(shop.db, first);
      var rest := CallsOfVisits(visit.shop, known, provider, todo[1..]);
      VisitsAreCalls(visit.shop, known, provider, todo[1..], results + [visit.entry]);
      CreateAllConcat(shop.db, first, rest);
    }
  }

  lemma StepIsCalls(shop: Shop, e: Event)
    ensures Step(shop, e).db == CreateAll(shop.db, Calls(shop, e))
  {
    hide Create;
    match e
    case CreateCall(req) => OneCall(shop.db, req);
    case ReconcileCall(id, provider) =>
      if Calls(shop, e) != [] { OneCall(shop.db, ReplayCall(shop, id, provider).value); }
    case BulkCall(provider) =>
      PendingIdsAre(shop.checkouts);
      VisitsAreCalls(shop, KnownReferences(shop.db), provider, PendingIds(shop.checkouts), []);
  }

  function AllCalls(shop: Shop, events: seq<Event>): seq<Request>
    decreases |events|
  {
    if events == [] then [] else Calls(shop, events[0]) + AllCalls(Step(shop, events[0]), events[1..])
  }

  /** A run changes orders and stock exactly as the create calls it comes to. */
  lemma {:induction false} RunIsCalls(shop: Shop, events: seq<Event>)
    ensures Run(shop, events).db == CreateAll(shop.db, AllCalls(shop, events))
    decreases |events|
  {
    if events != [] {
      var next := Step(shop, events[0]);
      hide Step;
      hide Calls;
      StepIsCalls(shop, events[0]);
      RunIsCalls(next, events[1..]);
      CreateAllConcat(shop.db, Calls(shop, events[0]), AllCalls(next, events[1..]));
    }
  }

  /** So stock is conserved and each payment reference has one batch over creates and reconciliations alike. */
  lemma RunConservesAndBatches(shop: Shop, events: seq<Event>, r: string)
    requires OrdersOf(shop.db.orders, r) == []
    ensures Conserves(shop.db, Run(shop, events).db)
    ensures OrdersOf(Run(shop, events).db.orders, r) != [] ==>
              var calls := AllCalls(shop, events);
              exists k: nat :: k < |calls| && MadeBy(shop.db, calls, r, k) && RepeatedFrom(shop.db, calls, r, k)
  {
    var calls := AllCalls(shop, events);
    RunIsCalls(shop, events);
    RunConserves(shop.db, calls);
    if OrdersOf(Run(shop, events).db.orders, r) != [] {
      OneBatchPerPayment(shop.db, calls, r);
    }
  }

  // ----- the life of a checkout -----

  /** A completed checkout records the orders under its payment reference, and there are some. */
  ghost predicate Settled(shop: Shop, i: nat)
    requires i < |shop.checkouts|
  {
    var c := shop.checkouts[i];
    var orders := OrdersOf(shop.db.orders, PaymentReference(c));
    c.status == Completed && c.orderIds == Ids(orders) && orders != []
  }

  ghost predicate SameRequest(a: Checkout, b: Checkout) {
    a.reference == b.reference && a.paid == b.paid && a.payload == b.payload
  }

  /** What one checkout may go through: nothing once completed, and a proper completion. */
  ghost predicate Lived(a: Shop, b: Shop, i: nat)
    requires i < |a.checkouts| && i < |b.checkouts|
  {
    && SameRequest(a.checkouts[i], b.checkouts[i])
    && (a.checkouts[i].status == Completed ==> b.checkouts[i] == a.checkouts[i])
    && (a.checkouts[i].status != Completed && b.checkouts[i].status == Completed ==> Settled(b, i))
  }

  ghost predicate Evolves(a: Shop, b: Shop) {
    && Frozen(a.db, b.db)
    && |a.checkouts| == |b.checkouts|
    && forall i: nat :: i < |a.checkouts| ==> Lived(a, b, i)
  }

  lemma SettledStays(a: Shop, b: Shop, i: nat)
    requires Evolves(a, b) && i < |a.checkouts| && Settled(a, i)
    ensures Settled(b, i)
  {
    hide OrdersOf;
    assert Lived(a, b, i);
  }

  lemma EvolvesItself(a: Shop)
    ensures Evolves(a, a)
  {
  }

  lemma EvolvesTwice(a: Shop, b: Shop, c: Shop)
    requires Evolves(a, b) && Evolves(b, c)
    ensures Evolves(a, c)
  {
    hide Settled;
    FrozenTwice(a.db, b.db, c.db);
    forall i: nat | i < |a.checkouts| ensures Lived(a, c, i) {
      assert Lived(a, b, i) && Lived(b, c, i);
      if b.checkouts[i].status == Completed && a.checkouts[i].status != Completed {
        SettledStays(b, c, i);
      }
    }
  }

  /** A create returns all orders under its reference. */
  lemma CreateReturnsAll(db: Db, req: Request)
    requires Create(db, req).result.Ok?
    ensures Create(db, req).result.value == OrdersOf(Create(db, req).db.orders, req.reference)
    ensures Create(db, req).result.value != []
  {
    if OrdersOf(db.orders, req.reference) == [] {
      FirstCall(db, req);
    } else {
      RepeatedCall(db, req);
    }
  }

  lemma ReplayEvolves(shop: Shop, i: nat, provider: Provider)
    requires i < |shop.checkouts| && shop.checkouts[i].status != Completed && ReplayCall(shop, i, provider).Some?
    ensures Evolves(shop, Replay(shop, i, ReplayCall(shop, i, provider).value))
  {
    var req := ReplayCall(shop, i, provider).value;
    CreateFreezes(shop.db, req);
    if Create(shop.db, req).result.Ok? { CreateReturnsAll(shop.db, req); }
    hide Create;
    hide OrdersOf;
    var next := Replay(shop, i, req);
    forall j: nat | j < |shop.checkouts| ensures Lived(shop, next, j) {
    }
  }

  lemma VisitEvolves(shop: Shop, known: set<string>, provider: Provider, i: nat)
    requires i < |shop.checkouts| && shop.checkouts[i].status != Completed
    ensures Evolves(shop, VisitOne(shop, known, provider, i).shop)
    ensures forall j: nat :: j < |shop.checkouts| && j != i ==>
              VisitOne(shop, known, provider, i).shop.checkouts[j] == shop.checkouts[j]
  {
    EvolvesItself(shop);
    FrozenItself(shop.db);
    if ReplayCall(shop, i, provider).Some? { ReplayEvolves(shop, i, provider); }
    hide Create;
    hide OrdersOf;
    hide Frozen;
  }

  lemma {:induction false} VisitsEvolve(
      shop: Shop, known: set<string>, provider: Provider, todo: seq<nat>, results: seq<Entry>)
    requires forall k :: 0 <= k < |todo| ==> todo[k] < |shop.checkouts| && shop.checkouts[todo[k]].status != Completed
    requires Increasing(todo)
    ensures Evolves(shop, VisitAll(shop, known, provider, todo, results).shop)
    decreases |todo|
  {
    if todo == [] {
      EvolvesItself(shop);
    } else {
      VisitEvolves(shop, known, provider, todo[0]);
      var visit := VisitOne(shop, known, provider, todo[0]);
      hide VisitOne;
      hide Evolves;
      VisitsEvolve(visit.shop, known, provider, todo[1..], results + [visit.entry]);
      EvolvesTwice(shop, visit.shop, VisitAll(visit.shop, known, provider, todo[1..], results + [visit.entry]).shop);
    }
  }

  lemma StepEvolves(shop: Shop, e: Event)
    ensures Evolves(shop, Step(shop, e))
  {
    EvolvesItself(shop);
    match e
    case CreateCall(req) =>
      CreateFreezes(shop.db, req);
      hide Create;
      hide OrdersOf;
    case ReconcileCall(id, provider) =>
      if id < |shop.checkouts| && Pending(shop.checkouts[id]) && ReplayCall(shop, id, provider).Some? {
        ReplayEvolves(shop, id, provider);
      }
      hide Create;
      hide OrdersOf;
      hide Evolves;
    case BulkCall(provider) =>
      PendingIdsAre(shop.checkouts);
      var todo := PendingIds(shop.checkouts);
      assert forall k :: 0 <= k < |todo| ==> todo[k] in todo;
      VisitsEvolve(shop, KnownReferences(shop.db), provider, todo, []);
  }

  /**
   In every run a completed checkout stays as it is, and a checkout completed by the run records
   exactly the orders, at least one, under its payment reference.
   */
  lemma {:induction false} CheckoutLifecycle(shop: Shop, events: seq<Event>)
    ensures Evolves(shop, Run(shop, events))
    decreases |events|
  {
    if events == [] {
      EvolvesItself(shop);
    } else {
      var next := Step(shop, events[0]);
      StepEvolves(shop, events[0]);
      hide Step;
      hide Evolves;
      CheckoutLifecycle(next, events[1..]);
      EvolvesTwice(shop, next, Run(next, events[1..]));
    }
  }

  // ----- bulk reconciliation visits each pending checkout once -----

  function Count(results: seq<Entry>, action: Action): nat {
    if results == [] then 0
    else Count(results[..|results| - 1], action) + if results[|results| - 1].action == action then 1 else 0
  }

  lemma {:induction false} CountsAddUp(results: seq<Entry>)
    ensures Count(results, DidReconcile) + Count(results, DidSkip) + Count(results, DidFail) == |results|
  {
    if results != [] { CountsAddUp(results[..|results| - 1]); }
  }

  ghost predicate Reports(entries: seq<Entry>, ids: seq<nat>) {
    |entries| == |ids| && forall k :: 0 <= k < |ids| ==> entries[k].id == ids[k]
  }

  lemma {:induction false} VisitsReport(
      shop: Shop, known: set<string>, provider: Provider, todo: seq<nat>, results: seq<Entry>)
      returns (entries: seq<Entry>)
    requires forall k :: 0 <= k < |todo| ==> todo[k] < |shop.checkouts|
    ensures VisitAll(shop, known, provider, todo, results).results == results + entries
    ensures Reports(entries, todo)
    decreases |todo|
  {
    if todo == [] {
      entries := [];
    } else {
      var visit := VisitOne(shop, known, provider, todo[0]);
      assert visit.entry.id == todo[0] && |visit.shop.checkouts| == |shop.checkouts|;
      hide VisitOne;
      var rest := VisitsReport(visit.shop, known, provider, todo[1..], results + [visit.entry]);
      entries := [visit.entry] + rest;
      assert results + [visit.entry] + rest == results + entries;
      forall k | 0 <= k < |todo| ensures entries[k].id == todo[k] {
        if k > 0 { assert rest[k - 1].id == todo[1..][k - 1]; }
      }
    }
  }

  /** The entries name exactly the pending checkouts, each one once. */
  ghost predicate EachOnce(results: seq<Entry>, checkouts: seq<Checkout>) {
    && (forall k, l :: 0 <= k < l < |results| ==> results[k].id < results[l].id)
    && (forall k :: 0 <= k < |results| ==> results[k].id < |checkouts| && Pending(checkouts[results[k].id]))
    && (forall i: nat :: i < |checkouts| && Pending(checkouts[i]) ==>
          exists k :: 0 <= k < |results| && results[k].id == i)
  }

  lemma ReportsEachOnce(results: seq<Entry>, checkouts: seq<Checkout>)
    requires Reports(results, PendingIds(checkouts))
    ensures EachOnce(results, checkouts)
  {
    PendingIdsAre(checkouts);
    var todo := PendingIds(checkouts);
    hide PendingIds;
    forall i: nat | i < |checkouts| && Pending(checkouts[i])
      ensures exists k :: 0 <= k < |results| && results[k].id == i
    {
      assert i in todo;
      var k :| 0 <= k < |todo| && todo[k] == i;
      assert results[k].id == i;
    }
    forall k | 0 <= k < |results| ensures results[k].id < |checkouts| && Pending(checkouts[results[k].id]) {
      assert todo[k] in todo;
    }
  }

  /** One result per paid uncompleted checkout, oldest first, and the summary adds up. */
  lemma BulkVisitsOnce(shop: Shop, provider: Provider)
    ensures var results := ReconcileAll(shop, provider).results;
            && EachOnce(results, shop.checkouts)
            && Count(results, DidReconcile) + Count(results, DidSkip) + Count(results, DidFail) == |results|
  {
    PendingIdsAre(shop.checkouts);
    var todo := PendingIds(shop.checkouts);
    var entries := VisitsReport(shop, KnownReferences(shop.db), provider, todo, []);
    assert [] + entries == entries;
    hide VisitAll;
    hide PendingIds;
    ReportsEachOnce(entries, shop.checkouts);
    CountsAddUp(entries);
  }

  // ----- the bulk report tells the truth -----

  /** `known` holds the references of the orders that have one. */
  ghost predicate References(known: set<string>, orders: seq<Order>) {
    forall r :: r in known <==> r != "" && exists o :: o in orders && o.reference == r
  }

  /**
   What an entry says of its checkout, `c` before the run and `d` after it: it was skipped exactly when
   it holds no cart, or one of `orders` is under its own reference; otherwise it is completed or failed.
   */
  ghost predicate Tells(entry: Entry, c: Checkout, d: Checkout, orders: seq<Order>) {
    && (entry.action == DidSkip <==> c.payload.None? || exists o :: o in orders && o.reference == c.reference != "")
    && match entry.action
       case DidSkip => d == c && entry.orderIds == []
       case DidFail => d == c.(status := Failed) && entry.orderIds == []
       case DidReconcile => d == c.(status := Completed, orderIds := entry.orderIds)
  }

  lemma VisitTells(shop: Shop, known: set<string>, provider: Provider, i: nat, orders: seq<Order>)
    requires i < |shop.checkouts| && References(known, orders)
    ensures var visit := VisitOne(shop, known, provider, i);
            && |visit.shop.checkouts| == |shop.checkouts|
            && (forall j: nat :: j < |shop.checkouts| && j != i ==> visit.shop.checkouts[j] == shop.checkouts[j])
            && Tells(visit.entry, shop.checkouts[i], visit.shop.checkouts[i], orders)
  {
    assert shop.checkouts[i].reference in known <==>
             exists o :: o in orders && o.reference == shop.checkouts[i].reference != "";
    hide References;
    hide Create;
    hide Ids;
  }

  /** Each visited checkout is left as its entry says, and no other checkout changes. */
  ghost predicate AllTold(a: seq<Checkout>, b: seq<Checkout>, entries: seq<Entry>, todo: seq<nat>, orders: seq<Order>) {
    && |entries| == |todo| && |b| == |a|
    && (forall k :: 0 <= k < |todo| ==> todo[k] < |a|)
    && (forall k :: 0 <= k < |todo| ==> Tells(entries[k], a[todo[k]], b[todo[k]], orders))
    && (forall j: nat :: j < |a| && j !in todo ==> b[j] == a[j])
  }

  lemma ToldOneMore(
      a: seq<Checkout>, mid: seq<Checkout>, b: seq<Checkout>, entry: Entry, rest: seq<Entry>, todo: seq<nat>,
      orders: seq<Order>)
    requires todo != [] && Increasing(todo) && todo[0] < |a| == |mid|
    requires Tells(entry, a[todo[0]], mid[todo[0]], orders)
    requires forall j: nat :: j < |a| && j != todo[0] ==> mid[j] == a[j]
    requires AllTold(mid, b, rest, todo[1..], orders)
    ensures AllTold(a, b, [entry] + rest, todo, orders)
  {
    hide Tells;
    var entries := [entry] + rest;
    assert todo[0] !in todo[1..];
    assert forall j :: j in todo <==> j == todo[0] || j in todo[1..];
    forall k | 0 <= k < |todo| ensures todo[k] < |a| && Tells(entries[k], a[todo[k]], b[todo[k]], orders) {
      if k > 0 { assert todo[1..][k - 1] == todo[k] && rest[k - 1] == entries[k]; }
    }
  }

  lemma {:induction false} VisitsTell(
      shop: Shop, known: set<string>, provider: Provider, todo: seq<nat>, results: seq<Entry>, orders: seq<Order>)
      returns (entries: seq<Entry>)
    requires forall k :: 0 <= k < |todo| ==> todo[k] < |shop.checkouts|
    requires Increasing(todo) && References(known, orders)
    ensures VisitAll(shop, known, provider, todo, results).results == results + entries
    ensures var last := VisitAll(shop, known, provider, todo, results).shop;
            AllTold(shop.checkouts, last.checkouts, entries, todo, orders)
    decreases |todo|
  {
    hide References;
    if todo == [] {
      entries := [];
    } else {
      VisitTells(shop, known, provider, todo[0], orders);
      var visit := VisitOne(shop, known, provider, todo[0]);
      var more := results + [visit.entry];
      var rest := VisitsTell(visit.shop, known, provider, todo[1..], more, orders);
      entries := [visit.entry] + rest;
      var last := VisitAll(shop, known, provider, todo, results);
      assert last == VisitAll(visit.shop, known, provider, todo[1..], more);
      hide VisitOne;
      hide VisitAll;
      hide AllTold;
      assert more + rest == results + entries;
      ToldOneMore(shop.checkouts, visit.shop.checkouts, last.shop.checkouts, visit.entry, rest, todo, orders);
    }
  }

  /**
   A pending checkout is skipped exactly when an order was under its own reference at the start or it
   holds no cart; the others end completed with the reported orders, or failed; nothing else changes.
   */
  lemma BulkReportIsTrue(shop: Shop, provider: Provider)
    ensures var bulk := ReconcileAll(shop, provider);
            AllTold(shop.checkouts, bulk.shop.checkouts, bulk.results, PendingIds(shop.checkouts), shop.db.orders)
  {
    PendingIdsAre(shop.checkouts);
    var entries := VisitsTell(shop, KnownReferences(shop.db), provider, PendingIds(shop.checkouts), [], shop.db.orders);
    assert [] + entries == entries;
  }

  // ----- which checkouts a reconciliation completes -----

  /** What a stored request owes: the goods, its delivery charge or else fee, and its tax, less its discount. */
  function StoredOwed(db: Db, p: Payload): int {
    SumBy(p.cart, PricedCost(db)) + p.tax - p.discount
    + match p.deliveryCharge
      case Some(charge) => charge
      case None =>
        match p.deliveryFee
        case Some(fee) => fee
        case None => 0
  }

  /** Everything a stored request needs to be replayed as orders under `reference`. */
  ghost predicate MayReplay(db: Db, p: Payload, reference: string, payment: PaymentData) {
    && p.cart != [] && p.email != "" && p.formComplete && reference != ""
    && (forall item :: item in p.cart ==> Priced(db, item))
    && payment.success
    && (payment.reference == "" || payment.reference == reference)
    && payment.email.Some? && Lower(payment.email.value) == Lower(p.email)
    && payment.amountKobo == (if StoredOwed(db, p) > 0 then StoredOwed(db, p) else 0)
    && CanFill(db, p.cart)
  }

  lemma ReplaysExactly(db: Db, p: Payload, reference: string, payment: PaymentData)
    ensures Create(db, ReplayRequest(p, reference, payment)).result.Ok? <==>
              || (exists o :: o in db.orders && o.reference == reference)
              || MayReplay(db, p, reference, payment)
  {
    var req := ReplayRequest(p, reference, payment);
    assert Owed(db, p.cart, ReplayToken(p)) == StoredOwed(db, p);
    assert MayOrder(db, req) <==> MayReplay(db, p, reference, payment) by {
      hide CanFill;
      hide Priced;
      hide Owed;
      hide StoredOwed;
    }
    hide MayOrder;
    hide MayReplay;
    FoundUnder(db.orders, reference);
    if OrdersOf(db.orders, reference) == [] { CreatesExactly(db, req); } else { RepeatedCall(db, req); }
    hide Create;
    hide OrdersOf;
  }

  lemma FoundUnder(orders: seq<Order>, reference: string)
    ensures OrdersOf(orders, reference) != [] <==> exists o :: o in orders && o.reference == reference
  {
    var found := OrdersOf(orders, reference);
    if found != [] {
      assert found[0] in found;
      FilterMember(orders, HasReference(reference), found[0]);
    }
    forall o | o in orders && o.reference == reference ensures o in found {
      FilterMember(orders, HasReference(reference), o);
    }
    hide OrdersOf;
  }

  /**
   A reconciliation completes a checkout exactly when it is paid, not completed yet, holds a cart, and
   its payment is verified, and orders exist under its payment reference or its request can be replayed.
   */
  lemma ReconciledExactly(shop: Shop, id: nat, provider: Provider)
    ensures Reconcile(shop, id, provider).reply.Reconciled? <==>
              && id < |shop.checkouts|
              && var c := shop.checkouts[id];
                 && c.paid && c.status != Completed && c.payload.Some?
                 && var p := c.payload.value;
                    var reference := if p.reference != "" then p.reference else c.reference;
                    && reference in provider
                    && (|| (exists o :: o in shop.db.orders && o.reference == reference)
                        || MayReplay(shop.db, p, reference, provider[reference]))
  {
    if id < |shop.checkouts| && ReplayCall(shop, id, provider).Some? {
      var c := shop.checkouts[id];
      ReplaysExactly(shop.db, c.payload.value, PaymentReference(c), provider[PaymentReference(c)]);
    }
    hide Create;
    hide OrdersOf;
    hide MayReplay;
    hide ReplayRequest;
  }

  /** What a reply tells of the checkout, and how it is left; nothing changes but by a replay. */
  ghost predicate RepliedTo(shop: Shop, id: nat, provider: Provider, next: Shop, reply: Reply) {
    && (id < |shop.checkouts| ==>
          var c := shop.checkouts[id];
          match reply
          case NotFound => false
          case NotPaid => !c.paid
          case AlreadyReconciled(orders) =>
            c.paid && c.status == Completed && orders == OrdersOf(next.db.orders, c.reference)
          case PayloadMissing => c.paid && c.status != Completed && c.payload.None?
          case VerificationFailed =>
            c.paid && c.status != Completed && c.payload.Some? &&
            (if c.payload.value.reference != "" then c.payload.value.reference else c.reference) !in provider
          case Reconciled(orders) =>
            next.checkouts == shop.checkouts[id := c.(status := Completed, orderIds := Ids(orders))]
          case ReplayFailed(_) => next.db == shop.db && next.checkouts == shop.checkouts[id := c.(status := Failed)])
    && (id >= |shop.checkouts| ==> reply == NotFound)
    && (!reply.Reconciled? && !reply.ReplayFailed? ==> next == shop)
  }

  /** Every reply to a reconciliation is true. */
  lemma ReplyIsTrue(shop: Shop, id: nat, provider: Provider)
    ensures RepliedTo(shop, id, provider, Reconcile(shop, id, provider).shop, Reconcile(shop, id, provider).reply)
  {
    if id < |shop.checkouts| && ReplayCall(shop, id, provider).Some? {
      CreateConserves(shop.db, ReplayCall(shop, id, provider).value);
    }
    hide Create;
    hide OrdersOf;
    hide Ids;
    hide Conserves;
    hide ReplayRequest;
  }

  // ----- asking again for a completed checkout -----

  /** Ids grow with every order, gaps allowed, and none is 0. */
  ghost predicate GrowingIds(db: Db) {
    && (forall i, j :: 0 <= i < j < |db.orders| ==> db.orders[i].id < db.orders[j].id)
    && (forall i :: 0 <= i < |db.orders| ==> db.orders[i].id != 0)
  }

  lemma GrowingAppend(db: Db, created: seq<Order>, next: Db)
    requires GrowingIds(db) && next.orders == db.orders + created
    requires forall i :: 0 <= i < |created| ==> created[i].id == LastId(db.orders) + 1 + i
    ensures GrowingIds(next)
  {
    var n := |db.orders|;
    assert forall i :: 0 <= i < n ==> next.orders[i] == db.orders[i] && db.orders[i].id <= LastId(db.orders);
    assert forall i :: n <= i < |next.orders| ==> next.orders[i] == created[i - n];
  }

  /** Whatever gaps the ids of the orders so far have, new orders keep them growing. */
  lemma CreateKeepsNumbers(db: Db, req: Request)
    requires GrowingIds(db)
    ensures GrowingIds(Create(db, req).db)
  {
    if OrdersOf(db.orders, req.reference) == [] {
      FirstCall(db, req);
      var out := Create(db, req);
      hide Create;
      if out.result.Ok? { GrowingAppend(db, out.result.value, out.db); }
    } else {
      RepeatedCall(db, req);
    }
  }

  lemma {:induction false} CreateAllKeepsNumbers(db: Db, reqs: seq<Request>)
    requires GrowingIds(db)
    ensures GrowingIds(CreateAll(db, reqs))
  {
    if reqs != [] {
      var n := |reqs| - 1;
      CreateAllKeepsNumbers(db, reqs[..n]);
      hide Create;
      CreateKeepsNumbers(CreateAll(db, reqs[..n]), reqs[n]);
    }
  }

  /** Orders are told apart by their ids. */
  lemma IdsTellApart(db: Db, a: string, b: string)
    requires GrowingIds(db) && OrdersOf(db.orders, a) != []
    requires Ids(OrdersOf(db.orders, a)) == Ids(OrdersOf(db.orders, b))
    ensures a == b
  {
    var x, y := OrdersOf(db.orders, a), OrdersOf(db.orders, b);
    assert x[0] in x;
    FilterMember(db.orders, HasReference(a), x[0]);
    var i :| 0 <= i < |db.orders| && db.orders[i] == x[0];
    assert AllIds(x)[0] == x[0].id;
    assert x[0].id in AllIds(x);
    FilterMember(AllIds(x), NonZero(), x[0].id);
    FilterMember(AllIds(y), NonZero(), x[0].id);
    var l :| 0 <= l < |y| && AllIds(y)[l] == x[0].id;
    assert y[l] in y;
    FilterMember(db.orders, HasReference(b), y[l]);
    var j :| 0 <= j < |db.orders| && db.orders[j] == y[l];
    assert i == j;
  }

  /** While ids grow, a completed checkout records the ids of all its orders, in their order. */
  lemma RecordsEveryOrder(shop: Shop, i: nat)
    requires i < |shop.checkouts| && Settled(shop, i) && GrowingIds(shop.db)
    ensures var c := shop.checkouts[i];
            var orders := OrdersOf(shop.db.orders, PaymentReference(c));
            |c.orderIds| == |orders| >= 1 && forall k :: 0 <= k < |orders| ==> c.orderIds[k] == orders[k].id
  {
    var orders := OrdersOf(shop.db.orders, PaymentReference(shop.checkouts[i]));
    forall k | 0 <= k < |orders| ensures AllIds(orders)[k] != 0 {
      assert orders[k] in orders;
      FilterMember(shop.db.orders, HasReference(PaymentReference(shop.checkouts[i])), orders[k]);
    }
    hide OrdersOf;
    FilterKeepsAll(AllIds(orders), NonZero());
  }

  /** The stored request names a payment reference other than the checkout's own. */
  predicate ForeignReference(c: Checkout) {
    c.payload.Some? && c.payload.value.reference != "" && c.payload.value.reference != c.reference
  }

  /**
   Reconciling a checkout these calls completed returns the orders it recorded exactly when its
   stored request names no payment reference other than the checkout's own.
   */
  lemma AskingAgain(shop: Shop, i: nat, provider: Provider)
    requires i < |shop.checkouts| && Settled(shop, i) && shop.checkouts[i].paid && GrowingIds(shop.db)
    ensures var c, out := shop.checkouts[i], Reconcile(shop, i, provider);
            && out.shop == shop && out.reply.AlreadyReconciled?
            && (Ids(out.reply.orders) == c.orderIds <==> !ForeignReference(c))
  {
    var c := shop.checkouts[i];
    if Ids(OrdersOf(shop.db.orders, c.reference)) == c.orderIds {
      IdsTellApart(shop.db, PaymentReference(c), c.reference);
    }
  }

  /** So for a checkout that has just been reconciled, and is asked for once more. */
  lemma ReconciledThenAsked(shop: Shop, i: nat, first: Provider, second: Provider)
    requires GrowingIds(shop.db) && Reconcile(shop, i, first).reply.Reconciled?
    ensures var next := Reconcile(shop, i, first).shop;
            var again := Reconcile(next, i, second);
            && i < |next.checkouts| && again.shop == next && again.reply.AlreadyReconciled?
            && (Ids(again.reply.orders) == next.checkouts[i].orderIds <==> !ForeignReference(shop.checkouts[i]))
  {
    var req := ReplayCall(shop, i, first).value;
    var next := Reconcile(shop, i, first).shop;
    CreateKeepsNumbers(shop.db, req);
    StepEvolves(shop, ReconcileCall(i, first));
    hide Create;
    hide OrdersOf;
    assert next.checkouts[i].status == Completed;
    assert Lived(shop, next, i);
    hide Frozen;
    AskingAgain(next, i, second);
  }
}
