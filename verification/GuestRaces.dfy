/**
 `createGuestOrder` looks for orders of the payment reference before its transaction begins. Here that
 check and the transaction are separate moves of numbered calls, interleaved in any way.
 */
module GuestRaces {
  import opened Outcomes
  import opened GuestOrders
  import opened GuestStock
  import opened GuestGrouping
  import opened GuestMoney
  import opened GuestDemand
  import opened GuestCharges
  import opened GuestRuns
  import opened GuestFaults

  /** `calls` holds the calls that found no orders and have not finished their transaction. */
  datatype World = World(db: Db, calls: map<nat, Request>)

  datatype Move = Check(pid: nat, req: Request) | Finish(pid: nat)

  function MoveOne(w: World, m: Move): World {
    match m
    case Check(pid, req) =>
      if pid !in w.calls && OrdersOf(w.db.orders, req.reference) == [] then w.(calls := w.calls[pid := req]) else w
    case Finish(pid) =>
      if pid !in w.calls then w
      else
        match Commit(w.db, w.calls[pid])
        case Ok(next) => World(next, w.calls - {pid})
        case Err(_) => w.(calls := w.calls - {pid})
  }

  function RunMoves(w: World, moves: seq<Move>): World {
    if moves == [] then w else MoveOne(RunMoves(w, moves[..|moves| - 1]), moves[|moves| - 1])
  }

  /** Without interleaving the two moves are one call. */
  lemma SerialIsCreate(w: World, pid: nat, req: Request)
    requires pid !in w.calls
    ensures MoveOne(MoveOne(w, Check(pid, req)), Finish(pid)).db == Create(w.db, req).db
  {
    hide Commit;
    hide OrdersOf;
  }

  /** The move commits orders under `r`. */
  predicate Commits(w: World, m: Move, r: string) {
    m.Finish? && m.pid in w.calls && w.calls[m.pid].reference == r && Commit(w.db, w.calls[m.pid]).Ok?
  }

  // ----- stock -----

  /** Stock is conserved in every interleaving, however many calls share a payment. */
  lemma {:induction false} RaceConserves(w: World, moves: seq<Move>)
    ensures Conserves(w.db, RunMoves(w, moves).db)
  {
    hide Conserves;
    hide Commit;
    hide OrdersOf;
    ConservesItself(w.db);
    if moves != [] {
      var n := |moves| - 1;
      var before, m := RunMoves(w, moves[..n]), moves[n];
      RaceConserves(w, moves[..n]);
      ConservesItself(before.db);
      if m.Finish? && m.pid in before.calls && Commit(before.db, before.calls[m.pid]).Ok? {
        CommitConserves(before.db, before.calls[m.pid]);
      }
      ConservesTwice(w.db, before.db, MoveOne(before, m).db);
    }
  }

  // ----- batches -----

  /** A move adds orders under `r` exactly when it commits some. */
  lemma MoveAdds(w: World, m: Move, r: string) returns (batch: seq<Order>)
    ensures OrdersOf(MoveOne(w, m).db.orders, r) == OrdersOf(w.db.orders, r) + batch
    ensures batch != [] <==> Commits(w, m, r)
  {
    hide OrdersOf;
    batch := [];
    if m.Finish? && m.pid in w.calls && Commit(w.db, w.calls[m.pid]).Ok? {
      batch := CommitAdds(w.db, w.calls[m.pid], r);
    }
    hide Commit;
    assert OrdersOf(w.db.orders, r) + [] == OrdersOf(w.db.orders, r);
  }

  lemma CommitAdds(db: Db, req: Request, r: string) returns (batch: seq<Order>)
    requires Commit(db, req).Ok?
    ensures OrdersOf(Commit(db, req).value.orders, r) == OrdersOf(db.orders, r) + batch
    ensures batch != [] <==> req.reference == r
  {
    hide *;
    var token, groups, created, subtotal := CommittedMakes(db, req);
    CommittedReferences(db, req, token, groups, created, subtotal);
    OrdersOfNew(created, req.reference, r);
    OrdersOfConcat(db.orders, created, r);
    batch := if r == req.reference then created else [];
  }

  /** The world before move `i`. */
  function At(w: World, moves: seq<Move>, i: nat): World
    requires i <= |moves|
  {
    RunMoves(w, moves[..i])
  }

  lemma AtNext(w: World, moves: seq<Move>, i: nat)
    requires i < |moves|
    ensures At(w, moves, i + 1) == MoveOne(At(w, moves, i), moves[i])
  {
    assert moves[..i + 1][..i] == moves[..i];
  }

  ghost predicate CommitsAt(w: World, moves: seq<Move>, r: string, i: nat) {
    i < |moves| && Commits(At(w, moves, i), moves[i], r)
  }

  /** Orders under `r` only grow, and do so exactly when a move between commits some. */
  lemma {:induction false} OrdersGrow(w: World, moves: seq<Move>, r: string, i: nat, j: nat)
    requires i <= j <= |moves|
    ensures OrdersOf(At(w, moves, i).db.orders, r) <= OrdersOf(At(w, moves, j).db.orders, r)
    ensures OrdersOf(At(w, moves, i).db.orders, r) == OrdersOf(At(w, moves, j).db.orders, r)
            <==> forall k :: i <= k < j ==> !CommitsAt(w, moves, r, k)
    decreases j - i
  {
    hide OrdersOf;
    hide MoveOne;
    hide RunMoves;
    hide Commits;
    if i < j {
      OrdersGrow(w, moves, r, i, j - 1);
      AtNext(w, moves, j - 1);
      var batch := MoveAdds(At(w, moves, j - 1), moves[j - 1], r);
      assert batch != [] <==> CommitsAt(w, moves, r, j - 1);
      hide CommitsAt;
      hide At;
      assert (forall k :: i <= k < j ==> !CommitsAt(w, moves, r, k))
             <==> (forall k :: i <= k < j - 1 ==> !CommitsAt(w, moves, r, k)) && !CommitsAt(w, moves, r, j - 1);
      var a, b := OrdersOf(At(w, moves, i).db.orders, r), OrdersOf(At(w, moves, j - 1).db.orders, r);
      assert a <= b && OrdersOf(At(w, moves, j).db.orders, r) == b + batch;
      assert a == b + batch <==> a == b && batch == [];
    }
  }

  /** When a call got past its check, and that nothing happened to it until move `j`. */
  ghost predicate CheckedAt(w: World, moves: seq<Move>, pid: nat, req: Request, k: nat, j: nat) {
    && k < j <= |moves|
    && moves[k] == Check(pid, req)
    && OrdersOf(At(w, moves, k).db.orders, req.reference) == []
    && forall n :: k < n <= j ==> pid in At(w, moves, n).calls && At(w, moves, n).calls[pid] == req
  }

  lemma {:induction false} CheckOf(w: World, moves: seq<Move>, pid: nat, j: nat) returns (k: nat)
    requires w.calls == map[] && j <= |moves| && pid in At(w, moves, j).calls
    ensures CheckedAt(w, moves, pid, At(w, moves, j).calls[pid], k, j)
  {
    hide OrdersOf;
    hide Commit;
    assert j > 0;
    AtNext(w, moves, j - 1);
    var before, req := At(w, moves, j - 1), At(w, moves, j).calls[pid];
    hide At;
    if pid in before.calls {
      assert before.calls[pid] == req;
      k := CheckOf(w, moves, pid, j - 1);
    } else {
      k := j - 1;
    }
  }

  /** Move `i` commits orders under `r` between the check, at `k`, and the commit, at `j`, of another call for `r`. */
  ghost predicate Between(w: World, moves: seq<Move>, r: string, k: nat, i: nat, j: nat) {
    && k < i < j < |moves|
    && CommitsAt(w, moves, r, i) && CommitsAt(w, moves, r, j)
    && moves[i].pid != moves[j].pid
    && CheckedAt(w, moves, moves[j].pid, At(w, moves, j).calls[moves[j].pid], k, j)
  }

  lemma SecondWasChecked(w: World, moves: seq<Move>, r: string, i: nat, j: nat) returns (k: nat)
    requires w.calls == map[] && i < j && CommitsAt(w, moves, r, i) && CommitsAt(w, moves, r, j)
    ensures Between(w, moves, r, k, i, j)
  {
    var pid := moves[j].pid;
    k := CheckOf(w, moves, pid, j);
    hide OrdersOf;
    hide Commit;
    AtNext(w, moves, i);
    assert moves[i].pid !in At(w, moves, i + 1).calls;
    hide MoveOne;
    hide RunMoves;
    if k > i {
      OrdersGrow(w, moves, r, i, k);
    }
    assert k != i;
    assert pid in At(w, moves, i + 1).calls;
  }

  /** Only move `i` commits orders under `r`. */
  ghost predicate OnlyBatch(w: World, moves: seq<Move>, r: string, i: nat) {
    CommitsAt(w, moves, r, i) && forall j :: 0 <= j < |moves| && j != i ==> !CommitsAt(w, moves, r, j)
  }

  /** Then all orders under `r` are the ones it committed. */
  lemma OnlyBatchIsAll(w: World, moves: seq<Move>, r: string, i: nat)
    requires OrdersOf(w.db.orders, r) == [] && OnlyBatch(w, moves, r, i)
    ensures OrdersOf(At(w, moves, i).db.orders, r) == []
    ensures OrdersOf(RunMoves(w, moves).db.orders, r) == OrdersOf(At(w, moves, i + 1).db.orders, r)
  {
    assert moves[..0] == [] && moves[..|moves|] == moves;
    OrdersGrow(w, moves, r, 0, i);
    OrdersGrow(w, moves, r, i + 1, |moves|);
    hide CommitsAt;
    hide OrdersOf;
  }

  /**
   In every interleaving, orders under a payment reference come from one transaction exactly when no
   transaction for it commits between the check and the commit of another call for it.
   */
  lemma OneBatchExactly(w: World, moves: seq<Move>, r: string)
    requires w.calls == map[] && OrdersOf(w.db.orders, r) == [] && OrdersOf(RunMoves(w, moves).db.orders, r) != []
    ensures (exists i: nat :: OnlyBatch(w, moves, r, i))
            <==> !exists k: nat, i: nat, j: nat :: Between(w, moves, r, k, i, j)
  {
    assert moves[..0] == [] && moves[..|moves|] == moves;
    OrdersGrow(w, moves, r, 0, |moves|);
    hide OrdersOf;
    hide RunMoves;
    var first :| 0 <= first < |moves| && CommitsAt(w, moves, r, first);
    hide CommitsAt;
    hide CheckedAt;
    if !OnlyBatch(w, moves, r, first) {
      var other :| 0 <= other < |moves| && other != first && CommitsAt(w, moves, r, other);
      var i: nat, j: nat := if first < other then first else other, if first < other then other else first;
      var k := SecondWasChecked(w, moves, r, i, j);
      assert Between(w, moves, r, k, i, j);
    }
    if k: nat, i: nat, j: nat :| Between(w, moves, r, k, i, j) {
      assert CommitsAt(w, moves, r, i) && CommitsAt(w, moves, r, j);
    }
  }

  // ----- ordering a cart twice with one payment -----

  lemma DoubledLines(cart: seq<CartItem>)
    ensures CartLines(cart + cart) == CartLines(cart) + CartLines(cart)
  {
  }

  /** A cart can be filled a second time after it has been ordered exactly when it can be filled twice over. */
  lemma FillsTwice(db: Db, req: Request)
    requires Commit(db, req).Ok?
    ensures CanFill(Commit(db, req).value, req.cart) <==> CanFill(db, req.cart + req.cart)
  {
    var cart, token := req.cart, BasicCheck(req).value;
    var groups, next := GroupLines(db, [], cart).value, Commit(db, req).value;
    var lines := CartLines(cart);
    CommitsExactly(db, req);
    CommitConserves(db, req);
    PlaceGroupsStock(db, [], req.reference, MultiSeller(cart), token, groups);
    var placed := PlaceLines(db, [], AllLines(groups)).value;
    assert next == placed.db.(orders := next.orders);
    hide Commit;
    GroupsPermuteCart(db, [], cart);
    hide GroupLines;
    StockLeft(db, AllLines(groups), lines, next);
    DoubledLines(cart);
    FitsPermuted(db, AllLines(groups) + lines, lines + lines);
    StoresStay(db, next, cart);
    hide Fits;
  }

  lemma StockLeft(db: Db, first: seq<Line>, second: seq<Line>, next: Db)
    requires PlaceLines(db, [], first).Ok?
    requires next == PlaceLines(db, [], first).value.db.(orders := next.orders)
    ensures Fits(next, second) <==> Fits(db, first + second)
  {
    var placed := PlaceLines(db, [], first).value;
    hide PlaceLines;
    hide Fits;
    PlaceLinesConcat(db, [], first, second);
    PlaceLinesExactly(db, [], first + second);
    PlaceLinesIgnoresOrders(placed.db, placed.items, second, next.orders);
    PlaceLinesExactly(next, placed.items, second);
  }

  lemma StoresStay(db: Db, next: Db, cart: seq<CartItem>)
    requires SameCatalog(db, next)
    ensures (forall item :: item in cart ==> RightStore(next, item))
            <==> (forall item :: item in cart + cart ==> RightStore(db, item))
  {
    forall item ensures RightStore(next, item) <==> RightStore(db, item) {
      assert item.productId in db.products <==> item.productId in next.products;
    }
  }

  /** Two calls for one paid cart both look, then both commit. */
  function Twice(req: Request): seq<Move> {
    [Check(0, req), Check(1, req), Finish(0), Finish(1)]
  }

  lemma TwiceRuns(db: Db, req: Request)
    requires OrdersOf(db.orders, req.reference) == []
    ensures var w := World(db, map[]);
            && At(w, Twice(req), 2) == World(db, map[0 := req, 1 := req])
            && At(w, Twice(req), 3).calls == map[1 := req]
            && (Commit(db, req).Ok? ==> At(w, Twice(req), 3).db == Commit(db, req).value)
  {
    var w, moves := World(db, map[]), Twice(req);
    assert moves[..0] == [];
    AtNext(w, moves, 0);
    AtNext(w, moves, 1);
    AtNext(w, moves, 2);
    hide RunMoves;
    hide Commit;
    hide OrdersOf;
    var w0 := At(w, moves, 0);
    assert w0 == w by { NoMoves(w, moves); }
    assert At(w, moves, 1) == World(db, map[0 := req]);
    assert At(w, moves, 2) == World(db, map[0 := req, 1 := req]);
    assert At(w, moves, 3).calls == map[0 := req, 1 := req] - {0};
    assert map[0 := req, 1 := req] - {0} == map[1 := req];
  }

  lemma NoMoves(w: World, moves: seq<Move>)
    ensures At(w, moves, 0) == w
  {
    assert moves[..0] == [];
  }

  /** One payment orders a priced cart twice in that interleaving exactly when the shelves hold it twice. */
  lemma PaidOnceOrderedTwice(db: Db, cart: seq<CartItem>, reference: string)
    requires reference != "" && OrdersOf(db.orders, reference) == []
    requires CartSubtotal(db, cart).Ok? && CanFill(db, cart)
    ensures var moves := Twice(PaidRequest(cart, reference, Due(db, cart)));
            && CommitsAt(World(db, map[]), moves, reference, 2)
            && (CommitsAt(World(db, map[]), moves, reference, 3) <==> CanFill(db, cart + cart))
  {
    var req := PaidRequest(cart, reference, Due(db, cart));
    DeliveredCommits(db, cart, reference, 0);
    TwiceRuns(db, req);
    FillsTwice(db, req);
    CommitConserves(db, req);
    var next := Commit(db, req).value;
    hide Commit;
    hide CanFill;
    hide OrdersOf;
    hide At;
    SamePrice(db, next, cart);
    if CanFill(next, cart) {
      DeliveredCommits(next, cart, reference, 0);
    } else {
      CommitsExactly(next, req);
    }
    hide CartSubtotal;
  }

  /** A shop with two pieces of a product: one payment for one of them orders both. */
  lemma OnePaymentTwoOrders()
    ensures exists db: Db, moves ::
              && db.orders == []
              && CommitsAt(World(db, map[]), moves, "r", 2) && CommitsAt(World(db, map[]), moves, "r", 3)
  {
    var db := Db(map[1 := Product(5, 2, 10, true, 0)], map[], {10}, []);
    var item := CartItem(1, None, None, Id(10), 1);
    assert [item][1..] == [];
    assert PriceLines(db, 5, [item][1..]) == Ok(5);
    assert CartSubtotal(db, [item]) == Ok(5);
    OneItemFills(db, item);
    SameItemFillsTwice(db, item);
    hide CanFill;
    hide CartSubtotal;
    PaidOnceOrderedTwice(db, [item], "r");
    hide CommitsAt;
  }

  lemma SameItemFillsTwice(db: Db, item: CartItem)
    requires RightStore(db, item) && Orderable(db, LineOf(item)) && LineOf(item).variantId == 0
    requires 2 * item.quantity <= db.products[item.productId].unit
    ensures CanFill(db, [item] + [item])
  {
    var line := LineOf(item);
    assert CartLines([item] + [item]) == [line, line];
    TakeLineExactly(db, line);
    var db1 := TakeLine(db, line).value;
    TakeLineExactly(db1, line);
    assert [line, line][1..] == [line] && [line][1..] == [];
    var db2, items := TakeLine(db1, line).value, [ItemOf(db, line)];
    assert [] + [ItemOf(db, line)] == items;
    assert PlaceLines(db2, items + [ItemOf(db1, line)], []).Ok?;
    assert PlaceLines(db1, items, [line]) == PlaceLines(db2, items + [ItemOf(db1, line)], [line][1..]);
    assert PlaceLines(db, [], [line, line]) == PlaceLines(db1, items, [line, line][1..]);
    PlaceLinesExactly(db, [], [line, line]);
    hide Fits;
  }

  lemma SamePrice(db: Db, next: Db, cart: seq<CartItem>)
    requires SameCatalog(db, next) && CartSubtotal(db, cart).Ok?
    ensures CartSubtotal(next, cart) == CartSubtotal(db, cart) && Due(next, cart) == Due(db, cart)
  {
    CostStable(db, next, cart);
    CartPrice(db, cart);
    CartPrice(next, cart);
    hide CartSubtotal;
    hide Priced;
  }
}
