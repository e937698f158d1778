/**
 `driverSelectOrder` checks, then writes twice outside any transaction. Here its check and its two
 writes are separate moves of numbered requests, interleaved with each other and with every whole
 call of the service.
 */
module DeliveryRaces {
  import opened Outcomes
  import opened Delivery
  import opened DeliveryInvariants

  /** A select request past its check, holding the id of its own link. */
  datatype Phase = Checked(link: nat) | Marked(link: nat)

  datatype Racing = Racing(s: State, requests: map<nat, Phase>)

  datatype Move =
    | Whole(call: Call)
    | Check(pid: nat, driver: int, order: int)
    | Mark(pid: nat)
    | Clear(pid: nat)

  predicate Holds(r: Racing, pid: nat) {
    pid in r.requests && r.requests[pid].link < |r.s.links|
  }

  function MoveOne(r: Racing, m: Move): Racing {
    match m
    case Whole(call) => r.(s := Step(r.s, call))
    case Check(pid, driver, order) =>
      if pid !in r.requests && SelectAllowed(r.s, driver, order)
      then r.(requests := r.requests[pid := Checked(FindLink(r.s.links, driver, order).value)])
      else r
    case Mark(pid) =>
      if Holds(r, pid) && r.requests[pid].Checked? then
        var k := r.requests[pid].link;
        Racing(r.s.(links := r.s.links[k := r.s.links[k].(assignment := InTransit)]),
               r.requests[pid := Marked(k)])
      else r
    case Clear(pid) =>
      if Holds(r, pid) && r.requests[pid].Marked? then
        var l := r.s.links[r.requests[pid].link];
        Racing(r.s.(links := UnassignOthers(r.s.links, l.order, l.driver)), r.requests - {pid})
      else r
  }

  function RaceRun(r: Racing, moves: seq<Move>): Racing
    decreases |moves|
  {
    if moves == [] then r else RaceRun(MoveOne(r, moves[0]), moves[1..])
  }

  /** Without interleaving the check and the two writes are one call. */
  lemma SerialIsSelect(r: Racing, pid: nat, driver: int, order: int)
    requires pid !in r.requests
    ensures MoveOne(MoveOne(MoveOne(r, Check(pid, driver, order)), Mark(pid)), Clear(pid))
         == r.(s := Step(r.s, Select(driver, order)))
  {
    var a := MoveOne(r, Check(pid, driver, order));
    if a != r {
      var b := MoveOne(a, Mark(pid));
      assert b.requests - {pid} == r.requests;
    }
  }

  /** A request that marked link `k` has not cleared the others yet. */
  ghost predicate Midway(r: Racing, k: nat) {
    exists pid :: pid in r.requests && r.requests[pid] == Marked(k)
  }

  ghost predicate BothInTransit(links: seq<Link>, i: nat, j: nat)
    requires i < |links| && j < |links|
  {
    i != j && links[i].order == links[j].order && links[i].assignment == InTransit && links[j].assignment == InTransit
  }

  /** Two links of one order are in transit together only while one of them is midway. */
  ghost predicate RaceInvariant(r: Racing) {
    && Sound(r.s)
    && (forall pid :: pid in r.requests ==> r.requests[pid].link < |r.s.links|)
    && (forall i, j :: 0 <= i < |r.s.links| && 0 <= j < |r.s.links| && BothInTransit(r.s.links, i, j) ==>
          Midway(r, i) || Midway(r, j))
  }

  /** Changing nothing but assignments keeps the tables sound. */
  lemma RelabelKeepsSound(s: State, links: seq<Link>)
    requires Sound(s) && |links| == |s.links|
    requires forall i :: 0 <= i < |links| ==>
               links[i].driver == s.links[i].driver && links[i].order == s.links[i].order
    ensures Sound(s.(links := links))
  {
    forall l | l in links ensures l.order in s.orders && s.orders[l.order].company != 0 {
      var i :| 0 <= i < |links| && links[i] == l;
      assert s.links[i] in s.links;
    }
  }

  lemma MarkKeeps(r: Racing, pid: nat)
    requires RaceInvariant(r)
    ensures RaceInvariant(MoveOne(r, Mark(pid)))
  {
    var r' := MoveOne(r, Mark(pid));
    if r' != r {
      RelabelKeepsSound(r.s, r'.s.links);
      var k := r.requests[pid].link;
      assert r'.requests[pid] == Marked(k);
      forall i, j | 0 <= i < |r'.s.links| && 0 <= j < |r'.s.links| && BothInTransit(r'.s.links, i, j)
        ensures Midway(r', i) || Midway(r', j)
      {
        if i != k && j != k {
          assert BothInTransit(r.s.links, i, j);
          var m := if Midway(r, i) then i else j;
          var q :| q in r.requests && r.requests[q] == Marked(m);
          assert r'.requests[q] == Marked(m);
        }
      }
    }
  }

  /** With unique links the bulk update spares only link `k` of its order. */
  lemma OthersUnassigned(links: seq<Link>, k: nat)
    requires k < |links| && UniqueLinks(links)
    ensures var r := UnassignOthers(links, links[k].order, links[k].driver);
            && r[k] == links[k]
            && forall i :: 0 <= i < |links| && i != k && links[i].order == links[k].order ==>
                 r[i].assignment == Unassigned
  {
    forall i | 0 <= i < |links| && i != k && links[i].order == links[k].order
      ensures links[i].driver != links[k].driver
    {
      assert i < k ==> links[i].driver != links[k].driver;
      assert k < i ==> links[k].driver != links[i].driver;
    }
  }

  lemma ClearKeeps(r: Racing, pid: nat)
    requires RaceInvariant(r)
    ensures RaceInvariant(MoveOne(r, Clear(pid)))
  {
    var r' := MoveOne(r, Clear(pid));
    if r' != r {
      RelabelKeepsSound(r.s, r'.s.links);
      var k := r.requests[pid].link;
      OthersUnassigned(r.s.links, k);
      forall i, j | 0 <= i < |r'.s.links| && 0 <= j < |r'.s.links| && BothInTransit(r'.s.links, i, j)
        ensures Midway(r', i) || Midway(r', j)
      {
        assert BothInTransit(r.s.links, i, j);
        assert i != k && j != k;
        var m := if Midway(r, i) then i else j;
        var q :| q in r.requests && r.requests[q] == Marked(m);
        assert q in r'.requests && r'.requests[q] == Marked(m);
      }
    }
  }

  /** A whole call puts a link in transit only by taking every other link of its order out of it. */
  lemma WholeKeepsSingle(s: State, c: Call, i: nat, j: nat)
    requires Sound(s) && i < |Step(s, c).links| && j < |Step(s, c).links|
    requires BothInTransit(Step(s, c).links, i, j)
    ensures |s.links| <= |Step(s, c).links|
    ensures i < |s.links| && j < |s.links| && BothInTransit(s.links, i, j)
  {
    if c.Pickup? && Apply(s, c).Some? {
      TakeOverEffect(s.links, FindLink(s.links, c.driver, c.order).value);
    } else if c.Select? && Apply(s, c).Some? {
      TakeOverEffect(s.links, FindLink(s.links, c.driver, c.order).value);
    }
  }

  lemma StepKeepsSound(s: State, c: Call)
    requires Sound(s)
    ensures Sound(Step(s, c)) && |s.links| <= |Step(s, c).links|
  {
    if Apply(s, c).Some? {
      match c
      case Send(driver, company, sender) => SendKeeps(s, driver, company, sender);
      case Accept(id) => AcceptKeeps(s, id);
      case Reject(id) => RejectKeeps(s, id);
      case Take(order, company) => TakeKeeps(s, order, company);
      case Pickup(order, company, driver, code) =>
        MoveKeeps(s, FindLink(s.links, driver, order).value, Step(s, c));
      case Select(driver, order) =>
        MoveKeeps(s, FindLink(s.links, driver, order).value, Step(s, c));
      case Deliver(order, driver, otp) => DeliverKeeps(s, order, driver, otp);
    }
  }

  lemma WholeKeeps(r: Racing, c: Call)
    requires RaceInvariant(r)
    ensures RaceInvariant(MoveOne(r, Whole(c)))
  {
    var r' := MoveOne(r, Whole(c));
    StepKeepsSound(r.s, c);
    forall i, j | 0 <= i < |r'.s.links| && 0 <= j < |r'.s.links| && BothInTransit(r'.s.links, i, j)
      ensures Midway(r', i) || Midway(r', j)
    {
      WholeKeepsSingle(r.s, c, i, j);
      var m := if Midway(r, i) then i else j;
      var q :| q in r.requests && r.requests[q] == Marked(m);
      assert r'.requests[q] == Marked(m);
    }
  }

  lemma CheckKeeps(r: Racing, pid: nat, driver: int, order: int)
    requires RaceInvariant(r)
    ensures RaceInvariant(MoveOne(r, Check(pid, driver, order)))
  {
    var r' := MoveOne(r, Check(pid, driver, order));
    forall i, j | 0 <= i < |r'.s.links| && 0 <= j < |r'.s.links| && BothInTransit(r'.s.links, i, j)
      ensures Midway(r', i) || Midway(r', j)
    {
      var m := if Midway(r, i) then i else j;
      var q :| q in r.requests && r.requests[q] == Marked(m);
      assert r'.requests[q] == Marked(m);
    }
  }

  lemma MoveKeepsRaces(r: Racing, m: Move)
    requires RaceInvariant(r)
    ensures RaceInvariant(MoveOne(r, m))
  {
    match m
    case Whole(call) => WholeKeeps(r, call);
    case Check(pid, driver, order) => CheckKeeps(r, pid, driver, order);
    case Mark(pid) => MarkKeeps(r, pid);
    case Clear(pid) => ClearKeeps(r, pid);
  }

  lemma {:induction false} RaceRunKeeps(r: Racing, moves: seq<Move>)
    requires RaceInvariant(r)
    ensures RaceInvariant(RaceRun(r, moves))
    decreases |moves|
  {
    if moves != [] {
      hide MoveOne;
      hide RaceInvariant;
      MoveKeepsRaces(r, moves[0]);
      RaceRunKeeps(MoveOne(r, moves[0]), moves[1..]);
    }
  }

  /** No request is between its two writes on `order`. */
  ghost predicate Settled(r: Racing, order: int) {
    forall k: nat :: k < |r.s.links| && r.s.links[k].order == order ==> !Midway(r, k)
  }

  /**
   Any number of concurrent selects, interleaved with whole calls, leave at most one link of an
   order in transit once no request is midway on that order.
   */
  lemma AtMostOneInTransit(s: State, moves: seq<Move>, order: int)
    requires Invariant(s)
    requires Settled(RaceRun(Racing(s, map[]), moves), order)
    ensures var links := RaceRun(Racing(s, map[]), moves).s.links;
            forall i, j :: 0 <= i < j < |links| && links[i].order == order == links[j].order ==>
              links[i].assignment != InTransit || links[j].assignment != InTransit
  {
    RaceRunKeeps(Racing(s, map[]), moves);
    var r := RaceRun(Racing(s, map[]), moves);
    var links := r.s.links;
    forall i, j | 0 <= i < j < |links| && links[i].order == order == links[j].order
      ensures links[i].assignment != InTransit || links[j].assignment != InTransit
    {
      assert !Midway(r, i) && !Midway(r, j);
      assert !BothInTransit(links, i, j);
    }
  }

  // ----- who is left holding the order -----

  /** The move takes the driver of link `k` off its order, or ends the delivery. */
  predicate Displaces(r: Racing, m: Move, k: nat) {
    && k < |r.s.links|
    && var l := r.s.links[k];
       match m
       case Whole(Pickup(order, company, driver, code)) =>
         order == l.order && driver != l.driver && PickupAllowed(r.s, order, company, driver, code)
       case Whole(Select(driver, order)) => order == l.order && driver != l.driver && SelectAllowed(r.s, driver, order)
       case Whole(Deliver(order, driver, otp)) => Links(l, driver, order) && DeliveryAllowed(r.s, order, driver, otp)
       case Clear(pid) =>
         && Holds(r, pid) && r.requests[pid].Marked?
         && r.requests[pid].link != k && r.s.links[r.requests[pid].link].order == l.order
       case _ => false
  }

  /** The move puts link `k` in transit. */
  predicate Reinstates(r: Racing, m: Move, k: nat) {
    && k < |r.s.links|
    && var l := r.s.links[k];
       match m
       case Whole(Pickup(order, company, driver, code)) =>
         Links(l, driver, order) && PickupAllowed(r.s, order, company, driver, code)
       case Whole(Select(driver, order)) => Links(l, driver, order) && SelectAllowed(r.s, driver, order)
       case Mark(pid) => Holds(r, pid) && r.requests[pid] == Checked(k)
       case _ => false
  }

  /** Links are told apart by driver and order. */
  lemma SameLink(links: seq<Link>, i: nat, j: nat)
    requires UniqueLinks(links) && i < |links| && j < |links|
    requires links[i].driver == links[j].driver && links[i].order == links[j].order
    ensures i == j
  {
  }

  lemma TakeOverAt(links: seq<Link>, j: nat, k: nat)
    requires UniqueLinks(links) && j < |links| && k < |links|
    ensures TakeOver(links, j)[k].driver == links[k].driver && TakeOver(links, j)[k].order == links[k].order
    ensures TakeOver(links, j)[k].assignment ==
            if k == j then InTransit else if links[k].order == links[j].order then Unassigned else links[k].assignment
  {
    TakeOverEffect(links, j);
  }

  lemma WholeAt(r: Racing, c: Call, k: nat)
    requires RaceInvariant(r) && k < |r.s.links|
    ensures k < |Step(r.s, c).links|
    ensures var l, l' := r.s.links[k], Step(r.s, c).links[k];
            && l'.driver == l.driver && l'.order == l.order
            && (l'.assignment == InTransit <==>
                  !Displaces(r, Whole(c), k) && (Reinstates(r, Whole(c), k) || l.assignment == InTransit))
  {
    if Apply(r.s, c).Some? {
      match c
      case Pickup(order, _, driver, _) =>
        var j := FindLink(r.s.links, driver, order).value;
        TakeOverAt(r.s.links, j, k);
        if Links(r.s.links[k], driver, order) { SameLink(r.s.links, j, k); }
      case Select(driver, order) =>
        var j := FindLink(r.s.links, driver, order).value;
        TakeOverAt(r.s.links, j, k);
        if Links(r.s.links[k], driver, order) { SameLink(r.s.links, j, k); }
      case Deliver(order, driver, _) =>
        var j := FindCarrying(r.s.links, driver, order).value;
        if Links(r.s.links[k], driver, order) { SameLink(r.s.links, j, k); }
      case _ =>
    }
  }

  /** After one move link `k` is in transit if the move put it there, or it was and was not displaced. */
  lemma OneMove(r: Racing, m: Move, k: nat)
    requires RaceInvariant(r) && k < |r.s.links|
    ensures k < |MoveOne(r, m).s.links|
    ensures var l, l' := r.s.links[k], MoveOne(r, m).s.links[k];
            && l'.driver == l.driver && l'.order == l.order
            && (l'.assignment == InTransit <==>
                  !Displaces(r, m, k) && (Reinstates(r, m, k) || l.assignment == InTransit))
  {
    match m
    case Whole(c) => WholeAt(r, c, k);
    case Check(_, _, _) =>
    case Mark(_) =>
    case Clear(pid) =>
      if Holds(r, pid) && r.requests[pid].Marked? { OthersUnassigned(r.s.links, r.requests[pid].link); }
  }

  /** Link `k` was put in transit by move `j - 1`, or was so at the start, and not displaced since. */
  ghost predicate CarriedFrom(r: Racing, moves: seq<Move>, k: nat, j: nat) {
    && k < |r.s.links| && j <= |moves|
    && (if j == 0 then r.s.links[k].assignment == InTransit
        else Reinstates(RaceRun(r, moves[..j - 1]), moves[j - 1], k))
    && forall i :: j <= i < |moves| ==> !Displaces(RaceRun(r, moves[..i]), moves[i], k)
  }

  lemma {:induction false} RaceRunLast(r: Racing, moves: seq<Move>, n: nat)
    requires n < |moves|
    ensures RaceRun(r, moves[..n + 1]) == MoveOne(RaceRun(r, moves[..n]), moves[n])
    decreases n
  {
    if n > 0 {
      RaceRunLast(MoveOne(r, moves[0]), moves[1..], n - 1);
      assert moves[..n][1..] == moves[1..][..n - 1] && moves[..n + 1][1..] == moves[1..][..n];
    }
  }

  lemma CarriedFromStep(r: Racing, moves: seq<Move>, k: nat, n: nat)
    requires |moves| == n + 1 && k < |r.s.links|
    ensures forall j: nat :: j <= n ==>
              (CarriedFrom(r, moves, k, j) <==>
                 CarriedFrom(r, moves[..n], k, j) && !Displaces(RaceRun(r, moves[..n]), moves[n], k))
    ensures CarriedFrom(r, moves, k, n + 1) <==> Reinstates(RaceRun(r, moves[..n]), moves[n], k)
  {
    hide RaceRun;
    hide Displaces;
    hide Reinstates;
    assert forall i :: 0 <= i <= n ==> moves[..n][..i] == moves[..i];
  }

  /**
   Whatever else happens, whole calls included: a link is in transit at the end of an interleaving
   exactly when something put it there, or it was so at the start, and nothing displaced it since.
   */
  lemma {:induction false} StillInTransit(r: Racing, moves: seq<Move>, k: nat)
    requires RaceInvariant(r) && k < |r.s.links|
    ensures k < |RaceRun(r, moves).s.links|
    ensures var l := RaceRun(r, moves).s.links[k];
            && l.driver == r.s.links[k].driver && l.order == r.s.links[k].order
            && (l.assignment == InTransit <==> exists j: nat :: CarriedFrom(r, moves, k, j))
    decreases |moves|
  {
    if moves == [] {
      assert CarriedFrom(r, moves, k, 0) <==> r.s.links[k].assignment == InTransit;
    } else {
      var n := |moves| - 1;
      StillInTransit(r, moves[..n], k);
      RaceRunKeeps(r, moves[..n]);
      RaceRunLast(r, moves, n);
      assert moves[..n + 1] == moves;
      CarriedFromStep(r, moves, k, n);
      OneMove(RaceRun(r, moves[..n]), moves[n], k);
      NeverBoth(RaceRun(r, moves[..n]), moves[n], k);
      hide *;
      CarriedToEnd(r, moves, k, n);
    }
  }

  lemma NeverBoth(r: Racing, m: Move, k: nat)
    ensures !(Displaces(r, m, k) && Reinstates(r, m, k))
  {
  }

  /** How the last move decides whether there is a carrying stretch up to the end. */
  lemma CarriedToEnd(r: Racing, moves: seq<Move>, k: nat, n: nat)
    requires |moves| == n + 1 && k < |r.s.links|
    ensures (exists j: nat :: CarriedFrom(r, moves, k, j)) <==>
              || Reinstates(RaceRun(r, moves[..n]), moves[n], k)
              || ((exists j: nat :: CarriedFrom(r, moves[..n], k, j))
                  && !Displaces(RaceRun(r, moves[..n]), moves[n], k))
  {
    CarriedFromStep(r, moves, k, n);
    assert forall j: nat :: CarriedFrom(r, moves, k, j) ==> j <= n + 1;
    assert forall j: nat :: CarriedFrom(r, moves[..n], k, j) ==> j <= n;
    hide CarriedFrom;
    hide Displaces;
    hide Reinstates;
    hide RaceRun;
    if j: nat :| CarriedFrom(r, moves[..n], k, j) {
      assert CarriedFrom(r, moves, k, j) <==> !Displaces(RaceRun(r, moves[..n]), moves[n], k);
    }
  }

  lemma {:induction false} StillMarked(r: Racing, moves: seq<Move>, pid: nat, k: nat)
    requires pid in r.requests && r.requests[pid] == Marked(k)
    requires Clear(pid) !in moves
    ensures pid in RaceRun(r, moves).requests && RaceRun(r, moves).requests[pid] == Marked(k)
    decreases |moves|
  {
    if moves != [] {
      assert moves[0] in moves;
      StillMarked(MoveOne(r, moves[0]), moves[1..], pid, k);
    }
  }

  /**
   When a select that has marked its link completes, its driver is in transit exactly when the mark,
   or something after it, still stands; and everyone else is off the order.
   */
  lemma LastSelectOutcome(r: Racing, pid: nat, k: nat, moves: seq<Move>)
    requires RaceInvariant(r) && pid in r.requests && r.requests[pid] == Marked(k)
    requires Clear(pid) !in moves
    ensures var last := MoveOne(RaceRun(r, moves), Clear(pid));
            && k < |r.s.links| <= |last.s.links|
            && (last.s.links[k].assignment == InTransit <==> exists j: nat :: CarriedFrom(r, moves, k, j))
            && forall j :: 0 <= j < |last.s.links| && j != k && last.s.links[j].order == r.s.links[k].order ==>
                 last.s.links[j].assignment == Unassigned
  {
    StillInTransit(r, moves, k);
    StillMarked(r, moves, pid, k);
    RaceRunKeeps(r, moves);
    LinksOnlyGrow(r, moves);
    OneMove(RaceRun(r, moves), Clear(pid), k);
    hide CarriedFrom;
    hide RaceRun;
    OthersUnassigned(RaceRun(r, moves).s.links, k);
  }

  lemma {:induction false} LinksOnlyGrow(r: Racing, moves: seq<Move>)
    requires RaceInvariant(r)
    ensures |r.s.links| <= |RaceRun(r, moves).s.links|
    decreases |moves|
  {
    if moves != [] {
      MoveKeepsRaces(r, moves[0]);
      if moves[0].Whole? { StepKeepsSound(r.s, moves[0].call); }
      hide RaceInvariant;
      LinksOnlyGrow(MoveOne(r, moves[0]), moves[1..]);
    }
  }

  // ----- two selects at once -----

  /** A company with two drivers, and an order nobody has taken. */
  function Untaken(): State {
    State({1, 2}, {9}, [Invitation(1, 9, ByDriver, Accepted), Invitation(2, 9, ByDriver, Accepted)],
          map[5 := Order(0, OtherStatus, "p", "q")], [])
  }

  /** The order taken by that company. */
  function TwoDrivers(): State {
    State({1, 2}, {9}, [Invitation(1, 9, ByDriver, Accepted), Invitation(2, 9, ByDriver, Accepted)],
          map[5 := Order(9, OutForDelivery, "p", "q")],
          [Link(1, 5, Assigned), Link(2, 5, Assigned)])
  }

  /** Two drivers select the same order, each write of the one next to a write of the other. */
  function TwoSelects(): seq<Move> {
    [Check(0, 1, 5), Check(1, 2, 5), Mark(0), Mark(1), Clear(0), Clear(1)]
  }

  lemma BothChecked() returns (r: Racing)
    ensures r == Racing(TwoDrivers(), map[0 := Checked(0), 1 := Checked(1)])
    ensures RaceRun(Racing(TwoDrivers(), map[]), TwoSelects()) == RaceRun(r, TwoSelects()[2..])
  {
    var r0, m := Racing(TwoDrivers(), map[]), TwoSelects();
    FindSecondLink(r0.s.links);
    var r1 := MoveOne(r0, m[0]);
    assert r1 == Racing(r0.s, map[0 := Checked(0)]);
    r := MoveOne(r1, m[1]);
    assert r == Racing(r0.s, map[0 := Checked(0), 1 := Checked(1)]);
    hide RaceRun;
    assert m[0..] == m;
    Advance(r0, m, 0);
    Advance(r1, m, 1);
  }

  lemma BothMarked(r2: Racing) returns (r: Racing)
    requires r2 == Racing(TwoDrivers(), map[0 := Checked(0), 1 := Checked(1)])
    ensures r.s.links == [Link(1, 5, InTransit), Link(2, 5, InTransit)]
    ensures r.requests == map[0 := Marked(0), 1 := Marked(1)]
    ensures RaceRun(r2, TwoSelects()[2..]) == RaceRun(r, TwoSelects()[4..])
  {
    var m := TwoSelects();
    var r3 := MoveOne(r2, m[2]);
    assert r3.requests == map[0 := Marked(0), 1 := Checked(1)];
    r := MoveOne(r3, m[3]);
    assert r.requests == map[0 := Marked(0), 1 := Marked(1)];
    hide RaceRun;
    Advance(r2, m, 2);
    Advance(r3, m, 3);
  }

  lemma BothCleared(r4: Racing)
    requires r4.s.links == [Link(1, 5, InTransit), Link(2, 5, InTransit)]
    requires r4.requests == map[0 := Marked(0), 1 := Marked(1)]
    ensures var r := RaceRun(r4, TwoSelects()[4..]);
            r.requests == map[] && r.s.links == [Link(1, 5, Unassigned), Link(2, 5, Unassigned)]
  {
    var m := TwoSelects();
    var r5 := MoveOne(r4, m[4]);
    assert r5.requests == map[1 := Marked(1)];
    assert r5.s.links == [Link(1, 5, InTransit), Link(2, 5, Unassigned)];
    var r6 := MoveOne(r5, m[5]);
    assert r6.s.links == [Link(1, 5, Unassigned), Link(2, 5, Unassigned)];
    assert r6.requests == map[];
    assert m[6..] == [];
    Advance(r4, m, 4);
    Advance(r5, m, 5);
  }

  /** From a start, two selects can both report success and leave nobody in transit. */
  lemma BothSelectsLost()
    ensures Start(Untaken()) && Step(Untaken(), Take(5, 9)) == TwoDrivers()
    ensures var r := RaceRun(Racing(TwoDrivers(), map[]), TwoSelects());
            r.requests == map[] && r.s.links == [Link(1, 5, Unassigned), Link(2, 5, Unassigned)]
  {
    TwoDriversReached();
    hide RaceRun;
    var r2 := BothChecked();
    var r4 := BothMarked(r2);
    BothCleared(r4);
  }

  lemma Advance(r: Racing, m: seq<Move>, i: nat)
    requires i < |m|
    ensures RaceRun(r, m[i..]) == RaceRun(MoveOne(r, m[i]), m[i + 1..])
  {
    assert m[i..][0] == m[i] && m[i..][1..] == m[i + 1..];
  }

  lemma FindSecondLink(links: seq<Link>)
    requires links == [Link(1, 5, Assigned), Link(2, 5, Assigned)]
    ensures FindLink(links, 1, 5) == Some(0) && FindLink(links, 2, 5) == Some(1)
    ensures FindInTransit(links, 5) == None
  {
    assert links[1..] == [Link(2, 5, Assigned)];
    assert links[1..][1..] == [];
  }

  lemma TwoDriversReached()
    ensures Start(Untaken()) && Step(Untaken(), Take(5, 9)) == TwoDrivers()
    ensures Invariant(TwoDrivers())
  {
    var v := Untaken().invitations;
    assert v[..1][..0] == [] && v[..1] == [v[0]];
    assert CompanyDrivers(v[..1], 9) == [1];
    assert CompanyDrivers(v, 9) == [1, 2];
    assert NewLinks([1, 2], 5) == [Link(1, 5, Assigned), Link(2, 5, Assigned)];
    assert Untaken().links + NewLinks([1, 2], 5) == TwoDrivers().links;
    StepKeepsInvariant(Untaken(), Take(5, 9));
  }

  // ----- delivered by the driver who picked up -----

  /** A race together with the driver of the latest successful pickup of each order. */
  datatype Tracking = Tracking(r: Racing, picker: map<int, int>)

  predicate PicksUp(r: Racing, m: Move) {
    m.Whole? && m.call.Pickup? && Apply(r.s, m.call).Some?
  }

  function TrackedMove(t: Tracking, m: Move): Tracking {
    Tracking(MoveOne(t.r, m), if PicksUp(t.r, m) then t.picker[m.call.order := m.call.driver] else t.picker)
  }

  function TrackedMoves(t: Tracking, moves: seq<Move>): Tracking
    decreases |moves|
  {
    if moves == [] then t else TrackedMoves(TrackedMove(t, moves[0]), moves[1..])
  }

  lemma {:induction false} TrackingWatches(t: Tracking, moves: seq<Move>)
    ensures TrackedMoves(t, moves).r == RaceRun(t.r, moves)
    decreases |moves|
  {
    if moves != [] {
      TrackingWatches(TrackedMove(t, moves[0]), moves[1..]);
    }
  }

  /** No select of another driver on `order` is past its check. */
  ghost predicate NoForeign(r: Racing, order: int, driver: int) {
    forall pid :: pid in r.requests && r.requests[pid].link < |r.s.links| ==>
      r.s.links[r.requests[pid].link].order == order ==> r.s.links[r.requests[pid].link].driver == driver
  }

  /** If the move picks `order` up, no select of another driver on it is past its check. */
  ghost predicate CleanMove(r: Racing, m: Move, order: int) {
    PicksUp(r, m) && m.call.order == order ==> NoForeign(r, order, m.call.driver)
  }

  ghost predicate CleanMoves(r: Racing, moves: seq<Move>, order: int) {
    forall i :: 0 <= i < |moves| ==> CleanMove(RaceRun(r, moves[..i]), moves[i], order)
  }

  predicate UnderWay(s: State, order: int) {
    order in s.orders && s.orders[order].company != 0 && s.orders[order].status == PickedUp
  }

  /** While picked up, the order is carried by its latest picker. */
  predicate Kept(t: Tracking, order: int) {
    UnderWay(t.r.s, order) ==> order in t.picker && Link(t.picker[order], order, InTransit) in t.r.s.links
  }

  ghost predicate OnlyCarrier(links: seq<Link>, order: int, driver: int) {
    && Link(driver, order, InTransit) in links
    && forall l :: l in links && l.order == order && l.assignment == InTransit ==> l.driver == driver
  }

  /** And by nobody else, with no other driver's select on the way. */
  ghost predicate Held(t: Tracking, order: int) {
    UnderWay(t.r.s, order) ==>
      && order in t.picker
      && OnlyCarrier(t.r.s.links, order, t.picker[order])
      && NoForeign(t.r, order, t.picker[order])
  }

  /** Moves that leave the order's links alone, place by place, leave its carrier alone. */
  lemma CarrierUntouched(links: seq<Link>, links': seq<Link>, order: int, driver: int)
    requires OnlyCarrier(links, order, driver) && |links| <= |links'|
    requires forall i :: 0 <= i < |links| && links[i].order == order ==> links'[i] == links[i]
    requires forall i :: 0 <= i < |links'| && links'[i].order == order && links'[i].assignment == InTransit ==>
               i < |links| && links[i].order == order
    ensures OnlyCarrier(links', order, driver)
  {
    StaysCarried(links, links', Link(driver, order, InTransit));
    forall l | l in links' && l.order == order && l.assignment == InTransit ensures l.driver == driver {
      var i :| 0 <= i < |links'| && links'[i] == l;
      assert links[i] in links;
    }
  }

  /** A take-over by link `k`'s driver makes that driver the only carrier. */
  lemma TakeOverCarrier(links: seq<Link>, k: nat)
    requires UniqueLinks(links) && k < |links|
    ensures OnlyCarrier(TakeOver(links, k), links[k].order, links[k].driver)
  {
    TakeOverEffect(links, k);
    var links' := TakeOver(links, k);
    assert links'[k] == Link(links[k].driver, links[k].order, InTransit);
    forall l | l in links' && l.order == links[k].order && l.assignment == InTransit
      ensures l.driver == links[k].driver
    {
      var i :| 0 <= i < |links'| && links'[i] == l;
      TakeOverAt(links, k, i);
    }
  }

  lemma TakeOverElsewhere(links: seq<Link>, k: nat, order: int, driver: int)
    requires UniqueLinks(links) && k < |links| && links[k].order != order && OnlyCarrier(links, order, driver)
    ensures OnlyCarrier(TakeOver(links, k), order, driver)
  {
    TakeOverEffect(links, k);
    forall i | 0 <= i < |links|
      ensures TakeOver(links, k)[i].order == links[i].order
      ensures links[i].order == order ==> TakeOver(links, k)[i] == links[i]
    {
      TakeOverAt(links, k, i);
    }
    CarrierUntouched(links, TakeOver(links, k), order, driver);
  }

  /** Requests keep their meaning as long as links keep their driver and order. */
  lemma ForeignStable(r: Racing, r': Racing, order: int, driver: int)
    requires NoForeign(r, order, driver) && |r.s.links| <= |r'.s.links|
    requires forall i :: 0 <= i < |r.s.links| ==>
               r'.s.links[i].order == r.s.links[i].order && r'.s.links[i].driver == r.s.links[i].driver
    requires forall pid :: pid in r'.requests ==>
               pid in r.requests && r'.requests[pid].link == r.requests[pid].link < |r.s.links|
    ensures NoForeign(r', order, driver)
  {
  }

  lemma SelectIsPickers(s: State, order: int, driver: int, who: int)
    requires OnlyCarrier(s.links, order, driver) && SelectAllowed(s, who, order)
    ensures who == driver
  {
    var i := FindInTransit(s.links, order);
    assert i.Some? && s.links[i.value] in s.links;
  }

  lemma WholeKeepsRows(r: Racing, c: Call)
    requires RaceInvariant(r)
    ensures |r.s.links| <= |Step(r.s, c).links|
    ensures forall i :: 0 <= i < |r.s.links| ==>
              Step(r.s, c).links[i].order == r.s.links[i].order && Step(r.s, c).links[i].driver == r.s.links[i].driver
  {
    StepKeepsSound(r.s, c);
    forall i | 0 <= i < |r.s.links|
      ensures Step(r.s, c).links[i].order == r.s.links[i].order
      ensures Step(r.s, c).links[i].driver == r.s.links[i].driver
    {
      WholeAt(r, c, i);
    }
  }

  lemma PickupHolds(t: Tracking, m: Move, order: int)
    requires RaceInvariant(t.r) && PicksUp(t.r, m) && m.call.order == order && CleanMove(t.r, m, order)
    ensures Held(TrackedMove(t, m), order)
  {
    var k := FindLink(t.r.s.links, m.call.driver, order).value;
    TakeOverCarrier(t.r.s.links, k);
    WholeKeepsRows(t.r, m.call);
    ForeignStable(t.r, MoveOne(t.r, m), order, m.call.driver);
  }

  lemma WholeHolds(t: Tracking, c: Call, order: int)
    requires RaceInvariant(t.r) && Held(t, order) && !(PicksUp(t.r, Whole(c)) && c.order == order)
    ensures Held(TrackedMove(t, Whole(c)), order)
  {
    var t' := TrackedMove(t, Whole(c));
    if Apply(t.r.s, c).Some? && UnderWay(t'.r.s, order) {
      assert UnderWay(t.r.s, order);
      var d := t.picker[order];
      WholeKeepsRows(t.r, c);
      ForeignStable(t.r, t'.r, order, d);
      hide NoForeign;
      CallKeepsCarrier(t.r.s, c, order, d);
    }
  }

  lemma CallKeepsCarrier(s: State, c: Call, order: int, d: int)
    requires Sound(s) && UnderWay(s, order) && UnderWay(Step(s, c), order) && OnlyCarrier(s.links, order, d)
    requires Apply(s, c).Some? && !(c.Pickup? && c.order == order)
    ensures OnlyCarrier(Step(s, c).links, order, d)
  {
    match c
    case Send(_, _, _) =>
    case Accept(_) =>
    case Reject(_) =>
    case Take(_, _) => CarrierUntouched(s.links, Step(s, c).links, order, d);
    case Pickup(o, _, who, _) => TakeOverElsewhere(s.links, FindLink(s.links, who, o).value, order, d);
    case Select(who, o) =>
      var k := FindLink(s.links, who, o).value;
      if o == order {
        SelectIsPickers(s, order, d, who);
        TakeOverCarrier(s.links, k);
      } else {
        TakeOverElsewhere(s.links, k, order, d);
      }
    case Deliver(_, _, _) => CarrierUntouched(s.links, Step(s, c).links, order, d);
  }

  lemma CheckHolds(t: Tracking, pid: nat, driver: int, o: int, order: int)
    requires RaceInvariant(t.r) && Held(t, order)
    ensures Held(TrackedMove(t, Check(pid, driver, o)), order)
  {
    if UnderWay(t.r.s, order) && SelectAllowed(t.r.s, driver, o) && o == order {
      SelectIsPickers(t.r.s, order, t.picker[order], driver);
    }
  }

  /** A write of the picker's own select, or of a select on another order, leaves the picker the only carrier. */
  lemma WriteHolds(t: Tracking, m: Move, order: int)
    requires RaceInvariant(t.r) && Held(t, order) && (m.Mark? || m.Clear?)
    ensures Held(TrackedMove(t, m), order)
  {
    var r, r' := t.r, MoveOne(t.r, m);
    if UnderWay(r.s, order) && r' != r {
      var d, k := t.picker[order], r.requests[m.pid].link;
      assert r.s.links[k].order == order ==> r.s.links[k].driver == d;
      ForeignStable(r, r', order, d);
      hide NoForeign;
      WriteKeepsCarrier(r, m, order, d);
    }
  }

  lemma WriteKeepsCarrier(r: Racing, m: Move, order: int, d: int)
    requires RaceInvariant(r) && OnlyCarrier(r.s.links, order, d) && (m.Mark? || m.Clear?) && Holds(r, m.pid)
    requires var l := r.s.links[r.requests[m.pid].link]; l.order == order ==> l.driver == d
    ensures OnlyCarrier(MoveOne(r, m).s.links, order, d)
  {
    var links, links', k := r.s.links, MoveOne(r, m).s.links, r.requests[m.pid].link;
    var p :| 0 <= p < |links| && links[p] == Link(d, order, InTransit);
    if links[k].order == order { SameLink(links, p, k); }
    assert forall i :: 0 <= i < |links| ==> links'[i].order == links[i].order && links'[i].driver == links[i].driver;
    assert links'[p] == links[p];
    forall l | l in links' && l.order == order && l.assignment == InTransit ensures l.driver == d {
      var i :| 0 <= i < |links'| && links'[i] == l;
      if i != k { assert links[i] in links; }
    }
  }

  lemma MoveHolds(t: Tracking, m: Move, order: int)
    requires RaceInvariant(t.r) && Held(t, order) && CleanMove(t.r, m, order)
    ensures Held(TrackedMove(t, m), order)
  {
    hide Held;
    match m
    case Whole(c) =>
      if PicksUp(t.r, m) && c.order == order { PickupHolds(t, m, order); } else { WholeHolds(t, c, order); }
    case Check(pid, driver, o) => CheckHolds(t, pid, driver, o, order);
    case Mark(_) => WriteHolds(t, m, order);
    case Clear(_) => WriteHolds(t, m, order);
  }

  /** Through every interleaving with clean pickups of the order only, the picker stays its only carrier. */
  lemma {:induction false} PickerKeepsOrder(t: Tracking, moves: seq<Move>, order: int)
    requires RaceInvariant(t.r) && Held(t, order) && CleanMoves(t.r, moves, order)
    ensures RaceInvariant(TrackedMoves(t, moves).r) && Held(TrackedMoves(t, moves), order)
    decreases |moves|
  {
    hide RaceInvariant;
    hide Held;
    hide CleanMove;
    if moves != [] {
      var rest := moves[1..];
      assert moves[..0] == [] && CleanMove(RaceRun(t.r, moves[..0]), moves[0], order);
      MoveHolds(t, moves[0], order);
      MoveKeepsRaces(t.r, moves[0]);
      forall i | 0 <= i < |rest| ensures CleanMove(RaceRun(MoveOne(t.r, moves[0]), rest[..i]), rest[i], order) {
        assert moves[..i + 1][1..] == rest[..i];
        assert CleanMove(RaceRun(t.r, moves[..i + 1]), moves[i + 1], order);
      }
      hide MoveOne;
      PickerKeepsOrder(TrackedMove(t, moves[0]), rest, order);
    }
  }

  /**
   So in every interleaving from a start, an order whose pickups find no other driver's select past
   its check can be delivered, while it is picked up, exactly by its latest picker with its own OTP.
   */
  lemma DeliveredByPickerInRaces(s: State, moves: seq<Move>, order: int, driver: int, otp: string)
    requires Start(s) && CleanMoves(Racing(s, map[]), moves, order)
    ensures var t := TrackedMoves(Tracking(Racing(s, map[]), map[]), moves);
            && t.r == RaceRun(Racing(s, map[]), moves)
            && Kept(t, order)
            && (ConfirmDelivery(t.r.s, order, driver, otp).Some? <==>
                  && UnderWay(t.r.s, order) && otp == t.r.s.orders[order].otp
                  && order in t.picker && t.picker[order] == driver)
  {
    var t0 := Tracking(Racing(s, map[]), map[]);
    TrackingWatches(t0, moves);
    PickerKeepsOrder(t0, moves, order);
    var t := TrackedMoves(t0, moves);
    GrantedExactly(t.r.s, Deliver(order, driver, otp));
  }

  /** The two writes, or the one left, of a select past its check. */
  function Writes(r: Racing, pid: nat): seq<Move> {
    if pid in r.requests && r.requests[pid].Checked? then [Mark(pid), Clear(pid)] else [Clear(pid)]
  }

  lemma RunOfTwo(t: Tracking, a: Move, b: Move)
    ensures TrackedMoves(t, [a]) == TrackedMove(t, a)
    ensures TrackedMoves(t, [a, b]) == TrackedMove(TrackedMove(t, a), b)
  {
    assert [a][1..] == [] && [a, b][1..] == [b] && [b][1..] == [];
    assert TrackedMoves(TrackedMove(t, a), [b]) == TrackedMoves(TrackedMove(TrackedMove(t, a), b), [b][1..]);
  }

  /** Another driver's select past its check takes everyone else off the order, its picker among them. */
  lemma ForeignSelectTakesOrder(t: Tracking, order: int, pid: nat)
    requires RaceInvariant(t.r) && UnderWay(t.r.s, order) && order in t.picker
    requires pid in t.r.requests
    requires var l := t.r.s.links[t.r.requests[pid].link]; l.order == order && l.driver != t.picker[order]
    ensures var t', k := TrackedMoves(t, Writes(t.r, pid)), t.r.requests[pid].link;
            && !Kept(t', order)
            && t'.picker == t.picker && t'.r.s.orders == t.r.s.orders && |t'.r.s.links| == |t.r.s.links|
            && (forall i :: 0 <= i < |t.r.s.links| ==> t'.r.s.links[i].order == t.r.s.links[i].order)
            && (forall i :: 0 <= i < |t'.r.s.links| && i != k && t'.r.s.links[i].order == order ==>
                  t'.r.s.links[i].assignment == Unassigned)
            && (t.r.requests[pid].Checked? ==> t'.r.s.links[k] == Link(t.r.s.links[k].driver, order, InTransit))
    ensures CleanMoves(t.r, Writes(t.r, pid), order)
  {
    var k := t.r.requests[pid].link;
    RunOfTwo(t, Mark(pid), Clear(pid));
    RunOfTwo(t, Clear(pid), Clear(pid));
    var t1 := if t.r.requests[pid].Checked? then TrackedMove(t, Mark(pid)) else t;
    var t2 := TrackedMove(t1, Clear(pid));
    assert t1.r.requests[pid] == Marked(k);
    assert forall i :: 0 <= i < |t.r.s.links| ==>
        t1.r.s.links[i].order == t.r.s.links[i].order && t1.r.s.links[i].driver == t.r.s.links[i].driver;
    OthersUnassigned(t1.r.s.links, k);
    forall i | 0 <= i < |t2.r.s.links| ensures t2.r.s.links[i] != Link(t.picker[order], order, InTransit) {
      assert t1.r.s.links[i].order == order && t1.r.s.links[i].driver == t.picker[order] ==>
          t2.r.s.links[i].assignment == Unassigned;
    }
    assert UnderWay(t2.r.s, order) && t2.picker == t.picker;
    assert TrackedMoves(t, Writes(t.r, pid)) == t2;
  }

  /** Every continuation with clean pickups of the order leaves it with its latest picker. */
  ghost predicate AlwaysKept(t: Tracking, order: int) {
    forall moves :: CleanMoves(t.r, moves, order) ==> Kept(TrackedMoves(t, moves), order)
  }

  lemma CleanPickupKept(t: Tracking, m: Move)
    requires RaceInvariant(t.r) && PicksUp(t.r, m) && NoForeign(t.r, m.call.order, m.call.driver)
    ensures AlwaysKept(TrackedMove(t, m), m.call.order)
  {
    var order, t' := m.call.order, TrackedMove(t, m);
    MoveKeepsRaces(t.r, m);
    PickupHolds(t, m, order);
    hide RaceInvariant;
    hide TrackedMove;
    hide NoForeign;
    forall moves | CleanMoves(t'.r, moves, order) ensures Kept(TrackedMoves(t', moves), order) {
      PickerKeepsOrder(t', moves, order);
    }
  }

  lemma ForeignPickupLost(t: Tracking, m: Move, pid: nat)
    requires RaceInvariant(t.r) && PicksUp(t.r, m)
    requires pid in t.r.requests && t.r.requests[pid].link < |t.r.s.links|
    requires var l := t.r.s.links[t.r.requests[pid].link]; l.order == m.call.order && l.driver != m.call.driver
    ensures !AlwaysKept(TrackedMove(t, m), m.call.order)
  {
    var order, t' := m.call.order, TrackedMove(t, m);
    MoveKeepsRaces(t.r, m);
    WholeKeepsRows(t.r, m.call);
    assert UnderWay(t'.r.s, order);
    hide RaceInvariant;
    ForeignSelectTakesOrder(t', order, pid);
    hide Kept;
    hide CleanMoves;
    hide Writes;
    assert !Kept(TrackedMoves(t', Writes(t'.r, pid)), order);
  }

  /**
   A pickup is safe, whatever follows it, exactly when no select of another driver on the order is
   past its check at that moment.
   */
  lemma PickupIsSafeExactly(t: Tracking, m: Move)
    requires RaceInvariant(t.r) && PicksUp(t.r, m)
    ensures AlwaysKept(TrackedMove(t, m), m.call.order) <==> NoForeign(t.r, m.call.order, m.call.driver)
  {
    hide RaceInvariant;
    hide TrackedMove;
    hide AlwaysKept;
    if NoForeign(t.r, m.call.order, m.call.driver) {
      CleanPickupKept(t, m);
    } else {
      var pid :| pid in t.r.requests && t.r.requests[pid].link < |t.r.s.links|
                 && t.r.s.links[t.r.requests[pid].link].order == m.call.order
                 && t.r.s.links[t.r.requests[pid].link].driver != m.call.driver;
      ForeignPickupLost(t, m, pid);
    }
  }

  /** From a start: a select begun before the pickup takes the order, and its driver can deliver it. */
  lemma PickerLosesOrder()
    ensures Start(Untaken())
    ensures exists moves ::
              var t := TrackedMoves(Tracking(Racing(Untaken(), map[]), map[]), moves);
              t.picker == map[5 := 1]
              && ConfirmDelivery(t.r.s, 5, 1, "q").None? && ConfirmDelivery(t.r.s, 5, 2, "q").Some?
  {
    var a, b, c := Whole(Take(5, 9)), Check(0, 2, 5), Whole(Pickup(5, 9, 1, "p"));
    var t0 := Tracking(Racing(Untaken(), map[]), map[]);
    TwoDriversReached();
    TakenFirst();
    hide *;
    var t3 := SelectThenPickup(TrackedMove(t0, a));
    var t := PickerLost(t3);
    TrackedThree(t0, a, b, c, Writes(t3.r, 0));
    SecondDelivers(t.r.s);
  }

  lemma TakenFirst()
    ensures TrackedMove(Tracking(Racing(Untaken(), map[]), map[]), Whole(Take(5, 9)))
         == Tracking(Racing(TwoDrivers(), map[]), map[])
  {
    TwoDriversReached();
    hide Step;
    hide Untaken;
    hide TwoDrivers;
  }

  lemma PickerLost(t3: Tracking) returns (t: Tracking)
    requires t3.picker == map[5 := 1] && t3.r.requests == map[0 := Checked(1)] && RaceInvariant(t3.r)
    requires t3.r.s.links == [Link(1, 5, InTransit), Link(2, 5, Unassigned)]
    requires t3.r.s.orders == map[5 := Order(9, PickedUp, "p", "q")]
    ensures t == TrackedMoves(t3, Writes(t3.r, 0)) && t.picker == t3.picker && t.r.s.orders == t3.r.s.orders
    ensures |t.r.s.links| == 2 && t.r.s.links[1] == Link(2, 5, InTransit)
    ensures t.r.s.links[0].order == 5 && t.r.s.links[0].assignment == Unassigned
  {
    assert UnderWay(t3.r.s, 5);
    hide RaceInvariant;
    ForeignSelectTakesOrder(t3, 5, 0);
    t := TrackedMoves(t3, Writes(t3.r, 0));
    hide *;
  }

  lemma TrackedThree(t: Tracking, a: Move, b: Move, c: Move, rest: seq<Move>)
    ensures TrackedMoves(t, [a, b, c] + rest) == TrackedMoves(TrackedMove(TrackedMove(TrackedMove(t, a), b), c), rest)
  {
    hide TrackedMove;
    var m := [a, b, c] + rest;
    assert m[1..] == [b, c] + rest && m[1..][1..] == [c] + rest && m[1..][1..][1..] == rest;
    assert TrackedMoves(TrackedMove(t, a), m[1..]) == TrackedMoves(TrackedMove(TrackedMove(t, a), b), m[1..][1..]);
  }

  lemma SecondDelivers(s: State)
    requires |s.links| == 2 && s.links[1] == Link(2, 5, InTransit)
    requires s.links[0].order == 5 && s.links[0].assignment == Unassigned
    requires s.orders == map[5 := Order(9, PickedUp, "p", "q")]
    ensures ConfirmDelivery(s, 5, 1, "q").None? && ConfirmDelivery(s, 5, 2, "q").Some?
  {
    assert s.links[1] in s.links;
  }

  lemma SelectChecked(t1: Tracking) returns (t2: Tracking)
    requires t1 == Tracking(Racing(TwoDrivers(), map[]), map[])
    ensures t2 == TrackedMove(t1, Check(0, 2, 5))
    ensures t2 == Tracking(Racing(TwoDrivers(), map[0 := Checked(1)]), map[]) && RaceInvariant(t2.r)
  {
    FindSecondLink(TwoDrivers().links);
    t2 := TrackedMove(t1, Check(0, 2, 5));
    assert t2.r == Racing(TwoDrivers(), map[0 := Checked(1)]);
    TwoDriversReached();
    MoveKeepsRaces(t1.r, Check(0, 2, 5));
  }

  lemma SelectThenPickup(t1: Tracking) returns (t3: Tracking)
    requires t1 == Tracking(Racing(TwoDrivers(), map[]), map[])
    ensures t3 == TrackedMove(TrackedMove(t1, Check(0, 2, 5)), Whole(Pickup(5, 9, 1, "p")))
    ensures t3.picker == map[5 := 1] && t3.r.requests == map[0 := Checked(1)]
    ensures t3.r.s.links == [Link(1, 5, InTransit), Link(2, 5, Unassigned)]
    ensures t3.r.s.orders == map[5 := Order(9, PickedUp, "p", "q")] && RaceInvariant(t3.r)
  {
    var t2 := SelectChecked(t1);
    MoveKeepsRaces(t2.r, Whole(Pickup(5, 9, 1, "p")));
    hide RaceInvariant;
    var s := TwoDrivers();
    FindSecondLink(s.links);
    assert s.invitations[0] in s.invitations;
    t3 := TrackedMove(t2, Whole(Pickup(5, 9, 1, "p")));
    assert TakeOver(s.links, 0) == [Link(1, 5, InTransit), Link(2, 5, Unassigned)];
  }
}
