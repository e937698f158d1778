/**
 Several instances rotate the same position at once. Each takes the time, reads the stored row,
 claims the rotation by a compare-and-swap on `nextAt`, and saves; these are separate moves here.
 Only the timer makes a rotation due, and a claimer saves less than `grace` after its time.
 */
module FeaturedRaces {
  import opened Outcomes
  import opened Sequences
  import opened FeaturedQueue
  import opened FeaturedRotation

  /** What all instances share: the queue does not change and every saved list is full. */
  datatype Setting = Setting(queue: seq<int>, st: Settings, grace: int)

  datatype Instance =
    | Begun(now: int)
    | Loaded(now: int, seen: Row)
    | Claimed(now: int, seen: Row)

  /** `claims` lists the values of `nextAt` claimed so far, `saves` counts the saves. */
  datatype World = World(clock: int, row: Row, instances: map<nat, Instance>, claims: seq<Option<int>>, saves: nat)

  datatype Move =
    | Wait(until: int)
    | Begin(pid: nat)
    | Load(pid: nat)
    | Claim(pid: nat)
    | Save(pid: nat, recents: seq<int>)

  ghost predicate Proper(e: Setting) {
    FeaturedRotation.Proper(e.st) && NoDup(e.queue) && e.queue != []
  }

  /** Nobody who has claimed is late at time `t`. */
  predicate InTime(e: Setting, w: World, t: int) {
    forall pid :: pid in w.instances && w.instances[pid].Claimed? ==> t < w.instances[pid].now + e.grace
  }

  function MoveOne(e: Setting, w: World, m: Move): World
    requires FeaturedRotation.Proper(e.st)
  {
    match m
    case Wait(until) =>
      if w.clock <= until && InTime(e, w, until) then w.(clock := until) else w
    case Begin(pid) =>
      if pid !in w.instances then w.(instances := w.instances[pid := Begun(w.clock)]) else w
    case Load(pid) =>
      if pid in w.instances && w.instances[pid].Begun?
      then w.(instances := w.instances[pid := Loaded(w.instances[pid].now, w.row)]) else w
    case Claim(pid) =>
      if pid in w.instances && w.instances[pid].Loaded? then
        var Loaded(now, seen) := w.instances[pid];
        if !Due(seen, e.queue, e.st, now, false) then w.(instances := w.instances - {pid})
        else if w.row.nextAt != seen.nextAt then w.(instances := w.instances - {pid})
        else if w.clock < now + e.grace then
          w.(row := w.row.(nextAt := Some(now + e.st.period)),
             instances := w.instances[pid := Claimed(now, seen)],
             claims := w.claims + [seen.nextAt])
        else w
      else w
    case Save(pid, recents) =>
      if pid in w.instances && w.instances[pid].Claimed? then
        var Claimed(now, seen) := w.instances[pid];
        var saved := Rotated(seen, e.queue, e.st, now, recents);
        if |saved.active| == e.st.batchSize
        then World(w.clock, saved, w.instances - {pid}, w.claims, w.saves + 1)
        else w
      else w
  }

  function RunMoves(e: Setting, w: World, moves: seq<Move>): World
    requires FeaturedRotation.Proper(e.st)
    decreases |moves|
  {
    if moves == [] then w else RunMoves(e, MoveOne(e, w, moves[0]), moves[1..])
  }

  /** Without interleaving the moves are one call, at the time it began: it rotates the row if that is due. */
  lemma SerialIsRotate(e: Setting, w: World, pid: nat, until: int, recents: seq<int>)
    requires FeaturedRotation.Proper(e.st)
    requires pid !in w.instances && w.clock <= until < w.clock + e.grace && InTime(e, w, until)
    requires |Rotated(w.row, e.queue, e.st, w.clock, recents).active| == e.st.batchSize
    ensures RunMoves(e, w, [Begin(pid), Wait(until), Load(pid), Claim(pid), Save(pid, recents)])
         == if Due(w.row, e.queue, e.st, w.clock, false)
            then World(until, Rotated(w.row, e.queue, e.st, w.clock, recents), w.instances,
                       w.claims + [w.row.nextAt], w.saves + 1)
            else w.(clock := until)
  {
    hide Rotated;
    var m := [Begin(pid), Wait(until), Load(pid), Claim(pid), Save(pid, recents)];
    var a := MoveOne(e, w, m[0]);
    var b := MoveOne(e, a, m[1]);
    assert b == a.(clock := until);
    var c := MoveOne(e, b, m[2]);
    assert c == b.(instances := w.instances[pid := Loaded(w.clock, w.row)]);
    var d := MoveOne(e, c, m[3]);
    assert w.instances[pid := Loaded(w.clock, w.row)] - {pid} == w.instances;
    assert w.instances[pid := Claimed(w.clock, w.row)] - {pid} == w.instances;
    var f := MoveOne(e, d, m[4]);
    hide MoveOne;
    assert m[0..] == m && m[5..] == [];
    Advance(e, w, m, 0);
    Advance(e, a, m, 1);
    Advance(e, b, m, 2);
    Advance(e, c, m, 3);
    Advance(e, d, m, 4);
  }

  // ----- the invariant -----

  /** `b` is a later due time than `a`; a row never rotated comes before all times. */
  predicate Later(a: Option<int>, b: Option<int>) {
    b.Some? && (a.None? || a.value < b.value)
  }

  predicate OnTimer(e: Setting, r: Row) {
    r.queue == e.queue && |r.active| == e.st.batchSize
  }

  ghost predicate NoneClaimed(w: World) {
    forall pid :: pid in w.instances ==> !w.instances[pid].Claimed?
  }

  /** The one claimer holds the row as it is, but for the due time it wrote itself. */
  ghost predicate ClaimerHolds(e: Setting, w: World, pid: nat)
    requires pid in w.instances && w.instances[pid].Claimed?
  {
    var Claimed(now, seen) := w.instances[pid];
    && now <= w.clock < now + e.grace
    && w.row == seen.(nextAt := Some(now + e.st.period))
    && forall q :: q in w.instances && w.instances[q].Claimed? ==> q == pid
  }

  /** A reader's row is current, or not due for it, or outdated for good. */
  ghost predicate ReaderSafe(e: Setting, w: World, now: int, seen: Row) {
    && now <= w.clock
    && OnTimer(e, seen)
    && (|| (seen.nextAt.Some? && now < seen.nextAt.value)
        || (seen == w.row && NoneClaimed(w))
        || Later(seen.nextAt, w.row.nextAt))
  }

  ghost predicate ClaimsAscend(w: World) {
    && (forall i, j :: 0 <= i < j < |w.claims| ==> Later(w.claims[i], w.claims[j]))
    && (forall i :: 0 <= i < |w.claims| ==> Later(w.claims[i], w.row.nextAt))
  }

  ghost predicate RaceInvariant(e: Setting, w: World, start: int)
    requires Proper(e)
  {
    var t := Batches(|e.queue|, e.st.batchSize);
    && OnTimer(e, w.row)
    && ClaimsAscend(w)
    && (forall pid :: pid in w.instances && w.instances[pid].Begun? ==> w.instances[pid].now <= w.clock)
    && (forall pid :: pid in w.instances && w.instances[pid].Loaded? ==>
          ReaderSafe(e, w, w.instances[pid].now, w.instances[pid].seen))
    && (forall pid :: pid in w.instances && w.instances[pid].Claimed? ==> ClaimerHolds(e, w, pid))
    && (NoneClaimed(w) ==> |w.claims| == w.saves)
    && (!NoneClaimed(w) ==> |w.claims| == w.saves + 1)
    && w.row.batchIndex % t == (start + w.saves) % t
  }

  lemma SameClaims(w: World, w': World)
    requires forall pid :: pid in w.instances && w.instances[pid].Claimed? ==>
               pid in w'.instances && w'.instances[pid].Claimed?
    requires forall pid :: pid in w'.instances && w'.instances[pid].Claimed? ==>
               pid in w.instances && w.instances[pid].Claimed?
    ensures NoneClaimed(w') == NoneClaimed(w)
  {
  }

  lemma LoadKeeps(e: Setting, w: World, pid: nat, start: int)
    requires Proper(e) && e.grace <= e.st.period && RaceInvariant(e, w, start)
    ensures RaceInvariant(e, MoveOne(e, w, Load(pid)), start)
  {
    var w' := MoveOne(e, w, Load(pid));
    if w' != w {
      SameClaims(w, w');
      if !NoneClaimed(w) {
        var c :| c in w.instances && w.instances[c].Claimed?;
        assert ClaimerHolds(e, w, c);
      }
      forall q | q in w'.instances && w'.instances[q].Claimed? ensures ClaimerHolds(e, w', q) {
        assert ClaimerHolds(e, w, q);
      }
    }
  }

  lemma BeginKeeps(e: Setting, w: World, pid: nat, start: int)
    requires Proper(e) && RaceInvariant(e, w, start)
    ensures RaceInvariant(e, MoveOne(e, w, Begin(pid)), start)
  {
    var w' := MoveOne(e, w, Begin(pid));
    if w' != w {
      SameClaims(w, w');
      forall q | q in w'.instances && w'.instances[q].Claimed? ensures ClaimerHolds(e, w', q) {
        assert ClaimerHolds(e, w, q);
      }
    }
  }

  lemma WaitKeeps(e: Setting, w: World, until: int, start: int)
    requires Proper(e) && RaceInvariant(e, w, start)
    ensures RaceInvariant(e, MoveOne(e, w, Wait(until)), start)
  {
    var w' := MoveOne(e, w, Wait(until));
    if w' != w {
      SameClaims(w, w');
      forall q | q in w'.instances && w'.instances[q].Claimed? ensures ClaimerHolds(e, w', q) {
        assert ClaimerHolds(e, w, q);
      }
    }
  }

  /** A claim that succeeds was made on the current row with no other claim outstanding. */
  lemma ClaimIsOnCurrentRow(e: Setting, w: World, pid: nat, start: int)
    requires Proper(e) && RaceInvariant(e, w, start)
    requires pid in w.instances && w.instances[pid].Loaded?
    requires Due(w.instances[pid].seen, e.queue, e.st, w.instances[pid].now, false)
    requires w.row.nextAt == w.instances[pid].seen.nextAt
    ensures w.row == w.instances[pid].seen && NoneClaimed(w)
  {
    assert ReaderSafe(e, w, w.instances[pid].now, w.instances[pid].seen);
  }

  lemma ClaimKeeps(e: Setting, w: World, pid: nat, start: int)
    requires Proper(e) && e.grace <= e.st.period && RaceInvariant(e, w, start)
    ensures RaceInvariant(e, MoveOne(e, w, Claim(pid)), start)
  {
    var w' := MoveOne(e, w, Claim(pid));
    if w' == w {
    } else if w'.claims == w.claims {
      SameClaims(w, w');
      forall q | q in w'.instances && w'.instances[q].Claimed? ensures ClaimerHolds(e, w', q) {
        assert ClaimerHolds(e, w, q);
      }
    } else {
      var Loaded(now, seen) := w.instances[pid];
      ClaimIsOnCurrentRow(e, w, pid, start);
      assert Later(seen.nextAt, w'.row.nextAt);
      assert w'.instances[pid].Claimed?;
      forall q | q in w'.instances && w'.instances[q].Loaded?
        ensures ReaderSafe(e, w', w'.instances[q].now, w'.instances[q].seen)
      {
        assert ReaderSafe(e, w, w.instances[q].now, w.instances[q].seen);
      }
      assert !NoneClaimed(w');
      assert ClaimerHolds(e, w', pid);
    }
  }

  lemma SaveKeeps(e: Setting, w: World, pid: nat, recents: seq<int>, start: int)
    requires Proper(e) && e.grace <= e.st.period && RaceInvariant(e, w, start)
    ensures RaceInvariant(e, MoveOne(e, w, Save(pid, recents)), start)
  {
    hide Rotated;
    var w' := MoveOne(e, w, Save(pid, recents));
    if w' != w {
      var Claimed(now, seen) := w.instances[pid];
      assert ClaimerHolds(e, w, pid);
      RotatedIndex(seen, e.queue, e.st, Tick(now, recents));
      var t := Batches(|e.queue|, e.st.batchSize);
      AdvanceIndex(w.row.batchIndex, start + w.saves, t);
      assert w'.row.nextAt == w.row.nextAt;
      assert NoneClaimed(w') && !NoneClaimed(w);
      forall q | q in w'.instances && w'.instances[q].Loaded?
        ensures ReaderSafe(e, w', w'.instances[q].now, w'.instances[q].seen)
      {
        assert ReaderSafe(e, w, w.instances[q].now, w.instances[q].seen);
      }
    }
  }

  lemma {:induction false} RunKeeps(e: Setting, w: World, moves: seq<Move>, start: int)
    requires Proper(e) && e.grace <= e.st.period && RaceInvariant(e, w, start)
    ensures RaceInvariant(e, RunMoves(e, w, moves), start)
    decreases |moves|
  {
    if moves != [] {
      match moves[0] {
        case Wait(until) => WaitKeeps(e, w, until, start);
        case Begin(pid) => BeginKeeps(e, w, pid, start);
        case Load(pid) => LoadKeeps(e, w, pid, start);
        case Claim(pid) => ClaimKeeps(e, w, pid, start);
        case Save(pid, recents) => SaveKeeps(e, w, pid, recents, start);
      }
      RunKeeps(e, MoveOne(e, w, moves[0]), moves[1..], start);
    }
  }

  /**
   In every interleaving in which claimers save within the rotation period, no due time is claimed
   twice, and once no claim is outstanding the stored index has advanced once per claim.
   */
  lemma ClaimedOnceAdvancedOnce(e: Setting, clock: int, row: Row, moves: seq<Move>)
    requires Proper(e) && e.grace <= e.st.period && OnTimer(e, row)
    ensures var w := RunMoves(e, World(clock, row, map[], [], 0), moves);
            var t := Batches(|e.queue|, e.st.batchSize);
            && NoDup(w.claims)
            && (NoneClaimed(w) ==> w.row.batchIndex % t == (row.batchIndex + |w.claims|) % t)
            && (!NoneClaimed(w) ==> w.row.batchIndex % t == (row.batchIndex + |w.claims| - 1) % t)
  {
    var w0 := World(clock, row, map[], [], 0);
    RunKeeps(e, w0, moves, row.batchIndex);
    var w := RunMoves(e, w0, moves);
    assert forall i, j :: 0 <= i < j < |w.claims| ==> Later(w.claims[i], w.claims[j]);
  }

  // ----- the bound is exact -----

  /** No due time is claimed twice, and without an outstanding claim the index has moved once per claim. */
  ghost predicate OncePerClaim(e: Setting, start: Row, w: World)
    requires Proper(e)
  {
    var t := Batches(|e.queue|, e.st.batchSize);
    && NoDup(w.claims)
    && (NoneClaimed(w) ==> w.row.batchIndex % t == (start.batchIndex + |w.claims|) % t)
  }

  ghost predicate AlwaysOncePerClaim(e: Setting)
    requires Proper(e)
  {
    forall clock, row, moves :: OnTimer(e, row) ==>
      OncePerClaim(e, row, RunMoves(e, World(clock, row, map[], [], 0), moves))
  }

  /** Instance 0 claims; when its claim falls due itself, instance 1 claims; then both save. */
  function LateMoves(due: int): seq<Move> {
    [Begin(0), Load(0), Claim(0)] + ([Wait(due), Begin(1), Load(1), Claim(1)] + [Save(0, []), Save(1, [])])
  }

  /**
   With several batches, claimers that may save at the due time they wrote, or later, lose a
   rotation: from every row that is due, two claims can move the index once.
   */
  lemma LateSaveLosesRotation(e: Setting, clock: int, row: Row)
    requires Proper(e) && Batches(|e.queue|, e.st.batchSize) >= 2 && e.grace > e.st.period
    requires OnTimer(e, row) && (row.nextAt.None? || row.nextAt.value <= clock)
    ensures var w := RunMoves(e, World(clock, row, map[], [], 0), LateMoves(clock + e.st.period));
            var t := Batches(|e.queue|, e.st.batchSize);
            && w.instances == map[] && |w.claims| == 2
            && w.row.batchIndex % t == (row.batchIndex + 1) % t
            && w.row.batchIndex % t != (row.batchIndex + |w.claims|) % t
  {
    var due := clock + e.st.period;
    var a, b, c := [Begin(0), Load(0), Claim(0)], [Wait(due), Begin(1), Load(1), Claim(1)], [Save(0, []), Save(1, [])];
    var w0 := World(clock, row, map[], [], 0);
    FirstClaims(e, clock, row);
    var w3 := RunMoves(e, w0, a);
    SecondClaims(e, clock, row, w3);
    BothSave(e, clock, row, RunMoves(e, w3, b));
    NextDiffers(row.batchIndex, Batches(|e.queue|, e.st.batchSize));
    hide MoveOne;
    hide RunMoves;
    RunsCompose(e, w0, a, b + c);
    RunsCompose(e, w3, b, c);
  }

  lemma NextDiffers(x: int, t: nat)
    requires t >= 2
    ensures (x + 1) % t != (x + 2) % t
  {
    var r := (x + 1) % t;
    ModOfSum(x + 1, 1, t);
    if r + 1 < t { DivModUnique(r + 1, t, 0, r + 1); } else { DivModUnique(r + 1, t, 1, 0); }
  }

  /** The world after the first claim at `clock`. */
  function ClaimedOnce(e: Setting, clock: int, row: Row): World {
    World(clock, row.(nextAt := Some(clock + e.st.period)), map[0 := Claimed(clock, row)], [row.nextAt], 0)
  }

  /** And after the second, at the due time the first one wrote. */
  function ClaimedTwice(e: Setting, clock: int, row: Row): World {
    var due := clock + e.st.period;
    World(due, row.(nextAt := Some(due + e.st.period)),
          map[0 := Claimed(clock, row), 1 := Claimed(due, row.(nextAt := Some(due)))], [row.nextAt, Some(due)], 0)
  }

  lemma FirstClaims(e: Setting, clock: int, row: Row)
    requires Proper(e) && e.grace > e.st.period && (row.nextAt.None? || row.nextAt.value <= clock)
    ensures RunMoves(e, World(clock, row, map[], [], 0), [Begin(0), Load(0), Claim(0)]) == ClaimedOnce(e, clock, row)
  {
    var m := [Begin(0), Load(0), Claim(0)];
    var w0 := World(clock, row, map[], [], 0);
    assert m[0..] == m && m[3..] == [];
    Advance(e, w0, m, 0);
    var w1 := w0.(instances := map[0 := Begun(clock)]);
    assert MoveOne(e, w0, m[0]) == w1;
    Advance(e, w1, m, 1);
    var w2 := w0.(instances := map[0 := Loaded(clock, row)]);
    assert MoveOne(e, w1, m[1]) == w2;
    Advance(e, w2, m, 2);
    var w3 := ClaimedOnce(e, clock, row);
    assert MoveOne(e, w2, m[2]).instances == w3.instances;
    assert MoveOne(e, w2, m[2]) == w3;
  }

  lemma SecondClaims(e: Setting, clock: int, row: Row, w: World)
    requires Proper(e) && e.grace > e.st.period && w == ClaimedOnce(e, clock, row)
    ensures RunMoves(e, w, [Wait(clock + e.st.period), Begin(1), Load(1), Claim(1)]) == ClaimedTwice(e, clock, row)
  {
    var due := clock + e.st.period;
    var m := [Wait(due), Begin(1), Load(1), Claim(1)];
    assert m[0..] == m && m[4..] == [];
    var row1 := row.(nextAt := Some(due));
    Advance(e, w, m, 0);
    var w1 := w.(clock := due);
    assert MoveOne(e, w, m[0]) == w1;
    Advance(e, w1, m, 1);
    var w2 := w1.(instances := map[0 := Claimed(clock, row), 1 := Begun(due)]);
    assert MoveOne(e, w1, m[1]) == w2;
    Advance(e, w2, m, 2);
    var w3 := w1.(instances := map[0 := Claimed(clock, row), 1 := Loaded(due, row1)]);
    assert MoveOne(e, w2, m[2]).instances == w3.instances;
    assert MoveOne(e, w2, m[2]) == w3;
    Advance(e, w3, m, 3);
    SecondClaim(e, clock, row, w3);
  }

  lemma SecondClaim(e: Setting, clock: int, row: Row, w: World)
    requires Proper(e) && e.grace > e.st.period
    requires var due := clock + e.st.period;
             w == ClaimedTwice(e, clock, row).(row := row.(nextAt := Some(due)), claims := [row.nextAt],
                    instances := map[0 := Claimed(clock, row), 1 := Loaded(due, row.(nextAt := Some(due)))])
    ensures MoveOne(e, w, Claim(1)) == ClaimedTwice(e, clock, row)
  {
    assert MoveOne(e, w, Claim(1)).instances == ClaimedTwice(e, clock, row).instances;
  }

  /** A rotation with several batches saves a full list and moves the index one place. */
  lemma FullRotation(e: Setting, row: Row, now: int)
    requires Proper(e) && Batches(|e.queue|, e.st.batchSize) >= 2 && row.queue == e.queue
    ensures var r, t := Rotated(row, e.queue, e.st, now, []), Batches(|e.queue|, e.st.batchSize);
            |r.active| == e.st.batchSize && r.batchIndex % t == (row.batchIndex + 1) % t
  {
    BatchesCover(|e.queue|, e.st.batchSize);
    RotationKeepsActiveList(row, e.queue, e.st, now, []);
    RotatedIndex(row, e.queue, e.st, Tick(now, []));
    AdvanceIndex(row.batchIndex, row.batchIndex, Batches(|e.queue|, e.st.batchSize));
  }

  lemma FirstSaves(e: Setting, clock: int, row: Row) returns (w: World)
    requires Proper(e) && Batches(|e.queue|, e.st.batchSize) >= 2 && OnTimer(e, row)
    ensures w == MoveOne(e, ClaimedTwice(e, clock, row), Save(0, []))
    ensures var due := clock + e.st.period;
            && w.instances == map[1 := Claimed(due, row.(nextAt := Some(due)))]
            && w.claims == [row.nextAt, Some(due)]
  {
    FullRotation(e, row, clock);
    hide Rotated;
    hide Batches;
    w := SavedWorld(e, ClaimedTwice(e, clock, row), clock, row);
    hide MoveOne;
    var due := clock + e.st.period;
    assert w.instances == map[1 := Claimed(due, row.(nextAt := Some(due)))];
  }

  lemma SavedWorld(e: Setting, w: World, now: int, seen: Row) returns (next: World)
    requires Proper(e) && 0 in w.instances && w.instances[0] == Claimed(now, seen)
    requires |Rotated(seen, e.queue, e.st, now, []).active| == e.st.batchSize
    ensures next == MoveOne(e, w, Save(0, []))
    ensures next.instances == w.instances - {0} && next.claims == w.claims
  {
    hide Rotated;
    next := MoveOne(e, w, Save(0, []));
  }

  lemma SecondSaves(e: Setting, now: int, seen: Row, w: World)
    requires Proper(e) && Batches(|e.queue|, e.st.batchSize) >= 2 && OnTimer(e, seen)
    requires w.instances == map[1 := Claimed(now, seen)]
    ensures var last, t := MoveOne(e, w, Save(1, [])), Batches(|e.queue|, e.st.batchSize);
            && last.instances == map[] && last.claims == w.claims
            && last.row.batchIndex % t == (seen.batchIndex + 1) % t
  {
    FullRotation(e, seen, now);
    hide Rotated;
    hide Batches;
  }

  lemma BothSave(e: Setting, clock: int, row: Row, w: World)
    requires Proper(e) && Batches(|e.queue|, e.st.batchSize) >= 2 && OnTimer(e, row)
    requires w == ClaimedTwice(e, clock, row)
    ensures var last, t := RunMoves(e, w, [Save(0, []), Save(1, [])]), Batches(|e.queue|, e.st.batchSize);
            && last.instances == map[] && last.claims == w.claims
            && last.row.batchIndex % t == (row.batchIndex + 1) % t
  {
    hide MoveOne;
    hide RunMoves;
    hide Batches;
    var due := clock + e.st.period;
    var w1 := FirstSaves(e, clock, row);
    SecondSaves(e, due, row.(nextAt := Some(due)), w1);
    RunOfTwo(e, w, Save(0, []), Save(1, []));
  }

  lemma RunOfTwo(e: Setting, w: World, a: Move, b: Move)
    requires FeaturedRotation.Proper(e.st)
    ensures RunMoves(e, w, [a, b]) == MoveOne(e, MoveOne(e, w, a), b)
  {
    hide MoveOne;
    var m := [a, b];
    assert m[0..] == m && m[2..] == [];
    Advance(e, w, m, 0);
    Advance(e, MoveOne(e, w, a), m, 1);
  }

  // ----- also with one batch -----

  /** Saved lists can be full: the queue fills a batch, or fallbacks may. */
  predicate CanBeFull(e: Setting) {
    |e.queue| >= e.st.batchSize || e.st.position != 1
  }

  lemma {:induction false} Above(queue: seq<int>) returns (top: nat)
    ensures forall id :: id in queue ==> id <= top
  {
    top := 0;
    if queue != [] {
      top := Above(queue[1..]);
      if queue[0] > top { top := queue[0]; }
      assert forall id :: id in queue ==> id == queue[0] || id in queue[1..];
    }
  }

  /** There are recent products with which every rotation saves a full list. */
  lemma FullRecents(e: Setting) returns (recents: seq<int>)
    requires Proper(e) && CanBeFull(e)
    ensures ActiveLength(e.queue, e.st, recents) == e.st.batchSize
  {
    recents := [];
    if |e.queue| < e.st.batchSize {
      var top := Above(e.queue);
      var room := e.st.batchSize - |e.queue|;
      recents := seq(room, i requires 0 <= i < room => top + 1 + i);
      ElementsCount(recents);
      assert Candidates(room, recents) == recents;
      forall id ensures id in FreshIds(Elements(e.queue), room, recents) <==> id in Elements(recents) {
        if id in recents { assert id > top; }
      }
      assert FreshIds(Elements(e.queue), room, recents) == Elements(recents);
      hide FreshIds;
    }
  }

  /** Instance 0 saves late, and so finds the due time that instance 1 has already claimed. */
  function RepeatMoves(due: int, recents: seq<int>): seq<Move> {
    [Begin(0), Load(0), Claim(0)]
    + ([Wait(due), Begin(1), Load(1), Claim(1)] + [Save(0, recents), Begin(0), Load(0), Claim(0)])
  }

  lemma SavedRow(e: Setting, row: Row, now: int, recents: seq<int>)
    requires Proper(e) && OnTimer(e, row) && ActiveLength(e.queue, e.st, recents) == e.st.batchSize
    ensures var saved := Rotated(row, e.queue, e.st, now, recents);
            |saved.active| == e.st.batchSize && saved.nextAt == Some(now + e.st.period)
  {
    SavedLength(row, e.queue, e.st, now, recents);
    RotatedIndex(row, e.queue, e.st, Tick(now, recents));
    hide Rotated;
    hide ActiveLength;
    hide Batches;
    hide JsRem;
  }

  lemma LateSaved(e: Setting, clock: int, row: Row, recents: seq<int>) returns (w: World)
    requires Proper(e) && OnTimer(e, row) && ActiveLength(e.queue, e.st, recents) == e.st.batchSize
    ensures var due := clock + e.st.period;
            && w == MoveOne(e, ClaimedTwice(e, clock, row), Save(0, recents))
            && w.row.nextAt == Some(due) && w.clock == due && w.claims == [row.nextAt, Some(due)]
            && 0 !in w.instances
  {
    hide Rotated;
    hide ActiveLength;
    hide OnTimer;
    hide NoDup;
    SavedRow(e, row, clock, recents);
    w := MoveOne(e, ClaimedTwice(e, clock, row), Save(0, recents));
  }

  lemma ThirdClaims(e: Setting, clock: int, row: Row, recents: seq<int>)
    requires Proper(e) && e.grace > e.st.period && OnTimer(e, row)
    requires ActiveLength(e.queue, e.st, recents) == e.st.batchSize
    ensures RunMoves(e, ClaimedTwice(e, clock, row), [Save(0, recents), Begin(0), Load(0), Claim(0)]).claims
         == [row.nextAt, Some(clock + e.st.period), Some(clock + e.st.period)]
  {
    hide MoveOne;
    hide RunMoves;
    hide ActiveLength;
    hide ClaimedTwice;
    var m := [Save(0, recents), Begin(0), Load(0), Claim(0)];
    var w := LateSaved(e, clock, row, recents);
    ClaimAgain(e, w, clock + e.st.period);
    assert m[0..] == m && m[1..] == [Begin(0), Load(0), Claim(0)];
    Advance(e, ClaimedTwice(e, clock, row), m, 0);
  }

  lemma ClaimAgain(e: Setting, w: World, due: int)
    requires Proper(e) && e.grace > e.st.period
    requires 0 !in w.instances && w.clock == due && w.row.nextAt == Some(due)
    ensures RunMoves(e, w, [Begin(0), Load(0), Claim(0)]).claims == w.claims + [Some(due)]
  {
    var m := [Begin(0), Load(0), Claim(0)];
    var w1 := MoveOne(e, w, m[0]);
    assert w1 == w.(instances := w.instances[0 := Begun(due)]);
    var w2 := MoveOne(e, w1, m[1]);
    assert w2.instances[0] == Loaded(due, w.row) && w2.row == w.row && w2.clock == due && w2.claims == w.claims;
    var w3 := MoveOne(e, w2, m[2]);
    assert w3.claims == w.claims + [Some(due)];
    hide MoveOne;
    assert m[0..] == m && m[3..] == [];
    Advance(e, w, m, 0);
    Advance(e, w1, m, 1);
    Advance(e, w2, m, 2);
  }

  /** However many batches there are: claimers that may save that late can claim one due time twice. */
  lemma LateSaveRepeatsClaim(e: Setting, clock: int, row: Row) returns (moves: seq<Move>)
    requires Proper(e) && CanBeFull(e) && e.grace > e.st.period
    requires OnTimer(e, row) && (row.nextAt.None? || row.nextAt.value <= clock)
    ensures var due := Some(clock + e.st.period);
            RunMoves(e, World(clock, row, map[], [], 0), moves).claims == [row.nextAt, due, due]
  {
    hide MoveOne;
    hide RunMoves;
    var due := clock + e.st.period;
    var recents := FullRecents(e);
    moves := RepeatMoves(due, recents);
    assert FeaturedRotation.Proper(e.st);
    hide *;
    var a, b := [Begin(0), Load(0), Claim(0)], [Wait(due), Begin(1), Load(1), Claim(1)];
    var c := [Save(0, recents), Begin(0), Load(0), Claim(0)];
    var w0 := World(clock, row, map[], [], 0);
    RepeatMovesAre(due, recents);
    FirstClaims(e, clock, row);
    SecondClaims(e, clock, row, ClaimedOnce(e, clock, row));
    ThirdClaims(e, clock, row, recents);
    RunsCompose(e, w0, a, b + c);
    RunsCompose(e, ClaimedOnce(e, clock, row), b, c);
  }

  lemma RepeatMovesAre(due: int, recents: seq<int>)
    ensures RepeatMoves(due, recents)
         == [Begin(0), Load(0), Claim(0)]
            + ([Wait(due), Begin(1), Load(1), Claim(1)] + [Save(0, recents), Begin(0), Load(0), Claim(0)])
  {
  }

  /** So the claim works in every interleaving exactly when `grace` is at most the period. */
  lemma GraceBoundIsExact(e: Setting)
    requires Proper(e) && CanBeFull(e)
    ensures AlwaysOncePerClaim(e) <==> e.grace <= e.st.period
  {
    if e.grace <= e.st.period {
      forall clock, row, moves | OnTimer(e, row)
        ensures OncePerClaim(e, row, RunMoves(e, World(clock, row, map[], [], 0), moves))
      {
        ClaimedOnceAdvancedOnce(e, clock, row, moves);
      }
    } else {
      var active := seq(e.st.batchSize, i => i);
      var row := Row(0, |e.queue|, e.queue, active, [], None, None, None);
      var moves := LateSaveRepeatsClaim(e, 0, row);
      hide RunMoves;
      hide Batches;
      var claims := RunMoves(e, World(0, row, map[], [], 0), moves).claims;
      assert claims[1] == claims[2];
      assert !OncePerClaim(e, row, RunMoves(e, World(0, row, map[], [], 0), moves));
    }
  }

  lemma {:induction false} RunsCompose(e: Setting, w: World, a: seq<Move>, b: seq<Move>)
    requires FeaturedRotation.Proper(e.st)
    ensures RunMoves(e, w, a + b) == RunMoves(e, RunMoves(e, w, a), b)
    decreases |a|
  {
    if a == [] {
      assert a + b == b;
    } else {
      assert (a + b)[0] == a[0] && (a + b)[1..] == a[1..] + b;
      RunsCompose(e, MoveOne(e, w, a[0]), a[1..], b);
    }
  }

  lemma Advance(e: Setting, w: World, m: seq<Move>, i: nat)
    requires FeaturedRotation.Proper(e.st) && i < |m|
    ensures RunMoves(e, w, m[i..]) == RunMoves(e, MoveOne(e, w, m[i]), m[i + 1..])
  {
    assert m[i..][0] == m[i] && m[i..][1..] == m[i + 1..];
  }
}
