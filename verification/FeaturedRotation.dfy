/** Rotation of a position's featured products: when it is due, what it saves, and whom it shows. */
module FeaturedRotation {
  import opened Outcomes
  import opened Sequences
  import opened FeaturedQueue

  /** The stored rotation state of one position; times are milliseconds. */
  datatype Row = Row(
    batchIndex: int,
    totalProducts: int,
    queue: seq<int>,
    active: seq<int>,
    fallback: seq<int>,
    lastAt: Option<int>,
    nextAt: Option<int>,
    refreshedAt: Option<int>)

  datatype Settings = Settings(position: int, batchSize: nat, period: int)

  predicate Proper(st: Settings) {
    st.batchSize >= 1 && st.period > 0
  }

  predicate Due(row: Row, queue: seq<int>, st: Settings, now: int, force: bool) {
    || force
    || row.queue != queue
    || |row.active| != st.batchSize
    || row.nextAt.None?
    || row.nextAt.value <= now
  }

  function NextIndex(row: Row, queue: seq<int>, b: nat): int
    requires b >= 1
  {
    if queue == [] || row.queue != queue then 0 else JsRem(row.batchIndex + 1, Batches(|queue|, b))
  }

  function BaseIds(queue: seq<int>, st: Settings, index: int): seq<int>
    requires Proper(st)
  {
    if queue == [] then [] else Batch(queue, st.batchSize, index)
  }

  function FallbackIds(base: seq<int>, st: Settings, recents: seq<int>): seq<int> {
    if st.position != 1 && |base| < st.batchSize
    then Fallback(Elements(base), st.batchSize - |base|, recents) else []
  }

  function Saved(
      row: Row, queue: seq<int>, index: int, active: seq<int>, fallback: seq<int>, now: int, period: int): Row
  {
    Row(index, |queue|, queue, active, fallback, Some(now), Some(now + period),
        if row.queue != queue || row.refreshedAt.None? then Some(now) else row.refreshedAt)
  }

  /** The row a rotation at `now` saves; `recents` are all product ids, newest first. */
  function Rotated(row: Row, queue: seq<int>, st: Settings, now: int, recents: seq<int>): Row
    requires Proper(st)
  {
    var index := NextIndex(row, queue, st.batchSize);
    var base := BaseIds(queue, st, index);
    var fallback := FallbackIds(base, st, recents);
    Saved(row, queue, index, Slice(base + fallback, 0, st.batchSize), fallback, now, st.period)
  }

  // ----- the active list -----

  /** What holds of every saved row. */
  ghost predicate ProperlyActive(r: Row, st: Settings)
    requires Proper(st)
  {
    && r.totalProducts == |r.queue|
    && r.lastAt.Some? && r.nextAt == Some(r.lastAt.value + st.period)
    && r.active == BaseIds(r.queue, st, r.batchIndex) + r.fallback
    && NoDup(r.active)
    && |r.active| <= st.batchSize
    && (forall id :: id in r.fallback ==> id !in r.queue)
    && (st.position == 1 ==> r.fallback == [])
    && (r.fallback != [] ==> forall id :: id in r.queue ==> id in r.active)
  }

  /** Every rotation saves such a list, from any stored row and for any queue without repetitions. */
  lemma RotationKeepsActiveList(row: Row, queue: seq<int>, st: Settings, now: int, recents: seq<int>)
    requires Proper(st) && NoDup(queue)
    ensures ProperlyActive(Rotated(row, queue, st, now, recents), st)
    ensures |queue| >= st.batchSize ==> |Rotated(row, queue, st, now, recents).active| == st.batchSize
    ensures var r := Rotated(row, queue, st, now, recents);
            && r.queue == queue && r.lastAt == Some(now)
            && (row.queue == queue && row.refreshedAt.Some? ==> r.refreshedAt == row.refreshedAt)
            && (row.queue == queue && row.refreshedAt.None? ==> r.refreshedAt == Some(now))
  {
    var index := NextIndex(row, queue, st.batchSize);
    BatchShape(queue, st.batchSize, index);
    var base := BaseIds(queue, st, index);
    var fallback := FallbackIds(base, st, recents);
    PaddedIsDistinct(base, fallback, st.batchSize);
    assert |base| < st.batchSize ==> base == queue;
  }

  lemma PaddedIsDistinct(base: seq<int>, fallback: seq<int>, b: nat)
    requires NoDup(base) && NoDup(fallback) && |base| + |fallback| <= b
    requires forall id :: id in fallback ==> id !in Elements(base)
    ensures NoDup(base + fallback) && Slice(base + fallback, 0, b) == base + fallback
  {
    forall i, j | 0 <= i < j < |base + fallback| ensures (base + fallback)[i] != (base + fallback)[j] {
      if i < |base| <= j {
        assert fallback[j - |base|] in fallback;
      }
    }
  }

  // ----- how often a position rotates -----

  lemma ShortActiveLength(row: Row, queue: seq<int>, st: Settings, now: int, recents: seq<int>)
    requires Proper(st) && NoDup(queue) && st.position != 1 && |queue| < st.batchSize
    ensures |Rotated(row, queue, st, now, recents).active|
         == |queue| + |Fallback(Elements(queue), st.batchSize - |queue|, recents)|
  {
    var index := NextIndex(row, queue, st.batchSize);
    BatchShape(queue, st.batchSize, index);
    hide Batch;
    hide Fallback;
    assert BaseIds(queue, st, index) == queue;
  }

  /** How long a list is saved: a whole batch, or the queue and as many fresh products as there are. */
  function ActiveLength(queue: seq<int>, st: Settings, recents: seq<int>): nat {
    if |queue| >= st.batchSize then st.batchSize
    else if st.position == 1 then |queue|
    else
      var room := st.batchSize - |queue|;
      var found := |FreshIds(Elements(queue), room, recents)|;
      |queue| + (if found < room then found else room)
  }

  lemma FirstActiveLength(row: Row, queue: seq<int>, st: Settings, now: int, recents: seq<int>)
    requires Proper(st) && NoDup(queue) && st.position == 1 && |queue| < st.batchSize
    ensures |Rotated(row, queue, st, now, recents).active| == |queue|
  {
    var index := NextIndex(row, queue, st.batchSize);
    BatchShape(queue, st.batchSize, index);
    hide Batch;
    assert BaseIds(queue, st, index) == queue;
    assert queue + [] == queue;
  }

  lemma SavedLength(row: Row, queue: seq<int>, st: Settings, now: int, recents: seq<int>)
    requires Proper(st) && NoDup(queue)
    ensures |Rotated(row, queue, st, now, recents).active| == ActiveLength(queue, st, recents)
  {
    hide Rotated;
    hide Fallback;
    hide FreshIds;
    hide ProperlyActive;
    RotationKeepsActiveList(row, queue, st, now, recents);
    if |queue| < st.batchSize {
      if st.position == 1 {
        FirstActiveLength(row, queue, st, now, recents);
      } else {
        ShortActiveLength(row, queue, st, now, recents);
        FallbackCount(Elements(queue), st.batchSize - |queue|, recents);
      }
    }
  }

  /**
   After a rotation another call, with any queue, batch size and time of its own, rotates again exactly
   when it is forced, the queue has changed, it does not ask for as many products as the rotation
   saved, or the rotation's period is over. A row never rotated always is.
   */
  lemma RotatesAgainExactly(
      row: Row, queue: seq<int>, st: Settings, now: int, recents: seq<int>,
      later: int, queue': seq<int>, other: Settings, force: bool)
    requires Proper(st) && NoDup(queue)
    ensures Due(Rotated(row, queue, st, now, recents), queue', other, later, force) <==>
              || force || queue' != queue
              || other.batchSize != ActiveLength(queue, st, recents)
              || later >= now + st.period
    ensures row.nextAt.None? ==> Due(row, queue', other, later, force)
  {
    SavedLength(row, queue, st, now, recents);
    hide ActiveLength;
    hide Batch;
    hide FallbackIds;
  }

  /** A call for 10 products, a moment after the scheduler's rotation for 5, rotates a long queue again. */
  lemma TenAfterFiveRotates(row: Row, queue: seq<int>, position: int, now: int, recents: seq<int>, later: int)
    requires NoDup(queue) && |queue| >= 10 && now <= later < now + 300000
    ensures Due(Rotated(row, queue, Settings(position, 5, 300000), now, recents), queue,
                Settings(position, 10, 300000), later, false)
  {
    RotatesAgainExactly(row, queue, Settings(position, 5, 300000), now, recents,
                        later, queue, Settings(position, 10, 300000), false);
  }

  /** A changed queue starts over, with its first products or all of it. */
  lemma ChangedQueueStartsOver(row: Row, queue: seq<int>, st: Settings, now: int, recents: seq<int>)
    requires Proper(st) && NoDup(queue) && row.queue != queue
    ensures var r := Rotated(row, queue, st, now, recents);
            && r.batchIndex == 0 && r.refreshedAt == Some(now)
            && if |queue| >= st.batchSize then r.active == queue[..st.batchSize] else queue <= r.active
  {
    RotationKeepsActiveList(row, queue, st, now, recents);
    if queue != [] { FirstBatch(queue, st.batchSize); }
    hide Batch;
    hide FallbackIds;
    hide NoDup;
  }

  // ----- fairness -----

  datatype Tick = Tick(now: int, recents: seq<int>)

  /** `rows` are the stored rows before and after each of the successive rotations at `ticks`. */
  ghost predicate Rotations(rows: seq<Row>, queue: seq<int>, st: Settings, ticks: seq<Tick>)
    requires Proper(st)
  {
    && |rows| == |ticks| + 1
    && forall k :: 0 <= k < |ticks| ==> rows[k + 1] == Rotated(rows[k], queue, st, ticks[k].now, ticks[k].recents)
  }

  /** One advance moves one place around the batches, whatever integer was stored. */
  lemma AdvanceIndex(index: int, reached: int, t: nat)
    requires t >= 1 && index % t == reached % t
    ensures JsRem(index + 1, t) % t == (reached + 1) % t
  {
    JsRemIsMod(index + 1, t);
    ModOfSum(index, 1, t);
    ModOfSum(reached, 1, t);
  }

  /** How many rotations after index `from` batch `target` comes up next. */
  lemma ReachBatch(from: int, target: nat, t: nat) returns (k: nat)
    requires target < t
    ensures 1 <= k <= t && (from + k) % t == target
  {
    var gap := target - (from + 1) % t;
    k := if gap >= 0 then gap + 1 else gap + t + 1;
    ModOfSum(from + 1, k - 1, t);
    if gap >= 0 {
      DivModUnique(target, t, 0, target);
    } else {
      DivModUnique(target + t, t, 1, target);
    }
  }

  /** A walk of advances is at place start + k after k of them. */
  lemma {:induction false} IndexWalk(indexes: seq<int>, t: nat, k: nat)
    requires t >= 1 && k < |indexes|
    requires forall i :: 0 <= i < |indexes| - 1 ==> indexes[i + 1] == JsRem(indexes[i] + 1, t)
    ensures indexes[k] % t == (indexes[0] + k) % t
  {
    if k > 0 {
      IndexWalk(indexes, t, k - 1);
      AdvanceIndex(indexes[k - 1], indexes[0] + k - 1, t);
    }
  }

  lemma RotatedIndex(row: Row, queue: seq<int>, st: Settings, tick: Tick)
    requires Proper(st) && queue != [] && row.queue == queue
    ensures var r := Rotated(row, queue, st, tick.now, tick.recents);
            && r.queue == queue && r.nextAt == Some(tick.now + st.period)
            && r.batchIndex == JsRem(row.batchIndex + 1, Batches(|queue|, st.batchSize))
  {
    hide Batch;
    hide FallbackIds;
  }

  /** An unchanged queue stays the stored one, and the stored index keeps advancing. */
  lemma {:induction false} RotationsWalk(rows: seq<Row>, queue: seq<int>, st: Settings, ticks: seq<Tick>, k: nat)
    requires Proper(st) && queue != [] && Rotations(rows, queue, st, ticks) && rows[0].queue == queue
    requires k < |ticks|
    ensures rows[k].queue == queue && rows[k + 1].queue == queue
    ensures rows[k + 1].batchIndex == JsRem(rows[k].batchIndex + 1, Batches(|queue|, st.batchSize))
  {
    hide Rotated;
    hide Batches;
    hide JsRem;
    if k > 0 {
      RotationsWalk(rows, queue, st, ticks, k - 1);
    }
    assert rows[k].queue == queue;
    RotatedIndex(rows[k], queue, st, ticks[k]);
  }

  /** A rotation that reaches the batch of place `j` shows the product at place `j`. */
  lemma ShownByRotation(row: Row, queue: seq<int>, st: Settings, tick: Tick, j: nat)
    requires Proper(st) && NoDup(queue) && j < |queue|
    requires Rotated(row, queue, st, tick.now, tick.recents).batchIndex % Batches(|queue|, st.batchSize)
          == j / st.batchSize
    ensures queue[j] in Rotated(row, queue, st, tick.now, tick.recents).active
  {
    RotationKeepsActiveList(row, queue, st, tick.now, tick.recents);
    var index := NextIndex(row, queue, st.batchSize);
    InItsBatch(queue, st.batchSize, j, index);
    assert queue[j] in BaseIds(queue, st, index);
  }

  lemma IndexReached(rows: seq<Row>, queue: seq<int>, st: Settings, ticks: seq<Tick>, k: nat)
    requires Proper(st) && queue != [] && Rotations(rows, queue, st, ticks) && rows[0].queue == queue
    requires k <= |ticks|
    ensures var t := Batches(|queue|, st.batchSize);
            rows[k].batchIndex % t == (rows[0].batchIndex + k) % t
  {
    hide Rotated;
    var t := Batches(|queue|, st.batchSize);
    var indexes := seq(|rows|, i requires 0 <= i < |rows| => rows[i].batchIndex);
    forall i | 0 <= i < |indexes| - 1 ensures indexes[i + 1] == JsRem(indexes[i] + 1, t) {
      RotationsWalk(rows, queue, st, ticks, i);
    }
    IndexWalk(indexes, t, k);
  }

  /** From any stored index, ceil(n/b) successive rotations show every queued product. */
  lemma EveryProductShown(rows: seq<Row>, queue: seq<int>, st: Settings, ticks: seq<Tick>, id: int)
    requires Proper(st) && NoDup(queue) && id in queue
    requires Rotations(rows, queue, st, ticks) && rows[0].queue == queue
    requires |ticks| == Batches(|queue|, st.batchSize)
    ensures exists k :: 1 <= k <= |ticks| && id in rows[k].active
  {
    var t, j := |ticks|, FirstIndex(queue, id);
    BatchOfPlace(|queue|, st.batchSize, j);
    var k := ReachBatch(rows[0].batchIndex, j / st.batchSize, t);
    IndexReached(rows, queue, st, ticks, k);
    ShownByRotation(rows[k - 1], queue, st, ticks[k - 1], j);
  }

  // ----- callers of two batch sizes -----

  datatype Visit = Visit(st: Settings, now: int, recents: seq<int>)

  /** `rows` are the stored rows before and after each of the rotations that `visits` cause in turn. */
  ghost predicate Visited(rows: seq<Row>, queue: seq<int>, visits: seq<Visit>) {
    && |rows| == |visits| + 1
    && (forall k :: 0 <= k < |visits| ==> Proper(visits[k].st))
    && forall k :: 0 <= k < |visits| ==>
         rows[k + 1] == Rotated(rows[k], queue, visits[k].st, visits[k].now, visits[k].recents)
  }

  /** Visitors that ask in turn for different numbers of products rotate the position on every call. */
  lemma EveryVisitRotates(rows: seq<Row>, queue: seq<int>, visits: seq<Visit>, k: nat)
    requires NoDup(queue) && Visited(rows, queue, visits) && 1 <= k < |visits|
    requires visits[k - 1].st.batchSize <= |queue| && visits[k - 1].st.batchSize != visits[k].st.batchSize
    ensures Due(rows[k], queue, visits[k].st, visits[k].now, false)
  {
    var v := visits[k - 1];
    SavedLength(rows[k - 1], queue, v.st, v.now, v.recents);
    assert rows[k] == Rotated(rows[k - 1], queue, v.st, v.now, v.recents);
    hide Rotated;
  }

  /** The visits ask in turn for 2b and for b products. */
  ghost predicate Alternating(visits: seq<Visit>, b: nat) {
    forall k :: 0 <= k < |visits| ==> visits[k].st.batchSize == if k % 2 == 0 then 2 * b else b
  }

  lemma FourBatches(b: nat)
    requires b >= 1
    ensures Batches(4 * b, 2 * b) == 2 && Batches(4 * b, b) == 4
  {
    DivModUnique(4 * b + 2 * b - 1, 2 * b, 2, 2 * b - 1);
    DivModUnique(4 * b + b - 1, b, 4, b - 1);
  }

  lemma AlternatingStep(row: Row, queue: seq<int>, v: Visit, b: nat)
    requires b >= 1 && |queue| == 4 * b && row.queue == queue && Proper(v.st)
    requires (v.st.batchSize == 2 * b && row.batchIndex in {0, 2}) || (v.st.batchSize == b && row.batchIndex == 1)
    ensures var r := Rotated(row, queue, v.st, v.now, v.recents);
            r.queue == queue && r.batchIndex == if v.st.batchSize == 2 * b then 1 else 2
  {
    hide Rotated;
    RotatedIndex(row, queue, v.st, Tick(v.now, v.recents));
    FourBatches(b);
    hide Batches;
  }

  lemma {:induction false} AlternatingIndex(rows: seq<Row>, queue: seq<int>, visits: seq<Visit>, b: nat, k: nat)
    requires b >= 1 && |queue| == 4 * b && Visited(rows, queue, visits) && Alternating(visits, b)
    requires rows[0].queue == queue && rows[0].batchIndex == 0 && k <= |visits|
    ensures rows[k].queue == queue
    ensures rows[k].batchIndex == if k == 0 then 0 else if k % 2 == 1 then 1 else 2
  {
    hide Rotated;
    if k > 0 {
      AlternatingIndex(rows, queue, visits, b, k - 1);
      VisitAt(rows, queue, visits, b, k - 1);
      hide Visited;
      hide Alternating;
      AlternatingStep(rows[k - 1], queue, visits[k - 1], b);
    }
  }

  lemma VisitAt(rows: seq<Row>, queue: seq<int>, visits: seq<Visit>, b: nat, k: nat)
    requires Visited(rows, queue, visits) && Alternating(visits, b) && k < |visits|
    ensures |rows| == |visits| + 1 && Proper(visits[k].st)
    ensures visits[k].st.batchSize == if k % 2 == 0 then 2 * b else b
    ensures rows[k + 1] == Rotated(rows[k], queue, visits[k].st, visits[k].now, visits[k].recents)
  {
  }

  /** A rotation of a queue of four batches to its second half shows nothing of its first. */
  lemma SecondHalfOnly(row: Row, queue: seq<int>, st: Settings, tick: Tick, b: nat, j: nat)
    requires Proper(st) && NoDup(queue) && b >= 1 && |queue| == 4 * b && row.queue == queue && j < 2 * b
    requires var r := Rotated(row, queue, st, tick.now, tick.recents);
             (st.batchSize == 2 * b && r.batchIndex == 1) || (st.batchSize == b && r.batchIndex == 2)
    ensures queue[j] !in Rotated(row, queue, st, tick.now, tick.recents).active
  {
    var r := Rotated(row, queue, st, tick.now, tick.recents);
    RotationKeepsActiveList(row, queue, st, tick.now, tick.recents);
    var index := NextIndex(row, queue, st.batchSize);
    assert r.batchIndex == index && r.queue == queue;
    BatchShape(queue, st.batchSize, index);
    FourBatches(b);
    StartsHalfway(st.batchSize, b, index);
    hide Rotated;
    hide Batch;
    hide StartOf;
    hide Batches;
    assert r.active == BaseIds(queue, st, index) == RingFrom(queue, st.batchSize, 2 * b);
    forall i | 0 <= i < |r.active| ensures r.active[i] != queue[j] {
      assert r.active[i] == queue[2 * b + i];
    }
  }

  lemma StartsHalfway(size: nat, b: nat, index: int)
    requires b >= 1 && ((size == 2 * b && index == 1) || (size == b && index == 2))
    ensures StartOf(4 * b, size, index) == 2 * b
  {
    FourBatches(b);
    var t := Batches(4 * b, size);
    DivModUnique(index, t, 0, index);
    hide Batches;
  }

  /**
   Fairness needs one batch size. When visitors ask in turn for 2b and for b products, a queue of 4b
   has the products of its first half shown never, however many rotations there are.
   */
  lemma TwoSizesStarve(rows: seq<Row>, queue: seq<int>, visits: seq<Visit>, b: nat, k: nat, j: nat)
    requires b >= 1 && NoDup(queue) && |queue| == 4 * b && Visited(rows, queue, visits) && Alternating(visits, b)
    requires rows[0].queue == queue && rows[0].batchIndex == 0
    requires 1 <= k <= |visits| && j < 2 * b
    ensures queue[j] !in rows[k].active
  {
    hide Rotated;
    AlternatingIndex(rows, queue, visits, b, k - 1);
    AlternatingIndex(rows, queue, visits, b, k);
    VisitAt(rows, queue, visits, b, k - 1);
    var v := visits[k - 1];
    hide Visited;
    hide Alternating;
    SecondHalfOnly(rows[k - 1], queue, v.st, Tick(v.now, v.recents), b, j);
  }

  // ----- the service -----

  /** The batch at `index` and the fallbacks that pad it. */
  method ChooseActive(queue: seq<int>, st: Settings, index: int, recents: seq<int>)
    returns (activeIds: seq<int>, fallbackIds: seq<int>)
    requires Proper(st)
    ensures fallbackIds == FallbackIds(BaseIds(queue, st, index), st, recents)
    ensures activeIds == Slice(BaseIds(queue, st, index) + fallbackIds, 0, st.batchSize)
  {
    activeIds, fallbackIds := [], [];
    if |queue| > 0 {
      var baseIds := BuildBatch(queue, st.batchSize, index);
      if st.position != 1 && |baseIds| < st.batchSize {
        fallbackIds := FetchRecentFallbackIds(Elements(baseIds), st.batchSize - |baseIds|, recents);
      }
      activeIds := Slice(baseIds + fallbackIds, 0, st.batchSize);
    } else if st.position != 1 {
      assert Elements<int>([]) == {};
      fallbackIds := FetchRecentFallbackIds({}, st.batchSize, recents);
      activeIds := Slice(fallbackIds, 0, st.batchSize);
      assert [] + fallbackIds == fallbackIds;
    }
  }

  /** The claim's own write of `nextAt` makes no difference to what is saved. */
  lemma ClaimUnseen(row: Row, queue: seq<int>, st: Settings, now: int, recents: seq<int>)
    requires Proper(st)
    ensures Rotated(row.(nextAt := Some(now + st.period)), queue, st, now, recents)
         == Rotated(row, queue, st, now, recents)
  {
    hide Batch;
    hide FallbackIds;
  }

  class RotationState {
    var currentBatchIndex: int
    var totalProducts: int
    var queueProductIds: seq<int>
    var activeProductIds: seq<int>
    var fallbackProductIds: seq<int>
    var lastRotationAt: Option<int>
    var nextRotationAt: Option<int>
    var queueRefreshedAt: Option<int>

    function Model(): Row
      reads this
    {
      Row(currentBatchIndex, totalProducts, queueProductIds, activeProductIds, fallbackProductIds,
          lastRotationAt, nextRotationAt, queueRefreshedAt)
    }

    constructor ()
      ensures Model() == Row(0, 0, [], [], [], None, None, None)
    {
      currentBatchIndex, totalProducts := 0, 0;
      queueProductIds, activeProductIds, fallbackProductIds := [], [], [];
      lastRotationAt, nextRotationAt, queueRefreshedAt := None, None, None;
    }

    method Save(queue: seq<int>, index: int, active: seq<int>, fallback: seq<int>, now: int, period: int)
      modifies this
      ensures Model() == Saved(old(Model()), queue, index, active, fallback, now, period)
    {
      if queueProductIds != queue || queueRefreshedAt.None? {
        queueRefreshedAt := Some(now);
      }
      queueProductIds := queue;
      totalProducts := |queue|;
      currentBatchIndex := index;
      activeProductIds := active;
      fallbackProductIds := fallback;
      lastRotationAt := Some(now);
      nextRotationAt := Some(now + period);
    }

    /** The part of the call after the rotation is claimed. */
    method Rotate(st: Settings, queue: seq<int>, queueChanged: bool, now: int, recents: seq<int>)
      requires Proper(st) && queueChanged == (queueProductIds != queue)
      modifies this
      ensures Model() == Rotated(old(Model()), queue, st, now, recents)
    {
      var nextBatchIndex := 0;
      if |queue| > 0 && !queueChanged {
        nextBatchIndex := JsRem(currentBatchIndex + 1, Batches(|queue|, st.batchSize));
      }
      assert nextBatchIndex == NextIndex(Model(), queue, st.batchSize);
      var activeIds, fallbackIds := ChooseActive(queue, st, nextBatchIndex, recents);
      Save(queue, nextBatchIndex, activeIds, fallbackIds, now, st.period);
    }

    /** One whole call; the interleaving of several is the subject of `FeaturedRaces`. */
    method RotatePositionIfDue(st: Settings, plan: Option<seq<Boost>>, now: int, force: bool, recents: seq<int>)
      returns (rotated: bool, ghost queue: seq<int>)
      requires Proper(st)
      modifies this
      ensures queue == if plan.Some? then Queue(plan.value, now) else []
      ensures rotated <==>
                || force || old(queueProductIds) != queue || |old(activeProductIds)| != st.batchSize
                || old(nextRotationAt).None? || old(nextRotationAt).value <= now
      ensures Model() == if rotated then Rotated(old(Model()), queue, st, now, recents) else old(Model())
      ensures rotated ==> ProperlyActive(Model(), st)
    {
      var current := BuildQueueForPosition(plan, now);
      queue := current;
      var same := IsSameQueue(current, queueProductIds);
      var batchSizeChanged := |activeProductIds| != st.batchSize;
      rotated := force || !same || batchSizeChanged || nextRotationAt.None? || nextRotationAt.value <= now;
      hide Queue;
      hide ProperlyActive;
      hide Rotated;
      if rotated {
        RotationKeepsActiveList(Model(), current, st, now, recents);
        if !force {
          ClaimUnseen(Model(), current, st, now, recents);
          nextRotationAt := Some(now + st.period);
        }
        Rotate(st, current, !same, now, recents);
      }
    }
  }
}
