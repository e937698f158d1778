/** The featured queue of a position, the batches cut from it, and the recent products that pad them. */
module FeaturedQueue {
  import opened Outcomes
  import opened Sequences

  const DAY := 86400000
  const FALLBACK_FETCH_MULTIPLIER := 4

  // ----- the queue -----

  /** An approved boost; times are milliseconds. */
  datatype Boost = Boost(productIds: seq<int>, approvedAt: Option<int>, days: int)

  predicate Running(b: Boost, now: int) {
    b.approvedAt.Some? && b.approvedAt.value <= now < b.approvedAt.value + b.days * DAY
  }

  /** The product ids of the running boosts, in priority order and with repetitions. */
  function RunningIds(boosts: seq<Boost>, now: int): seq<int> {
    if boosts == [] then []
    else
      var last := boosts[|boosts| - 1];
      RunningIds(boosts[..|boosts| - 1], now) + (if Running(last, now) then last.productIds else [])
  }

  /** A boost counts from its approval for its number of days of 24 hours, the last moment not included. */
  ghost predicate Boosts(b: Boost, now: int, id: int) {
    && b.approvedAt.Some?
    && 0 <= now - b.approvedAt.value < b.days * 24 * 60 * 60 * 1000
    && id in b.productIds
  }

  ghost predicate Boosted(boosts: seq<Boost>, now: int, id: int) {
    exists b :: b in boosts && Boosts(b, now, id)
  }

  lemma {:induction false} RunningIdsMembers(boosts: seq<Boost>, now: int, id: int)
    ensures id in RunningIds(boosts, now) <==> Boosted(boosts, now, id)
  {
    if boosts != [] {
      var last, rest := boosts[|boosts| - 1], boosts[..|boosts| - 1];
      RunningIdsMembers(rest, now, id);
      assert last in boosts;
      assert forall b :: b in boosts <==> b in rest || b == last;
    }
  }

  function Queue(boosts: seq<Boost>, now: int): seq<int> {
    FirstOccurrences(RunningIds(boosts, now))
  }

  /** The queue holds each product of a running boost exactly once. */
  lemma QueueShape(boosts: seq<Boost>, now: int)
    ensures NoDup(Queue(boosts, now))
    ensures forall id :: id in Queue(boosts, now) <==> Boosted(boosts, now, id)
  {
    var ids, q := RunningIds(boosts, now), Queue(boosts, now);
    FirstOccurrencesDistinct(ids);
    forall id ensures id in q <==> Boosted(boosts, now, id) {
      FirstOccurrencesMember(ids, id);
      RunningIdsMembers(boosts, now, id);
    }
  }

  /** Place `p` of boost `k` mentions `x`, and no earlier place of a running boost mentions `y`. */
  ghost predicate MentionedAt(boosts: seq<Boost>, now: int, x: int, y: int, k: nat, p: nat) {
    && k < |boosts| && p < |boosts[k].productIds|
    && boosts[k].productIds[p] == x && Boosts(boosts[k], now, x)
    && y !in boosts[k].productIds[..p + 1]
    && forall l :: 0 <= l < k ==> !Boosts(boosts[l], now, y)
  }

  ghost predicate MentionedBefore(boosts: seq<Boost>, now: int, x: int, y: int) {
    exists k: nat, p: nat :: MentionedAt(boosts, now, x, y, k, p)
  }

  lemma MentionedEarlier(boosts: seq<Boost>, now: int, x: int, y: int)
    requires x in RunningIds(boosts, now) && y !in RunningIds(boosts, now)
    ensures MentionedBefore(boosts, now, x, y)
  {
    RunningIdsMembers(boosts, now, x);
    RunningIdsMembers(boosts, now, y);
    var b :| b in boosts && Boosts(b, now, x);
    var k: nat :| k < |boosts| && boosts[k] == b;
    var p: nat :| p < |b.productIds| && b.productIds[p] == x;
    hide RunningIds;
    assert forall l :: 0 <= l < |boosts| ==> boosts[l] in boosts && !Boosts(boosts[l], now, y);
    assert MentionedAt(boosts, now, x, y, k, p);
  }

  lemma MentionedByLast(boosts: seq<Boost>, now: int, x: int, y: int)
    requires boosts != [] && Running(boosts[|boosts| - 1], now)
    requires y !in RunningIds(boosts[..|boosts| - 1], now)
    requires var ids := boosts[|boosts| - 1].productIds;
             x in ids && y !in ids[..FirstIndex(ids, x) + 1]
    ensures MentionedBefore(boosts, now, x, y)
  {
    var n := |boosts| - 1;
    var last, rest := boosts[n], boosts[..n];
    RunningIdsMembers(rest, now, y);
    assert forall l :: 0 <= l < n ==> rest[l] in rest && !Boosts(rest[l], now, y);
    hide RunningIds;
    assert MentionedAt(boosts, now, x, y, n, FirstIndex(last.productIds, x));
  }

  lemma MentionedByRest(boosts: seq<Boost>, now: int, x: int, y: int)
    requires boosts != [] && MentionedBefore(boosts[..|boosts| - 1], now, x, y)
    ensures MentionedBefore(boosts, now, x, y)
  {
    var k: nat, p: nat :| MentionedAt(boosts[..|boosts| - 1], now, x, y, k, p);
    assert MentionedAt(boosts, now, x, y, k, p);
  }

  /** Where the first of two elements comes first in a sequence that is continued. */
  lemma FirstOfTwo(a: seq<int>, b: seq<int>, x: int, y: int)
    requires x in a + b && y in a + b && FirstIndex(a + b, x) < FirstIndex(a + b, y)
    ensures x in a && y in a ==> FirstIndex(a, x) < FirstIndex(a, y)
    ensures x !in a ==> x in b && y !in a && y !in b[..FirstIndex(b, x) + 1]
  {
    var s := a + b;
    if x in a { FirstIndexIsLeast(s, x, FirstIndex(a, x)); }
    if y in a { FirstIndexIsLeast(s, y, FirstIndex(a, y)); }
    if x !in a {
      assert x in b;
      var p := FirstIndex(b, x);
      forall j | 0 <= j < |a| + p ensures s[j] != x {
      }
      FirstIndexIsLeast(s, x, |a| + p);
      assert forall j :: 0 <= j <= p ==> b[j] == s[|a| + j];
    }
  }

  lemma {:induction false} MentionOrder(boosts: seq<Boost>, now: int, x: int, y: int)
    requires var ids := RunningIds(boosts, now); x in ids && y in ids && FirstIndex(ids, x) < FirstIndex(ids, y)
    ensures MentionedBefore(boosts, now, x, y)
  {
    var n := |boosts| - 1;
    var before := RunningIds(boosts[..n], now);
    var more := if Running(boosts[n], now) then boosts[n].productIds else [];
    assert RunningIds(boosts, now) == before + more;
    FirstOfTwo(before, more, x, y);
    hide MentionedBefore;
    hide RunningIds;
    if x !in before {
      MentionedByLast(boosts, now, x, y);
    } else {
      if y in before { MentionOrder(boosts[..n], now, x, y); } else { MentionedEarlier(boosts[..n], now, x, y); }
      MentionedByRest(boosts, now, x, y);
    }
  }

  /** The queue is ordered by where each product is first mentioned. */
  lemma QueueInOrder(boosts: seq<Boost>, now: int, i: nat, j: nat)
    requires i < j < |Queue(boosts, now)|
    ensures MentionedBefore(boosts, now, Queue(boosts, now)[i], Queue(boosts, now)[j])
  {
    FirstOccurrencesInOrder(RunningIds(boosts, now), i, j);
    MentionOrder(boosts, now, Queue(boosts, now)[i], Queue(boosts, now)[j]);
  }

  /** `plan` holds the approved boosts of the position's active plan, `None` without such a plan. */
  method BuildQueueForPosition(plan: Option<seq<Boost>>, now: int) returns (queue: seq<int>)
    ensures plan.None? ==> queue == []
    ensures plan.Some? ==> queue == Queue(plan.value, now)
    ensures NoDup(queue)
  {
    queue := [];
    if plan.None? { return; }
    var boosts := plan.value;
    queue := CollectQueue(boosts, now);
    QueueShape(boosts, now);
  }

  method CollectQueue(boosts: seq<Boost>, now: int) returns (queue: seq<int>)
    ensures queue == Queue(boosts, now)
  {
    queue := [];
    var seenIds: set<int> := {};
    for i := 0 to |boosts|
      invariant Offered(queue, seenIds, RunningIds(boosts[..i], now))
    {
      ghost var before := RunningIds(boosts[..i], now);
      assert boosts[..i + 1][..i] == boosts[..i];
      if Running(boosts[i], now) {
        queue, seenIds := PushUnseen(queue, seenIds, boosts[i].productIds, before);
      } else {
        OfferNone(queue, seenIds, before, RunningIds(boosts[..i + 1], now));
      }
    }
    assert boosts[..|boosts|] == boosts;
  }

  /** `queue` and `seen` are what the loops hold after `pushed` has been offered. */
  ghost predicate Offered(queue: seq<int>, seen: set<int>, pushed: seq<int>) {
    queue == FirstOccurrences(pushed) && seen == Elements(queue)
  }

  lemma OfferOne(queue: seq<int>, seen: set<int>, pushed: seq<int>, id: int)
    requires Offered(queue, seen, pushed)
    ensures if id in seen then Offered(queue, seen, pushed + [id])
            else Offered(queue + [id], seen + {id}, pushed + [id])
  {
    FirstOccurrencesAppend(pushed, id);
    ElementsAppend(queue, id);
  }

  lemma OfferNone(queue: seq<int>, seen: set<int>, pushed: seq<int>, pushed': seq<int>)
    requires Offered(queue, seen, pushed) && pushed == pushed'
    ensures Offered(queue, seen, pushed')
  {
  }

  /** The inner loop over one boost's products; `before` is everything offered so far. */
  method PushUnseen(queue0: seq<int>, seen0: set<int>, ids: seq<int>, ghost before: seq<int>)
    returns (queue: seq<int>, seenIds: set<int>)
    requires Offered(queue0, seen0, before)
    ensures Offered(queue, seenIds, before + ids)
  {
    queue, seenIds := queue0, seen0;
    ghost var pushed := before;
    for j := 0 to |ids|
      invariant pushed == before + ids[..j]
      invariant Offered(queue, seenIds, pushed)
    {
      var pid := ids[j];
      OfferOne(queue, seenIds, pushed, pid);
      pushed := pushed + [pid];
      if pid !in seenIds {
        queue := queue + [pid];
        seenIds := seenIds + {pid};
      }
    }
    OfferNone(queue, seenIds, pushed, before + ids);
  }

  // ----- arithmetic of the source language -----

  /** The remainder `%`, which takes the sign of the dividend. */
  function JsRem(a: int, m: int): int
    requires m > 0
  {
    if a >= 0 then a % m else -((-a) % m)
  }

  lemma DivModUnique(x: int, m: int, q: int, r: int)
    requires m > 0 && 0 <= r < m && x == q * m + r
    ensures x / m == q && x % m == r
  {
    var d := x / m - q;
    assert d * m == r - x % m;
    assert d >= 1 ==> d * m >= m;
    assert d <= -1 ==> d * m <= -m;
  }

  lemma ModOfSum(a: int, b: int, m: int)
    requires m > 0
    ensures (a % m + b) % m == (a + b) % m
  {
    var x := a % m + b;
    DivModUnique(a + b, m, a / m + x / m, x % m);
  }

  lemma JsRemIsMod(a: int, m: int)
    requires m > 0
    ensures -m < JsRem(a, m) < m
    ensures a > 0 ==> JsRem(a, m) >= 0
    ensures a < 0 ==> JsRem(a, m) <= 0
    ensures JsRem(a, m) % m == a % m
  {
    if a < 0 {
      var r := (-a) % m;
      var q := (-a) / m;
      if r == 0 {
        DivModUnique(a, m, -q, 0);
      } else {
        DivModUnique(a, m, -q - 1, m - r);
        DivModUnique(-r, m, -1, m - r);
      }
    } else {
      DivModUnique(a % m, m, 0, a % m);
    }
  }

  /** `slice`, whose bounds are cut to the length. */
  function Slice<T>(s: seq<T>, lo: nat, hi: nat): (r: seq<T>)
    requires lo <= hi
  {
    if lo >= |s| then [] else if hi >= |s| then s[lo..] else s[lo..hi]
  }

  // ----- batches -----

  /** `Math.max(1, Math.ceil(n / b))`. */
  function Batches(n: nat, b: nat): (t: nat)
    requires b >= 1
    ensures t >= 1
  {
    if n == 0 then 1 else (n + b - 1) / b
  }

  lemma BatchesCover(n: nat, b: nat)
    requires n >= 1 && b >= 1
    ensures (Batches(n, b) - 1) * b < n <= Batches(n, b) * b
    ensures n <= b <==> Batches(n, b) == 1
  {
    var t := Batches(n, b);
    assert t * b + (n + b - 1) % b == n + b - 1;
    assert (t - 1) * b == t * b - b;
    if t >= 2 { assert t * b >= 2 * b; }
  }

  lemma MulMonotone(i: int, j: int, b: nat)
    requires 0 <= i <= j
    ensures 0 <= i * b <= j * b
  {
  }

  /** `((index % t) + t) % t`. */
  function Normalized(index: int, t: nat): (i: nat)
    requires t >= 1
    ensures i == index % t
  {
    JsRemIsMod(index, t);
    var i := JsRem(JsRem(index, t) + t, t);
    DivModUnique(JsRem(index, t) + t, t, JsRem(index, t) / t + 1, index % t);
    i
  }

  /** Where a batch starts in the queue. */
  function StartOf(n: nat, b: nat, index: int): (start: nat)
    requires b >= 1
    ensures n >= 1 ==> start < n
    ensures 1 <= n <= b ==> start == 0
  {
    if n >= 1 then
      BatchesCover(n, b);
      MulMonotone(Normalized(index, Batches(n, b)), Batches(n, b) - 1, b);
      Normalized(index, Batches(n, b)) * b
    else
      0
  }

  /** `b` ids from `start` on, continued from the front of the queue when it ends first. */
  function CutAt(queue: seq<int>, b: nat, start: nat): seq<int> {
    var ids := Slice(queue, start, start + b);
    if |ids| < b then ids + Slice(queue, 0, b - |ids|) else ids
  }

  function Batch(queue: seq<int>, b: nat, index: int): seq<int>
    requires b >= 1
  {
    FirstOccurrences(CutAt(queue, b, StartOf(|queue|, b, index)))
  }

  method BuildBatch(queue: seq<int>, b: nat, index: int) returns (uniqueIds: seq<int>)
    requires b >= 1
    ensures uniqueIds == Batch(queue, b, index)
  {
    if queue == [] {
      EmptyCut(b, StartOf(0, b, index));
      return [];
    }
    var ids := CutAt(queue, b, StartOf(|queue|, b, index));
    uniqueIds := DropRepeats(ids);
  }

  lemma EmptyCut(b: nat, start: nat)
    ensures CutAt([], b, start) == []
  {
  }

  /** The loop at the end of `buildBatch`. */
  method DropRepeats(ids: seq<int>) returns (uniqueIds: seq<int>)
    ensures uniqueIds == FirstOccurrences(ids)
  {
    uniqueIds := [];
    var seen: set<int> := {};
    for i := 0 to |ids|
      invariant Offered(uniqueIds, seen, ids[..i])
    {
      OfferOne(uniqueIds, seen, ids[..i], ids[i]);
      assert ids[..i + 1] == ids[..i] + [ids[i]];
      if ids[i] !in seen {
        seen := seen + {ids[i]};
        uniqueIds := uniqueIds + [ids[i]];
      }
    }
    assert ids[..|ids|] == ids;
  }

  /** The queue read as a ring: `b` products from `start` on. */
  function RingFrom(queue: seq<int>, b: nat, start: nat): (r: seq<int>)
    requires b <= |queue| && start < |queue|
    ensures |r| == b
  {
    seq(b, j requires 0 <= j < b =>
      if start + j < |queue| then queue[start + j] else queue[start + j - |queue|])
  }

  lemma RingIsDistinct(queue: seq<int>, b: nat, start: nat)
    requires NoDup(queue) && b <= |queue| && start < |queue|
    ensures NoDup(RingFrom(queue, b, start))
    ensures forall id :: id in RingFrom(queue, b, start) ==> id in queue
  {
  }

  lemma CutIsRing(queue: seq<int>, b: nat, start: nat)
    requires b <= |queue| && start < |queue|
    ensures CutAt(queue, b, start) == RingFrom(queue, b, start)
  {
  }

  /**
   A queue without repetitions yields, for any integer index, the whole queue when it fits and
   otherwise the `b` distinct ids from the batch's start on around the ring.
   */
  lemma BatchShape(queue: seq<int>, b: nat, index: int)
    requires b >= 1 && NoDup(queue)
    ensures |queue| <= b ==> Batch(queue, b, index) == queue
    ensures |queue| > b ==> Batch(queue, b, index) == RingFrom(queue, b, StartOf(|queue|, b, index))
    ensures |Batch(queue, b, index)| == if |queue| < b then |queue| else b
    ensures NoDup(Batch(queue, b, index))
    ensures forall id :: id in Batch(queue, b, index) ==> id in queue
  {
    var n := |queue|;
    var start := StartOf(n, b, index);
    if n <= b {
      WholeQueueFits(queue, b, start);
    } else {
      CutIsRing(queue, b, start);
      RingIsDistinct(queue, b, start);
      FirstOccurrencesOfDistinct(RingFrom(queue, b, start));
    }
  }

  lemma FirstBatch(queue: seq<int>, b: nat)
    requires b >= 1 && NoDup(queue) && queue != []
    ensures Batch(queue, b, 0) == if |queue| >= b then queue[..b] else queue
  {
    BatchShape(queue, b, 0);
    DivModUnique(0, Batches(|queue|, b), 0, 0);
    assert StartOf(|queue|, b, 0) == 0;
    hide StartOf;
    hide Batches;
    hide Batch;
  }

  lemma WholeQueueFits(queue: seq<int>, b: nat, start: nat)
    requires NoDup(queue) && |queue| <= b && (queue != [] ==> start == 0)
    ensures FirstOccurrences(CutAt(queue, b, start)) == queue
  {
    FirstOccurrencesOfDistinct(queue);
    if queue != [] {
      var rest := Slice(queue, 0, b - |queue|);
      FirstOccurrencesOfRepeats(queue, rest);
    }
  }

  lemma InRing(queue: seq<int>, b: nat, start: nat, j: nat)
    requires b <= |queue| && start <= j < |queue| && j < start + b
    ensures queue[j] in RingFrom(queue, b, start)
  {
    assert RingFrom(queue, b, start)[j - start] == queue[j];
  }

  lemma BatchOfPlace(n: nat, b: nat, j: nat)
    requires b >= 1 && j < n
    ensures j / b < Batches(n, b)
  {
    BatchesCover(n, b);
    if j / b >= Batches(n, b) {
      MulMonotone(Batches(n, b), j / b, b);
    }
  }

  lemma BatchHoldsPlace(n: nat, b: nat, j: nat, index: int)
    requires b >= 1 && j < n && index % Batches(n, b) == j / b
    ensures StartOf(n, b, index) <= j < StartOf(n, b, index) + b
  {
    assert StartOf(n, b, index) == j / b * b;
    hide StartOf;
    hide Batches;
    assert j == j / b * b + j % b;
  }

  /** The product at place `j` of the queue is in batch `j / b`. */
  lemma InItsBatch(queue: seq<int>, b: nat, j: nat, index: int)
    requires b >= 1 && NoDup(queue) && j < |queue|
    requires index % Batches(|queue|, b) == j / b
    ensures queue[j] in Batch(queue, b, index)
  {
    BatchShape(queue, b, index);
    BatchHoldsPlace(|queue|, b, j, index);
    hide Batch;
    hide StartOf;
    hide Batches;
    hide RingFrom;
    if |queue| > b { InRing(queue, b, StartOf(|queue|, b, index), j); }
  }

  // ----- fallbacks -----

  function Fresh(exclude: set<int>): int -> bool {
    id => id != 0 && id !in exclude
  }

  function Candidates(limit: nat, recents: seq<int>): seq<int> {
    Slice(recents, 0, limit * FALLBACK_FETCH_MULTIPLIER)
  }

  /** The first `limit` different fresh ids among the `4 * limit` most recent products. */
  function Fallback(exclude: set<int>, limit: nat, recents: seq<int>): (r: seq<int>)
    ensures NoDup(r) && |r| <= limit
    ensures forall id :: id in r ==> id !in exclude && id != 0 && id in recents
  {
    var kept := Filter(Candidates(limit, recents), Fresh(exclude));
    var r := Slice(FirstOccurrences(kept), 0, limit);
    FirstOccurrencesDistinct(kept);
    assert forall id :: id in r ==> id !in exclude && id != 0 && id in recents by {
      forall id | id in r ensures id !in exclude && id != 0 && id in recents {
        FirstOccurrencesMember(kept, id);
        FilterMember(Candidates(limit, recents), Fresh(exclude), id);
      }
    }
    r
  }

  /** The different ids outside `exclude` among the `4 * limit` most recent ones; 0 is no id. */
  function FreshIds(exclude: set<int>, limit: nat, recents: seq<int>): set<int> {
    set i | 0 <= i < |recents| && i < 4 * limit && recents[i] != 0 && recents[i] !in exclude :: recents[i]
  }

  /** As many fallbacks are found as there are fresh ids, up to the limit. */
  lemma FallbackCount(exclude: set<int>, limit: nat, recents: seq<int>)
    ensures |Fallback(exclude, limit, recents)| ==
            if |FreshIds(exclude, limit, recents)| < limit then |FreshIds(exclude, limit, recents)| else limit
  {
    var kept := Filter(Candidates(limit, recents), Fresh(exclude));
    FirstOccurrencesDistinct(kept);
    ElementsCount(FirstOccurrences(kept));
    forall id ensures id in Elements(FirstOccurrences(kept)) <==> id in FreshIds(exclude, limit, recents) {
      FirstOccurrencesMember(kept, id);
      FilterMember(Candidates(limit, recents), Fresh(exclude), id);
    }
    assert Elements(FirstOccurrences(kept)) == FreshIds(exclude, limit, recents);
  }

  /** The ids taken from the first `i` candidates. */
  ghost function Taken(candidates: seq<int>, i: nat, keep: int -> bool): seq<int>
    requires i <= |candidates|
  {
    FirstOccurrences(Filter(candidates[..i], keep))
  }

  lemma TakenStep(candidates: seq<int>, i: nat, keep: int -> bool)
    requires i < |candidates|
    ensures var id, ids := candidates[i], Taken(candidates, i, keep);
            Taken(candidates, i + 1, keep) == if keep(id) && id !in ids then ids + [id] else ids
  {
    assert candidates[..i + 1] == candidates[..i] + [candidates[i]];
    FilterAppend(candidates[..i], candidates[i], keep);
    FirstOccurrencesAppend(Filter(candidates[..i], keep), candidates[i]);
  }

  lemma NoneTaken(candidates: seq<int>, keep: int -> bool)
    ensures Taken(candidates, 0, keep) == []
  {
    assert candidates[..0] == [];
  }

  lemma TakenIsPrefix(candidates: seq<int>, i: nat, keep: int -> bool)
    requires i <= |candidates|
    ensures Taken(candidates, i, keep) <= FirstOccurrences(Filter(candidates, keep))
    ensures Taken(candidates, |candidates|, keep) == FirstOccurrences(Filter(candidates, keep))
  {
    hide Filter;
    hide FirstOccurrences;
    assert candidates[..|candidates|] == candidates;
    TakenGrows(candidates, candidates[..i], candidates[i..], keep);
  }

  lemma TakenGrows(whole: seq<int>, a: seq<int>, b: seq<int>, keep: int -> bool)
    requires whole == a + b
    ensures FirstOccurrences(Filter(a, keep)) <= FirstOccurrences(Filter(whole, keep))
  {
    hide Filter;
    hide FirstOccurrences;
    FilterConcat(a, b, keep);
    FirstOccurrencesGrow(Filter(a, keep), Filter(b, keep));
  }

  /** `recents` lists every product id, newest first. */
  method FetchRecentFallbackIds(exclude: set<int>, limit: int, recents: seq<int>) returns (fallbackIds: seq<int>)
    ensures limit <= 0 ==> fallbackIds == []
    ensures limit > 0 ==> fallbackIds == Fallback(exclude, limit, recents)
  {
    if limit <= 0 { return []; }
    var candidates := Candidates(limit, recents);
    fallbackIds := TakeFresh(exclude, limit, candidates);
  }

  /** The loop of `fetchRecentFallbackIds`, which stops as soon as `limit` ids are found. */
  method TakeFresh(exclude: set<int>, limit: nat, candidates: seq<int>) returns (fallbackIds: seq<int>)
    requires limit > 0
    ensures fallbackIds == Slice(FirstOccurrences(Filter(candidates, Fresh(exclude))), 0, limit)
  {
    fallbackIds := [];
    var excludeIds := exclude;
    ghost var keep := Fresh(exclude);
    NoneTaken(candidates, keep);
    hide Taken;
    hide Filter;
    hide FirstOccurrences;
    var i := 0;
    while i < |candidates|
      invariant 0 <= i <= |candidates|
      invariant fallbackIds == Taken(candidates, i, keep)
      invariant excludeIds == exclude + Elements(fallbackIds)
      invariant |fallbackIds| < limit
    {
      var productId := candidates[i];
      TakenStep(candidates, i, keep);
      i := i + 1;
      if productId == 0 { continue; }
      if productId in excludeIds { continue; }
      fallbackIds := fallbackIds + [productId];
      excludeIds := excludeIds + {productId};
      if |fallbackIds| >= limit { break; }
    }
    TakenIsPrefix(candidates, i, keep);
  }

  method IsSameQueue(a: seq<int>, b: seq<int>) returns (same: bool)
    ensures same <==> a == b
  {
    if |a| != |b| { return false; }
    var i := 0;
    while i < |a|
      invariant 0 <= i <= |a|
      invariant a[..i] == b[..i]
    {
      if a[i] != b[i] { return false; }
      i := i + 1;
    }
    same := true;
  }
}
