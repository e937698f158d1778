/** Listing the products of a position: electronics first, then queue order, cut into pages. */
module FeaturedListing {
  import opened Outcomes
  import opened Sequences
  import opened Text
  import opened FeaturedQueue

  /** A product row; a missing text is "" and a missing price 0. */
  datatype Product = Product(
    id: int,
    name: string,
    category: string,
    subCategory: string,
    sku: string,
    brand: string,
    storeId: int,
    status: bool,
    price: int)

  // ----- which products are electronics -----

  const CATEGORIES := [
    "Electronics", "electronics", "Mobile Phones", "Computers", "Laptops", "Tablets", "Cameras", "Audio",
    "Television", "Smart Watches", "Gaming", "Computer Accessories", "Phone Accessories"]

  const KEYWORDS := [
    "electronics", "phone", "computer", "laptop", "tablet", "camera", "television", "tv", "audio", "speaker",
    "headphone", "gaming", "console", "smart watch"]

  predicate MentionsCategory(p: Product, c: string) {
    Includes(Lower(p.category), Lower(c)) || Includes(Lower(p.subCategory), Lower(c))
  }

  predicate MentionsKeyword(p: Product, k: string) {
    Includes(Lower(p.name), k) || Includes(Lower(p.category), k) || Includes(Lower(p.subCategory), k)
  }

  predicate IsElectronics(p: Product) {
    (exists c | c in CATEGORIES :: MentionsCategory(p, c)) || (exists k | k in KEYWORDS :: MentionsKeyword(p, k))
  }

  ghost predicate HasKeyword(c: string) {
    exists k :: k in KEYWORDS && Includes(Lower(c), k)
  }

  lemma FindsKeyword(c: string, k: string, at: nat)
    requires k in KEYWORDS && at + |k| <= |c|
    requires forall i :: 0 <= i < |k| ==> LowerChar(c[at + i]) == k[i]
    ensures HasKeyword(c)
  {
    assert Lower(c)[at..at + |k|] == k;
    assert At(Lower(c), k, at);
  }

  lemma ElectronicsKeywords()
    ensures HasKeyword("Electronics") && HasKeyword("electronics")
  {
    hide HasKeyword;
    hide Includes;
    hide Lower;
    FindsKeyword("Electronics", "electronics", 0);
    FindsKeyword("electronics", "electronics", 0);
  }

  lemma PhoneKeywords()
    ensures HasKeyword("Mobile Phones") && HasKeyword("Phone Accessories") && HasKeyword("Smart Watches")
  {
    hide HasKeyword;
    hide Includes;
    hide Lower;
    FindsKeyword("Mobile Phones", "phone", 7);
    FindsKeyword("Phone Accessories", "phone", 0);
    FindsKeyword("Smart Watches", "smart watch", 0);
  }

  lemma ComputerKeywords()
    ensures HasKeyword("Computers") && HasKeyword("Computer Accessories")
    ensures HasKeyword("Laptops") && HasKeyword("Tablets")
  {
    hide HasKeyword;
    hide Includes;
    hide Lower;
    FindsKeyword("Computers", "computer", 0);
    FindsKeyword("Computer Accessories", "computer", 0);
    FindsKeyword("Laptops", "laptop", 0);
    FindsKeyword("Tablets", "tablet", 0);
  }

  lemma MediaKeywords()
    ensures HasKeyword("Cameras") && HasKeyword("Audio") && HasKeyword("Television") && HasKeyword("Gaming")
  {
    hide HasKeyword;
    hide Includes;
    hide Lower;
    FindsKeyword("Cameras", "camera", 0);
    FindsKeyword("Audio", "audio", 0);
    FindsKeyword("Television", "television", 0);
    FindsKeyword("Gaming", "gaming", 0);
  }

  /** Every listed category contains one of the keywords. */
  lemma CategoryHasKeyword(c: string)
    requires c in CATEGORIES
    ensures HasKeyword(c)
  {
    hide HasKeyword;
    ElectronicsKeywords();
    PhoneKeywords();
    ComputerKeywords();
    MediaKeywords();
  }

  /** The category list decides nothing: a product is electronics exactly when some keyword is mentioned. */
  lemma CategoriesAreRedundant(p: Product)
    ensures IsElectronics(p) <==> exists k :: k in KEYWORDS && MentionsKeyword(p, k)
  {
    hide Includes;
    hide Lower;
    if c :| c in CATEGORIES && MentionsCategory(p, c) {
      CategoryHasKeyword(c);
      var k :| k in KEYWORDS && Includes(Lower(c), k);
      if Includes(Lower(p.category), Lower(c)) {
        IncludesTransitive(Lower(p.category), Lower(c), k);
      } else {
        IncludesTransitive(Lower(p.subCategory), Lower(c), k);
      }
      assert MentionsKeyword(p, k);
    }
  }

  /** The words are lower-case, so folding the product's texts is enough. */
  lemma KeywordsAreLower(k: string)
    requires k in KEYWORDS
    ensures Lower(k) == k
  {
    assert forall i :: 0 <= i < |k| ==> !('A' <= k[i] <= 'Z');
  }

  /** A product is electronics exactly when its name, category or sub-category mentions one of these words. */
  lemma ElectronicsExactly(p: Product)
    ensures IsElectronics(p) <==>
              exists word, text ::
                && word in {"electronics", "phone", "computer", "laptop", "tablet", "camera", "television", "tv",
                            "audio", "speaker", "headphone", "gaming", "console", "smart watch"}
                && text in [p.name, p.category, p.subCategory] && Mentions(text, word)
  {
    CategoriesAreRedundant(p);
    hide IsElectronics;
    forall k | k in KEYWORDS ensures MentionsKeyword(p, k) <==>
      Mentions(p.name, k) || Mentions(p.category, k) || Mentions(p.subCategory, k)
    {
      KeywordsAreLower(k);
      MentionsExactly(p.name, k);
      MentionsExactly(p.category, k);
      MentionsExactly(p.subCategory, k);
    }
    hide MentionsKeyword;
    hide Mentions;
    var texts := [p.name, p.category, p.subCategory];
    assert texts[0] in texts && texts[1] in texts && texts[2] in texts;
  }

  // ----- stable sorts -----

  /** `perm` lists 0..n-1 in some order. */
  ghost predicate Permutation(perm: seq<nat>, n: nat) {
    && |perm| == n && NoDup(perm)
    && (forall k :: 0 <= k < |perm| ==> perm[k] < n)
    && (forall i: nat :: i < n ==> i in perm)
  }

  /**
   `output` is what a stable sort of `input` by `cmp` returns, `perm` telling where each element
   came from.
   */
  ghost predicate StableSort<T>(input: seq<T>, output: seq<T>, perm: seq<nat>, cmp: (T, T) -> int) {
    && Permutation(perm, |input|)
    && |output| == |input|
    && (forall k :: 0 <= k < |perm| ==> output[k] == input[perm[k]])
    && (forall k, l :: 0 <= k < l < |perm| ==>
          cmp(output[k], output[l]) < 0 || (cmp(output[k], output[l]) == 0 && perm[k] < perm[l]))
  }

  /** The comparator that puts elements with `first` before the others. */
  function FirstBefore<T>(first: T -> bool): (T, T) -> int {
    (a, b) => if first(a) && !first(b) then -1 else if !first(a) && first(b) then 1 else 0
  }

  function Not<T>(p: T -> bool): T -> bool {
    x => !p(x)
  }

  /** The places of `s` where `p` holds, in order. */
  function Places<T>(s: seq<T>, p: T -> bool): seq<nat> {
    if s == [] then []
    else if p(s[|s| - 1]) then Places(s[..|s| - 1], p) + [|s| - 1]
    else Places(s[..|s| - 1], p)
  }

  lemma {:induction false} PlacesAscend<T>(s: seq<T>, p: T -> bool)
    ensures Increasing(Places(s, p))
    ensures forall k :: 0 <= k < |Places(s, p)| ==> Places(s, p)[k] < |s|
  {
    if s != [] {
      PlacesAscend(s[..|s| - 1], p);
    }
  }

  lemma {:induction false} PlacesMember<T>(s: seq<T>, p: T -> bool, i: nat)
    ensures i in Places(s, p) <==> i < |s| && p(s[i])
  {
    if s != [] {
      PlacesMember(s[..|s| - 1], p, i);
    }
  }

  lemma {:induction false} PlacesPick<T>(s: seq<T>, p: T -> bool)
    ensures |Filter(s, p)| == |Places(s, p)|
    ensures forall k :: 0 <= k < |Places(s, p)| ==> Places(s, p)[k] < |s| && Filter(s, p)[k] == s[Places(s, p)[k]]
  {
    if s != [] {
      var n := |s| - 1;
      PlacesPick(s[..n], p);
      assert forall i :: 0 <= i < n ==> s[..n][i] == s[i];
    }
  }

  lemma PlacesAre<T>(s: seq<T>, p: T -> bool)
    ensures Increasing(Places(s, p))
    ensures forall i: nat :: i in Places(s, p) <==> i < |s| && p(s[i])
    ensures |Filter(s, p)| == |Places(s, p)|
    ensures forall k :: 0 <= k < |Places(s, p)| ==> Places(s, p)[k] < |s| && Filter(s, p)[k] == s[Places(s, p)[k]]
  {
    PlacesAscend(s, p);
    PlacesPick(s, p);
    forall i: nat ensures i in Places(s, p) <==> i < |s| && p(s[i]) {
      PlacesMember(s, p, i);
    }
    hide Places;
    hide Filter;
  }

  /** Where element `i` goes: elements with `first` keep their place, the others follow behind all. */
  function Rank<T>(s: seq<T>, first: T -> bool, i: nat): int
    requires i < |s|
  {
    if first(s[i]) then i else |s| + i
  }

  function Ranks<T>(s: seq<T>, first: T -> bool, perm: seq<nat>): (r: seq<int>)
    requires forall k :: 0 <= k < |perm| ==> perm[k] < |s|
    ensures |r| == |perm|
    ensures forall k :: 0 <= k < |r| ==> r[k] == Rank(s, first, perm[k])
  {
    seq(|perm|, k requires 0 <= k < |perm| => Rank(s, first, perm[k]))
  }

  /** Two enumerations of the same places by increasing rank are the same. */
  lemma SameByRank<T>(s: seq<T>, first: T -> bool, a: seq<nat>, b: seq<nat>)
    requires forall i: nat :: i in a <==> i < |s|
    requires forall i: nat :: i in b <==> i < |s|
    requires (forall k :: 0 <= k < |a| ==> a[k] < |s|) && Increasing(Ranks(s, first, a))
    requires (forall k :: 0 <= k < |b| ==> b[k] < |s|) && Increasing(Ranks(s, first, b))
    ensures a == b
  {
    var ra, rb := Ranks(s, first, a), Ranks(s, first, b);
    forall x | x in ra ensures x in rb {
      var k :| 0 <= k < |ra| && ra[k] == x;
      assert a[k] in b;
      var l :| 0 <= l < |b| && b[l] == a[k];
      assert rb[l] == x;
    }
    forall x | x in rb ensures x in ra {
      var k :| 0 <= k < |rb| && rb[k] == x;
      assert b[k] in a;
      var l :| 0 <= l < |a| && a[l] == b[k];
      assert ra[l] == x;
    }
    IncreasingIsUnique(ra, rb);
    forall k | 0 <= k < |a| ensures a[k] == b[k] {
      assert ra[k] == rb[k];
    }
  }

  /** The places with `first`, then the others. */
  function Partition<T>(s: seq<T>, first: T -> bool): seq<nat> {
    Places(s, first) + Places(s, Not(first))
  }

  lemma PartitionRanks<T>(s: seq<T>, first: T -> bool)
    ensures forall i: nat :: i in Partition(s, first) <==> i < |s|
    ensures forall k :: 0 <= k < |Partition(s, first)| ==> Partition(s, first)[k] < |s|
    ensures Increasing(Ranks(s, first, Partition(s, first)))
  {
    PlacesAre(s, first);
    PlacesAre(s, Not(first));
    var f, r := Places(s, first), Places(s, Not(first));
    assert forall k :: 0 <= k < |f| ==> f[k] in f;
    assert forall k :: 0 <= k < |r| ==> r[k] in r;
  }

  lemma SortedByRank<T>(input: seq<T>, output: seq<T>, perm: seq<nat>, first: T -> bool)
    requires StableSort(input, output, perm, FirstBefore(first))
    ensures forall i: nat :: i in perm <==> i < |input|
    ensures Increasing(Ranks(input, first, perm))
  {
    assert forall k :: 0 <= k < |perm| ==> perm[k] in perm;
    forall k, l | 0 <= k < l < |perm| ensures Rank(input, first, perm[k]) < Rank(input, first, perm[l]) {
      assert FirstBefore(first)(output[k], output[l]) <= 0;
    }
  }

  lemma PartitionPicks<T>(s: seq<T>, first: T -> bool)
    ensures var sorted := Filter(s, first) + Filter(s, Not(first));
            && |sorted| == |Partition(s, first)|
            && forall k :: 0 <= k < |sorted| ==> Partition(s, first)[k] < |s| && sorted[k] == s[Partition(s, first)[k]]
  {
    PlacesAre(s, first);
    PlacesAre(s, Not(first));
    hide Places;
    hide Filter;
    hide Increasing;
    hide Not;
  }

  /** A sort that puts `first` first and is stable has only one possible outcome. */
  lemma StableSortIsPartition<T>(input: seq<T>, output: seq<T>, perm: seq<nat>, first: T -> bool)
    requires StableSort(input, output, perm, FirstBefore(first))
    ensures output == Filter(input, first) + Filter(input, Not(first))
  {
    SortedByRank(input, output, perm, first);
    PartitionRanks(input, first);
    PartitionPicks(input, first);
    hide Filter;
    hide Partition;
    hide Ranks;
    hide Increasing;
    hide Not;
    hide FirstBefore;
    SameByRank(input, first, perm, Partition(input, first));
  }

  /** And that outcome is a stable sort. */
  lemma PartitionIsStableSort<T>(input: seq<T>, first: T -> bool)
    ensures var sorted := Filter(input, first) + Filter(input, Not(first));
            StableSort(input, sorted, Partition(input, first), FirstBefore(first))
  {
    PlacesAre(input, first);
    PlacesAre(input, Not(first));
    PartitionRanks(input, first);
    var perm := Partition(input, first);
    var ranks := Ranks(input, first, perm);
    forall k, l | 0 <= k < l < |perm| ensures perm[k] != perm[l] {
      assert ranks[k] < ranks[l];
    }
    PartitionLength(input, first);
    forall k, l | 0 <= k < l < |perm| ensures
      var cmp := FirstBefore(first)(input[perm[k]], input[perm[l]]);
      cmp < 0 || (cmp == 0 && perm[k] < perm[l])
    {
      assert ranks[k] < ranks[l];
    }
  }

  lemma {:induction false} PartitionLength<T>(s: seq<T>, first: T -> bool)
    ensures |Partition(s, first)| == |s|
  {
    if s != [] { PartitionLength(s[..|s| - 1], first); }
  }

  function Electronic(): Product -> bool {
    p => IsElectronics(p)
  }

  /**
   `sortByElectronicsFirst`: whatever stable sort runs, the result is the electronics in their
   order followed by the rest in theirs.
   */
  lemma ElectronicsFirst(products: seq<Product>, sorted: seq<Product>)
    ensures (exists perm :: StableSort(products, sorted, perm, FirstBefore(Electronic())))
            <==> sorted == Filter(products, Electronic()) + Filter(products, Not(Electronic()))
  {
    PartitionIsStableSort(products, Electronic());
    if perm :| StableSort(products, sorted, perm, FirstBefore(Electronic())) {
      StableSortIsPartition(products, sorted, perm, Electronic());
    }
  }

  // ----- the listing of a position -----

  datatype Query = Query(
    electronicsOnly: bool,
    category: string,
    storeId: int,
    status: Option<int>,
    minPrice: Option<int>,
    maxPrice: Option<int>,
    search: string)

  /** The filter of the listing; an empty text or a zero store id does not filter. */
  predicate Passes(p: Product, q: Query) {
    && (q.electronicsOnly ==> IsElectronics(p))
    && (q.category != "" ==> Includes(Lower(p.category), Lower(q.category)))
    && (q.storeId != 0 ==> p.storeId == q.storeId)
    && (q.status.Some? ==> p.status == (q.status.value == 1))
    && (q.minPrice.Some? ==> p.price >= q.minPrice.value)
    && (q.maxPrice.Some? ==> p.price <= q.maxPrice.value)
    && (q.search != "" ==>
          || Includes(Lower(p.name), Lower(q.search))
          || Includes(Lower(p.sku), Lower(q.search))
          || Includes(Lower(p.brand), Lower(q.search)))
  }

  /**
   What each part of a query asks of a product, texts in whatever case: the category is mentioned in
   the product's, the search in its name, its SKU or its brand.
   */
  lemma PassesExactly(p: Product, q: Query)
    ensures Passes(p, q) <==>
              && (q.electronicsOnly ==> IsElectronics(p))
              && (q.category == "" || Mentions(p.category, q.category))
              && (q.storeId == 0 || q.storeId == p.storeId)
              && (match q.status case Some(status) => (if p.status then status == 1 else status != 1) case None => true)
              && (match q.minPrice case Some(price) => price <= p.price case None => true)
              && (match q.maxPrice case Some(price) => p.price <= price case None => true)
              && (q.search == "" || exists text :: text in [p.name, p.sku, p.brand] && Mentions(text, q.search))
  {
    MentionsExactly(p.category, q.category);
    MentionsExactly(p.name, q.search);
    MentionsExactly(p.sku, q.search);
    MentionsExactly(p.brand, q.search);
    hide IsElectronics;
    hide Mentions;
    hide Includes;
    hide Lower;
    var texts := [p.name, p.sku, p.brand];
    assert texts[0] in texts && texts[1] in texts && texts[2] in texts;
  }

  function Passing(q: Query): Product -> bool {
    p => Passes(p, q)
  }

  /** The comparator of the listing: electronics first, then the place in the queue. */
  function ListingOrder(queue: seq<int>, first: Product -> bool): (Product, Product) -> int {
    (a, b) =>
      if first(a) && !first(b) then -1
      else if !first(a) && first(b) then 1
      else QueuePlace(queue, a) - QueuePlace(queue, b)
  }

  /** A product outside the queue comes after all others. */
  function QueuePlace(queue: seq<int>, p: Product): nat {
    if p.id in queue then FirstIndex(queue, p.id) else |queue|
  }

  function RowOf(rows: seq<Product>, id: int): (r: Option<Product>)
    ensures r.Some? ==> r.value in rows && r.value.id == id
    ensures r.None? ==> forall p :: p in rows ==> p.id != id
  {
    if rows == [] then None else if rows[0].id == id then Some(rows[0]) else RowOf(rows[1..], id)
  }

  /** The rows with `p`, in queue order. */
  function InQueueOrder(queue: seq<int>, rows: seq<Product>, p: Product -> bool): seq<Product> {
    if queue == [] then []
    else
      var rest, row := InQueueOrder(queue[..|queue| - 1], rows, p), RowOf(rows, queue[|queue| - 1]);
      if row.Some? && p(row.value) then rest + [row.value] else rest
  }

  /** The rows found for a queue: distinct products, all of them queued. */
  ghost predicate Found(queue: seq<int>, rows: seq<Product>) {
    && (forall i, j :: 0 <= i < j < |rows| ==> rows[i].id != rows[j].id)
    && (forall r :: r in rows ==> r.id in queue)
  }

  lemma {:induction false} InQueueOrderMember(queue: seq<int>, rows: seq<Product>, p: Product -> bool, x: Product)
    requires forall i, j :: 0 <= i < j < |rows| ==> rows[i].id != rows[j].id
    ensures x in InQueueOrder(queue, rows, p) <==> x in rows && x.id in queue && p(x)
  {
    if queue != [] {
      var n := |queue| - 1;
      InQueueOrderMember(queue[..n], rows, p, x);
      assert queue == queue[..n] + [queue[n]];
      var row := RowOf(rows, queue[n]);
      if x in rows && x.id == queue[n] {
        var i :| 0 <= i < |rows| && rows[i] == x;
        var j :| 0 <= j < |rows| && rows[j] == row.value;
        assert i == j;
      }
    }
  }

  ghost predicate Ascends(queue: seq<int>, r: seq<Product>) {
    forall i, j :: 0 <= i < j < |r| ==> QueuePlace(queue, r[i]) < QueuePlace(queue, r[j])
  }

  lemma {:induction false} InQueueOrderQueued(queue: seq<int>, rows: seq<Product>, p: Product -> bool)
    ensures forall x :: x in InQueueOrder(queue, rows, p) ==> x.id in queue
  {
    if queue != [] {
      var n := |queue| - 1;
      InQueueOrderQueued(queue[..n], rows, p);
      assert queue == queue[..n] + [queue[n]];
    }
  }

  lemma AscendsOneMore(whole: seq<int>, r: seq<Product>, x: Product)
    requires Ascends(whole, r) && forall i :: 0 <= i < |r| ==> QueuePlace(whole, r[i]) < QueuePlace(whole, x)
    ensures Ascends(whole, r + [x])
  {
    hide QueuePlace;
  }

  lemma {:induction false} InQueueOrderAscends(queue: seq<int>, rows: seq<Product>, p: Product -> bool, whole: seq<int>)
    requires NoDup(whole) && queue <= whole
    ensures Ascends(whole, InQueueOrder(queue, rows, p))
  {
    if queue != [] {
      var n := |queue| - 1;
      InQueueOrderAscends(queue[..n], rows, p, whole);
      InQueueOrderQueued(queue[..n], rows, p);
      var rest, row := InQueueOrder(queue[..n], rows, p), RowOf(rows, queue[n]);
      if row.Some? && p(row.value) {
        FirstIndexIsLeast(whole, queue[n], n);
        assert QueuePlace(whole, row.value) == n;
        hide QueuePlace;
        hide InQueueOrder;
        forall i | 0 <= i < |rest| ensures QueuePlace(whole, rest[i]) < n {
          assert rest[i] in rest;
          PlaceOfQueued(queue, whole, n, rest[i]);
        }
        AscendsOneMore(whole, rest, row.value);
      }
    }
  }

  lemma PlaceOfQueued(queue: seq<int>, whole: seq<int>, n: nat, x: Product)
    requires NoDup(whole) && queue <= whole && n <= |queue| && x.id in queue[..n]
    ensures QueuePlace(whole, x) < n
  {
    var k :| 0 <= k < n && queue[k] == x.id;
    FirstIndexIsLeast(whole, x.id, k);
  }

  function ListRank(queue: seq<int>, first: Product -> bool, p: Product): int {
    QueuePlace(queue, p) + if first(p) then 0 else |queue| + 1
  }

  function ListRanks(queue: seq<int>, first: Product -> bool, s: seq<Product>): (r: seq<int>)
    ensures |r| == |s| && forall k :: 0 <= k < |r| ==> r[k] == ListRank(queue, first, s[k])
  {
    seq(|s|, k requires 0 <= k < |s| => ListRank(queue, first, s[k]))
  }

  /** Queued products of equal rank have the same id. */
  lemma RankDecides(queue: seq<int>, first: Product -> bool, a: Product, b: Product)
    requires a.id in queue && b.id in queue && ListRank(queue, first, a) == ListRank(queue, first, b)
    ensures a.id == b.id
  {
    assert queue[FirstIndex(queue, a.id)] == a.id && queue[FirstIndex(queue, b.id)] == b.id;
  }

  lemma SortedRanksIncrease(
      queue: seq<int>, rows: seq<Product>, sorted: seq<Product>, perm: seq<nat>, first: Product -> bool)
    requires Found(queue, rows) && StableSort(rows, sorted, perm, ListingOrder(queue, first))
    ensures Increasing(ListRanks(queue, first, sorted))
  {
    assert forall k :: 0 <= k < |perm| ==> perm[k] in perm;
    forall k, l | 0 <= k < l < |sorted|
      ensures ListRank(queue, first, sorted[k]) < ListRank(queue, first, sorted[l])
    {
      assert sorted[k] == rows[perm[k]] && sorted[l] == rows[perm[l]];
      assert sorted[k] in rows && sorted[l] in rows;
      assert ListingOrder(queue, first)(sorted[k], sorted[l]) <= 0;
      assert perm[k] != perm[l];
      assert sorted[k].id != sorted[l].id;
      if ListRank(queue, first, sorted[k]) == ListRank(queue, first, sorted[l]) {
        RankDecides(queue, first, sorted[k], sorted[l]);
      }
    }
  }

  /**
   However the database orders its rows, the sorted listing is the electronics in queue order
   followed by the others in queue order.
   */
  lemma ListingIsDetermined(
      queue: seq<int>, rows: seq<Product>, sorted: seq<Product>, perm: seq<nat>, first: Product -> bool)
    requires NoDup(queue) && Found(queue, rows)
    requires StableSort(rows, sorted, perm, ListingOrder(queue, first))
    ensures sorted == InQueueOrder(queue, rows, first) + InQueueOrder(queue, rows, Not(first))
  {
    hide InQueueOrder;
    hide QueuePlace;
    var f, g := InQueueOrder(queue, rows, first), InQueueOrder(queue, rows, Not(first));
    SortedRanksIncrease(queue, rows, sorted, perm, first);
    ArrangedRanksIncrease(queue, rows, first);
    forall x ensures x in sorted <==> x in f + g {
      ArrangedMember(queue, rows, first, x);
      SortKeepsElements(rows, sorted, perm, ListingOrder(queue, first), x);
    }
    forall x | x in sorted ensures x in rows {
      SortKeepsElements(rows, sorted, perm, ListingOrder(queue, first), x);
    }
    SameListByRank(queue, rows, first, sorted, f + g);
  }

  lemma ArrangedMember(queue: seq<int>, rows: seq<Product>, first: Product -> bool, x: Product)
    requires Found(queue, rows)
    ensures x in InQueueOrder(queue, rows, first) + InQueueOrder(queue, rows, Not(first)) <==> x in rows
  {
    InQueueOrderMember(queue, rows, first, x);
    InQueueOrderMember(queue, rows, Not(first), x);
  }

  lemma ArrangedRanksIncrease(queue: seq<int>, rows: seq<Product>, first: Product -> bool)
    requires NoDup(queue) && Found(queue, rows)
    ensures var arranged := InQueueOrder(queue, rows, first) + InQueueOrder(queue, rows, Not(first));
            Increasing(ListRanks(queue, first, arranged))
  {
    var f, g := InQueueOrder(queue, rows, first), InQueueOrder(queue, rows, Not(first));
    InQueueOrderAscends(queue, rows, first, queue);
    InQueueOrderAscends(queue, rows, Not(first), queue);
    MembersSplit(queue, rows, first, f, g);
    hide InQueueOrder;
    forall i, j | 0 <= i < j < |f + g| ensures ListRank(queue, first, (f + g)[i]) < ListRank(queue, first, (f + g)[j]) {
      if j < |f| {
      } else if i < |f| {
      } else {
        assert QueuePlace(queue, g[i - |f|]) < QueuePlace(queue, g[j - |f|]);
      }
    }
  }

  lemma MembersSplit(queue: seq<int>, rows: seq<Product>, first: Product -> bool, f: seq<Product>, g: seq<Product>)
    requires Found(queue, rows)
    requires f == InQueueOrder(queue, rows, first) && g == InQueueOrder(queue, rows, Not(first))
    ensures forall k :: 0 <= k < |f| ==> first(f[k]) && f[k].id in queue
    ensures forall k :: 0 <= k < |g| ==> !first(g[k]) && g[k].id in queue
  {
    forall k | 0 <= k < |f| ensures first(f[k]) && f[k].id in queue {
      InQueueOrderMember(queue, rows, first, f[k]);
    }
    forall k | 0 <= k < |g| ensures !first(g[k]) && g[k].id in queue {
      InQueueOrderMember(queue, rows, Not(first), g[k]);
    }
  }

  lemma SortKeepsElements<T>(input: seq<T>, output: seq<T>, perm: seq<nat>, cmp: (T, T) -> int, x: T)
    requires StableSort(input, output, perm, cmp)
    ensures x in output <==> x in input
  {
    if x in input {
      var i: nat :| i < |input| && input[i] == x;
      assert i in perm;
      var k :| 0 <= k < |perm| && perm[k] == i;
      assert output[k] == x;
    }
    if x in output {
      var k :| 0 <= k < |output| && output[k] == x;
      assert perm[k] in perm;
    }
  }

  lemma SameListByRank(queue: seq<int>, rows: seq<Product>, first: Product -> bool, a: seq<Product>, b: seq<Product>)
    requires Found(queue, rows)
    requires forall x :: x in a ==> x in rows
    requires forall x :: x in a <==> x in b
    requires Increasing(ListRanks(queue, first, a)) && Increasing(ListRanks(queue, first, b))
    ensures a == b
  {
    var ra, rb := ListRanks(queue, first, a), ListRanks(queue, first, b);
    forall x | x in ra ensures x in rb {
      var k :| 0 <= k < |ra| && ra[k] == x;
      assert a[k] in b;
      var l :| 0 <= l < |b| && b[l] == a[k];
      assert rb[l] == x;
    }
    forall x | x in rb ensures x in ra {
      var k :| 0 <= k < |rb| && rb[k] == x;
      assert b[k] in a;
      var l :| 0 <= l < |a| && a[l] == b[k];
      assert ra[l] == x;
    }
    IncreasingIsUnique(ra, rb);
    forall k | 0 <= k < |a| ensures a[k] == b[k] {
      assert ra[k] == rb[k];
      assert a[k] in a && b[k] in b;
      RankDecides(queue, first, a[k], b[k]);
      var i :| 0 <= i < |rows| && rows[i] == a[k];
      var j :| 0 <= j < |rows| && rows[j] == b[k];
      assert i == j;
    }
  }

  // ----- pages -----

  /** The primary products of page `page`, counted from 1. */
  function PageOf<T>(list: seq<T>, page: nat, take: nat): seq<T>
    requires page >= 1
  {
    var start := (page - 1) * take;
    Slice(list, start, start + take)
  }

  function FirstPages<T>(list: seq<T>, pages: nat, take: nat): seq<T> {
    if pages == 0 then [] else FirstPages(list, pages - 1, take) + PageOf(list, pages, take)
  }

  lemma SlicesJoin<T>(list: seq<T>, start: nat, take: nat)
    ensures Slice(list, 0, start) + Slice(list, start, start + take) == Slice(list, 0, start + take)
  {
  }

  /** Pages laid end to end are a prefix of the list, and the whole list once they are enough. */
  lemma {:induction false} PagesCover<T>(list: seq<T>, pages: nat, take: nat)
    ensures FirstPages(list, pages, take) == Slice(list, 0, pages * take)
    ensures pages * take >= |list| ==> FirstPages(list, pages, take) == list
  {
    if pages > 0 {
      PagesCover(list, pages - 1, take);
      var start := (pages - 1) * take;
      SlicesJoin(list, start, take);
      assert pages * take == start + take;
    }
  }

  /**
   The pages of a position's listing, laid end to end, hold exactly the rows that pass the query,
   each once: electronics in queue order, then the others in queue order.
   */
  lemma PagesListEveryProductOnce(
      queue: seq<int>, rows: seq<Product>, query: Query, sorted: seq<Product>, perm: seq<nat>, pages: nat, take: nat)
    requires NoDup(queue) && Found(queue, rows)
    requires StableSort(Filter(rows, Passing(query)), sorted, perm, ListingOrder(queue, Electronic()))
    requires pages * take >= |sorted|
    ensures var all := FirstPages(sorted, pages, take);
            var passing := Filter(rows, Passing(query));
            && all == InQueueOrder(queue, passing, Electronic()) + InQueueOrder(queue, passing, Not(Electronic()))
            && NoDup(all)
            && forall p :: p in all <==> p in rows && Passes(p, query)
  {
    var passing := Filter(rows, Passing(query));
    FilterKeepsFound(queue, rows, Passing(query));
    ListingIsDetermined(queue, passing, sorted, perm, Electronic());
    PagesCover(sorted, pages, take);
    forall p ensures p in sorted <==> p in rows && Passes(p, query) {
      SortKeepsElements(passing, sorted, perm, ListingOrder(queue, Electronic()), p);
      FilterMember(rows, Passing(query), p);
    }
    SortedRanksIncrease(queue, passing, sorted, perm, Electronic());
    forall i, j | 0 <= i < j < |sorted| ensures sorted[i] != sorted[j] {
      assert ListRanks(queue, Electronic(), sorted)[i] < ListRanks(queue, Electronic(), sorted)[j];
    }
  }

  lemma {:induction false} FilterKeepsFound(queue: seq<int>, rows: seq<Product>, p: Product -> bool)
    requires Found(queue, rows)
    ensures Found(queue, Filter(rows, p))
  {
    if rows != [] {
      var n := |rows| - 1;
      FilterKeepsFound(queue, rows[..n], p);
      var rest := Filter(rows[..n], p);
      assert rows == rows[..n] + [rows[n]];
      forall i | 0 <= i < |rest| ensures rest[i].id != rows[n].id {
        FilterMember(rows[..n], p, rest[i]);
        assert rest[i] in rest;
        var k :| 0 <= k < n && rows[k] == rest[i];
      }
    }
  }

  // ----- the whole first page -----

  function IdsOf(products: seq<Product>): set<int> {
    set p | p in products :: p.id
  }

  /** The ids fetched to fill a first page that is short of products, anywhere but at position 1. */
  function PageFallbackIds(
      queue: seq<int>, primary: seq<Product>, position: int, page: nat, take: nat, recents: seq<int>): (r: seq<int>)
    ensures NoDup(r) && |primary| + |r| <= if |primary| < take then take else |primary|
    ensures forall id :: id in r ==> id !in Elements(queue) && id !in IdsOf(primary)
  {
    if queue != [] && position != 1 && page == 1 && |primary| < take
    then Fallback(Elements(queue) + IdsOf(primary), take - |primary|, recents)
    else []
  }

  function Any(): Product -> bool {
    p => true
  }

  /** Their rows, as far as there are any, that pass the query. */
  function PageFallbacks(ids: seq<int>, table: seq<Product>, query: Query): seq<Product> {
    Filter(InQueueOrder(ids, table, Any()), Passing(query))
  }

  ghost predicate DistinctProducts(products: seq<Product>) {
    forall i, j :: 0 <= i < j < |products| ==> products[i].id != products[j].id
  }

  lemma SortKeepsDistinct(input: seq<Product>, output: seq<Product>, perm: seq<nat>, cmp: (Product, Product) -> int)
    requires StableSort(input, output, perm, cmp) && DistinctProducts(input)
    ensures DistinctProducts(output)
  {
    forall i, j | 0 <= i < j < |output| ensures output[i].id != output[j].id {
      assert perm[i] in perm && perm[j] in perm && perm[i] != perm[j];
      assert perm[i] < perm[j] || perm[j] < perm[i];
      assert output[i] == input[perm[i]] && output[j] == input[perm[j]];
    }
  }

  lemma {:induction false} InQueueOrderShort(queue: seq<int>, rows: seq<Product>, p: Product -> bool)
    ensures |InQueueOrder(queue, rows, p)| <= |queue|
  {
    if queue != [] {
      InQueueOrderShort(queue[..|queue| - 1], rows, p);
    }
  }

  lemma FallbacksAre(ids: seq<int>, table: seq<Product>, query: Query)
    requires NoDup(ids)
    ensures DistinctProducts(PageFallbacks(ids, table, query)) && |PageFallbacks(ids, table, query)| <= |ids|
    ensures forall p :: p in PageFallbacks(ids, table, query) ==> p.id in ids && Passes(p, query)
  {
    var details := InQueueOrder(ids, table, Any());
    InQueueOrderAscends(ids, table, Any(), ids);
    InQueueOrderQueued(ids, table, Any());
    InQueueOrderShort(ids, table, Any());
    forall i, j | 0 <= i < j < |details| ensures details[i].id != details[j].id {
      assert QueuePlace(ids, details[i]) < QueuePlace(ids, details[j]);
    }
    FilterKeepsFound(ids, details, Passing(query));
    forall p | p in PageFallbacks(ids, table, query) ensures p.id in ids && Passes(p, query) {
      FilterMember(details, Passing(query), p);
    }
    hide InQueueOrder;
  }

  /** What a page answers: its share of the sorted listing, and the sorted fallbacks. */
  ghost predicate Answers(
      queue: seq<int>, rows: seq<Product>, table: seq<Product>, query: Query, position: int, page: nat, take: nat,
      recents: seq<int>, primary: seq<Product>, extra: seq<Product>)
    requires page >= 1
  {
    exists sorted, perm, perm' ::
      && StableSort(Filter(rows, Passing(query)), sorted, perm, ListingOrder(queue, Electronic()))
      && primary == PageOf(sorted, page, take)
      && StableSort(PageFallbacks(PageFallbackIds(queue, primary, position, page, take, recents), table, query),
                    extra, perm', FirstBefore(Electronic()))
  }

  lemma SortedIs(queue: seq<int>, rows: seq<Product>, query: Query, sorted: seq<Product>, perm: seq<nat>)
    requires Found(queue, rows)
    requires StableSort(Filter(rows, Passing(query)), sorted, perm, ListingOrder(queue, Electronic()))
    ensures DistinctProducts(sorted) && forall p :: p in sorted ==> p.id in queue && Passes(p, query)
  {
    var passing := Filter(rows, Passing(query));
    FilterKeepsFound(queue, rows, Passing(query));
    SortKeepsDistinct(passing, sorted, perm, ListingOrder(queue, Electronic()));
    hide StableSort;
    hide Passes;
    forall p | p in sorted ensures p.id in queue && Passes(p, query) {
      SortKeepsElements(passing, sorted, perm, ListingOrder(queue, Electronic()), p);
      FilterMember(rows, Passing(query), p);
    }
  }

  lemma PageKeepsDistinct(list: seq<Product>, page: nat, take: nat)
    requires DistinctProducts(list) && page >= 1
    ensures DistinctProducts(PageOf(list, page, take)) && |PageOf(list, page, take)| <= take
    ensures forall p :: p in PageOf(list, page, take) ==> p in list
  {
  }

  lemma PrimaryIs(
      queue: seq<int>, rows: seq<Product>, query: Query, sorted: seq<Product>, perm: seq<nat>, page: nat, take: nat)
    requires Found(queue, rows) && page >= 1
    requires StableSort(Filter(rows, Passing(query)), sorted, perm, ListingOrder(queue, Electronic()))
    ensures var primary := PageOf(sorted, page, take);
            && DistinctProducts(primary) && |primary| <= take
            && forall p :: p in primary ==> p.id in queue && Passes(p, query)
  {
    hide *;
    SortedIs(queue, rows, query, sorted, perm);
    PageKeepsDistinct(sorted, page, take);
  }

  /**
   A whole answer, fallbacks included, holds no product twice, no more than `take`, and only products
   that pass the query; and its fallbacks are outside the queue, so on no page's share of the listing.
   */
  lemma AnswerHasNoRepeats(
      queue: seq<int>, rows: seq<Product>, table: seq<Product>, query: Query, position: int, page: nat, take: nat,
      recents: seq<int>, primary: seq<Product>, extra: seq<Product>)
    requires Found(queue, rows) && page >= 1
    requires Answers(queue, rows, table, query, position, page, take, recents, primary, extra)
    ensures DistinctProducts(primary + extra) && |primary + extra| <= take
    ensures forall p :: p in primary + extra ==> Passes(p, query)
    ensures forall p :: p in extra ==> p.id !in queue
    ensures queue == [] || position == 1 || page > 1 || |primary| >= take ==> extra == []
  {
    var ids := PageFallbackIds(queue, primary, position, page, take, recents);
    var fallbacks := PageFallbacks(ids, table, query);
    var sorted, perm, perm' :|
      && StableSort(Filter(rows, Passing(query)), sorted, perm, ListingOrder(queue, Electronic()))
      && primary == PageOf(sorted, page, take)
      && StableSort(fallbacks, extra, perm', FirstBefore(Electronic()));
    PrimaryIs(queue, rows, query, sorted, perm, page, take);
    FallbacksAre(ids, table, query);
    SortKeepsDistinct(fallbacks, extra, perm', FirstBefore(Electronic()));
    forall p | p in extra ensures p.id in ids && Passes(p, query) {
      SortKeepsElements(fallbacks, extra, perm', FirstBefore(Electronic()), p);
    }
    assert |extra| == |fallbacks|;
    hide StableSort;
    hide PageFallbackIds;
    hide PageFallbacks;
    hide PageOf;
    hide Passes;
    hide Filter;
    var all := primary + extra;
    forall i, j | 0 <= i < j < |all| ensures all[i].id != all[j].id {
      if i < |primary| <= j {
        assert primary[i] in primary && extra[j - |primary|] in extra;
        assert primary[i].id in IdsOf(primary);
      }
    }
  }

  // ----- how far a short first page is filled -----

  /** Every product listed as recent has its row, and that row passes the query. */
  ghost predicate AllPass(table: seq<Product>, query: Query, recents: seq<int>) {
    && DistinctProducts(table)
    && (forall id :: id in recents ==> exists p :: p in table && p.id == id)
    && (forall p :: p in table && p.id in recents ==> Passes(p, query))
  }

  lemma {:induction false} AllRowsFound(ids: seq<int>, table: seq<Product>)
    requires forall id :: id in ids ==> exists p :: p in table && p.id == id
    ensures |InQueueOrder(ids, table, Any())| == |ids|
  {
    if ids != [] {
      var n := |ids| - 1;
      assert ids[n] in ids && forall id :: id in ids[..n] ==> id in ids;
      AllRowsFound(ids[..n], table);
    }
  }

  lemma AllFallbacksKept(ids: seq<int>, table: seq<Product>, query: Query, recents: seq<int>)
    requires AllPass(table, query, recents) && forall id :: id in ids ==> id in recents
    ensures |PageFallbacks(ids, table, query)| == |ids|
  {
    var details := InQueueOrder(ids, table, Any());
    AllRowsFound(ids, table);
    hide Passes;
    forall k | 0 <= k < |details| ensures Passes(details[k], query) {
      assert details[k] in details;
      InQueueOrderMember(ids, table, Any(), details[k]);
    }
    hide InQueueOrder;
    FilterKeepsAll(details, Passing(query));
  }

  /**
   Anywhere but at position 1 a first page that is short of queued products asks for as many other
   recent ones as there are among four times the products missing, and shows those that pass. So where
   all of them pass the page holds `take` products, or all of those.
   */
  lemma FirstPageFilled(
      queue: seq<int>, rows: seq<Product>, table: seq<Product>, query: Query, position: int, take: nat,
      recents: seq<int>, primary: seq<Product>, extra: seq<Product>)
    requires queue != [] && position != 1 && |primary| < take && DistinctProducts(table)
    requires Answers(queue, rows, table, query, position, 1, take, recents, primary, extra)
    ensures var missing := take - |primary|;
            var found := |FreshIds(Elements(queue) + IdsOf(primary), missing, recents)|;
            var ids := PageFallbackIds(queue, primary, position, 1, take, recents);
            && |ids| == (if found < missing then found else missing)
            && (forall p :: p in extra <==> p in table && p.id in ids && Passes(p, query))
            && (AllPass(table, query, recents) ==> |extra| == |ids|)
  {
    var exclude := Elements(queue) + IdsOf(primary);
    var ids := PageFallbackIds(queue, primary, position, 1, take, recents);
    FallbackCount(exclude, take - |primary|, recents);
    assert ids == Fallback(exclude, take - |primary|, recents);
    hide FreshIds;
    var fallbacks := PageFallbacks(ids, table, query);
    var perm :| StableSort(fallbacks, extra, perm, FirstBefore(Electronic()));
    hide Passes;
    forall p ensures p in extra <==> p in table && p.id in ids && Passes(p, query) {
      SortKeepsElements(fallbacks, extra, perm, FirstBefore(Electronic()), p);
      FilterMember(InQueueOrder(ids, table, Any()), Passing(query), p);
      InQueueOrderMember(ids, table, Any(), p);
    }
    if AllPass(table, query, recents) { AllFallbacksKept(ids, table, query, recents); }
  }
}
