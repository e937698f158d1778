/**
 Invoice numbering. A new invoice is named after the latest live invoice, invoices can be hard
 deleted at any time, and the column holding the name is unique.
 */
module Invoices {
  import opened Text
  import opened Outcomes

  const PREFIX := "NXME000125"

  datatype Invoice = Invoice(id: nat, createdAt: int, invoiceId: string)

  /** The table and the next value of its id sequence, which a rollback does not give back. */
  datatype Table = Table(rows: seq<Invoice>, nextId: nat)

  /** The name given to an invoice created when `latest` was the newest live row. */
  function NameAfter(latest: Option<nat>): (name: string)
    ensures PREFIX <= name
  {
    match latest
    case None => PREFIX
    case Some(id) => PREFIX + Digits(id)
  }

  lemma NameAfterInjective(a: Option<nat>, b: Option<nat>)
    requires NameAfter(a) == NameAfter(b)
    ensures a == b
  {
    assert a.Some? ==> NameAfter(a)[|PREFIX|..] == Digits(a.value);
    assert b.Some? ==> NameAfter(b)[|PREFIX|..] == Digits(b.value);
    if a.Some? && b.Some? {
      DigitsInjective(a.value, b.value);
    }
  }

  lemma NameAfterDiffers(a: Option<nat>, b: Option<nat>)
    requires a != b
    ensures NameAfter(a) != NameAfter(b)
  {
    if NameAfter(a) == NameAfter(b) { NameAfterInjective(a, b); }
  }

  /** The row `findAll` returns first when ordered by `createdAt` descending. */
  function Latest(rows: seq<Invoice>): (r: Option<Invoice>)
    ensures r.None? <==> rows == []
    ensures r.Some? ==> r.value in rows && forall x :: x in rows ==> x.createdAt <= r.value.createdAt
  {
    if rows == [] then None
    else
      var last := rows[|rows| - 1];
      var r := Latest(rows[..|rows| - 1]);
      assert rows == rows[..|rows| - 1] + [last];
      if r.Some? && r.value.createdAt > last.createdAt then r else Some(last)
  }

  function LatestId(rows: seq<Invoice>): Option<nat> {
    match Latest(rows)
    case None => None
    case Some(r) => Some(r.id)
  }

  predicate NameTaken(rows: seq<Invoice>, name: string) {
    exists r | r in rows :: r.invoiceId == name
  }

  datatype Created = Created(table: Table, ok: bool)

  /** One `create` call at time `now`; `itemsOk` says whether inserting the invoice lines succeeds. */
  function Create(t: Table, now: int, itemsOk: bool): Created {
    var name := NameAfter(LatestId(t.rows));
    if NameTaken(t.rows, name) || !itemsOk then Created(t.(nextId := t.nextId + 1), false)
    else Created(Table(t.rows + [Invoice(t.nextId, now, name)], t.nextId + 1), true)
  }

  /** `findByPk`. */
  function IndexOf(rows: seq<Invoice>, id: nat): (r: Option<nat>)
    ensures r.Some? ==> r.value < |rows| && rows[r.value].id == id
    ensures r.None? ==> forall x :: x in rows ==> x.id != id
  {
    if rows == [] then None
    else if rows[0].id == id then Some(0)
    else
      match IndexOf(rows[1..], id)
      case None => None
      case Some(i) => Some(i + 1)
  }

  function Delete(t: Table, id: nat): Table {
    match IndexOf(t.rows, id)
    case None => t
    case Some(i) => t.(rows := t.rows[..i] + t.rows[i + 1..])
  }

  /** `NXME000125`, alone when there is no live row, or before the id, in digits, of a row that none is newer than. */
  ghost predicate NamesLatest(rows: seq<Invoice>, name: string) {
    if rows == [] then name == "NXME000125"
    else
      && |name| > 10 && name[..10] == "NXME000125"
      && AllDigits(name[10..]) && (name[10] == '0' ==> |name| == 11)
      && exists r :: r in rows && NatOf(name[10..]) == r.id && forall x :: x in rows ==> x.createdAt <= r.createdAt
  }

  lemma NextNameNamesLatest(rows: seq<Invoice>)
    ensures NamesLatest(rows, NameAfter(LatestId(rows)))
  {
    var name := NameAfter(LatestId(rows));
    if rows != [] { assert name[10..] == Digits(Latest(rows).value.id) && name[..10] == PREFIX; }
    hide Latest;
    hide Digits;
    hide NatOf;
  }

  /** A new row is the next in the id sequence and is named after the latest one; a failed create leaves the rows. */
  lemma CreateAppends(t: Table, now: int, itemsOk: bool)
    ensures var r := Create(t, now, itemsOk);
            && r.table.nextId == t.nextId + 1
            && (!r.ok ==> r.table.rows == t.rows)
            && (r.ok ==>
                  exists name :: r.table.rows == t.rows + [Invoice(t.nextId, now, name)] && NamesLatest(t.rows, name))
  {
    NextNameNamesLatest(t.rows);
    hide NamesLatest;
    hide NameAfter;
    hide LatestId;
  }

  // ----- the history argument -----

  /** `row` was named when `parent` was the latest row, and no row before it in `rows` is newer. */
  ghost predicate NamedAfter(rows: seq<Invoice>, i: nat, parent: Option<nat>)
    requires i < |rows|
  {
    && rows[i].invoiceId == NameAfter(parent)
    && (parent.Some? ==> parent.value < rows[i].id)
    && NoneNewer(rows, i, parent)
  }

  ghost predicate NoneNewer(rows: seq<Invoice>, i: nat, parent: Option<nat>)
    requires i < |rows|
  {
    forall j :: 0 <= j < i ==> NotNewer(rows[j], parent)
  }

  ghost predicate NotNewer(row: Invoice, parent: Option<nat>) {
    parent.Some? && row.id <= parent.value
  }

  ghost predicate Named(rows: seq<Invoice>, i: nat)
    requires i < |rows|
  {
    exists parent :: NamedAfter(rows, i, parent)
  }

  ghost predicate IdsIncrease(rows: seq<Invoice>) {
    forall i, j :: 0 <= i < j < |rows| ==> rows[i].id < rows[j].id
  }

  ghost predicate TimesIncrease(rows: seq<Invoice>) {
    forall i, j :: 0 <= i < j < |rows| ==> rows[i].createdAt < rows[j].createdAt
  }

  ghost predicate AllNamed(rows: seq<Invoice>) {
    forall i :: 0 <= i < |rows| ==> Named(rows, i)
  }

  /** The invariant: ids and creation times increase together, and each name points at an older row. */
  ghost predicate Chained(t: Table) {
    && (forall i :: 0 <= i < |t.rows| ==> t.rows[i].id < t.nextId)
    && IdsIncrease(t.rows)
    && TimesIncrease(t.rows)
    && AllNamed(t.rows)
  }

  ghost predicate Newer(rows: seq<Invoice>, now: int) {
    forall r :: r in rows ==> r.createdAt < now
  }

  lemma PairDistinct(t: Table, i: nat, j: nat)
    requires Chained(t) && i < j < |t.rows|
    ensures t.rows[i].invoiceId != t.rows[j].invoiceId
  {
    assert Named(t.rows, i) && Named(t.rows, j);
    var p :| NamedAfter(t.rows, i, p);
    var q :| NamedAfter(t.rows, j, q);
    assert p != q;
    if NameAfter(p) == NameAfter(q) {
      NameAfterInjective(p, q);
    }
  }

  lemma NextNameFresh(t: Table, i: nat)
    requires Chained(t) && i < |t.rows|
    ensures t.rows[i].invoiceId != NameAfter(LatestId(t.rows))
  {
    LatestIsLast(t);
    var next := LatestId(t.rows);
    assert next.Some? && t.rows[i].id <= next.value;
    assert Named(t.rows, i);
    var p :| NamedAfter(t.rows, i, p);
    NameAfterDiffers(p, next);
  }

  /** Under the invariant, names of live invoices are pairwise distinct and none is the next name. */
  lemma ChainedNamesDistinct(t: Table)
    requires Chained(t)
    ensures forall i, j :: 0 <= i < j < |t.rows| ==> t.rows[i].invoiceId != t.rows[j].invoiceId
    ensures !NameTaken(t.rows, NameAfter(LatestId(t.rows)))
  {
    forall i, j | 0 <= i < j < |t.rows| ensures t.rows[i].invoiceId != t.rows[j].invoiceId {
      PairDistinct(t, i, j);
    }
    forall r | r in t.rows ensures r.invoiceId != NameAfter(LatestId(t.rows)) {
      var i :| 0 <= i < |t.rows| && t.rows[i] == r;
      NextNameFresh(t, i);
    }
  }

  lemma LatestIsLast(t: Table)
    requires Chained(t)
    ensures t.rows != [] ==> Latest(t.rows) == Some(t.rows[|t.rows| - 1])
  {
    if t.rows != [] {
      var r := Latest(t.rows).value;
      assert t.rows[|t.rows| - 1] in t.rows;
    }
  }

  /** Place `j` of the rows left when place `d` is taken out. */
  function Before(d: nat, j: nat): nat {
    if j < d then j else j + 1
  }

  /** A row stays named after its parent when the rows before it are rows from before it. */
  lemma FewerPredecessors(rows: seq<Invoice>, d: nat, rest: seq<Invoice>, i: nat)
    requires i < |rest| && Before(d, i) < |rows| && Named(rows, Before(d, i))
    requires forall j :: 0 <= j <= i ==> rest[j] == rows[Before(d, j)]
    ensures Named(rest, i)
  {
    hide NameAfter;
    var p :| NamedAfter(rows, Before(d, i), p);
    hide NotNewer;
    assert NoneNewer(rows, Before(d, i), p);
    forall j | 0 <= j < i ensures NotNewer(rest[j], p) {
      assert NotNewer(rows[Before(d, j)], p);
    }
    assert NoneNewer(rest, i, p);
    hide NoneNewer;
    assert NamedAfter(rest, i, p);
  }

  lemma AppendKeepsNamed(rows: seq<Invoice>, row: Invoice, parent: Option<nat>)
    requires AllNamed(rows)
    requires NamedAfter(rows + [row], |rows|, parent)
    ensures AllNamed(rows + [row])
  {
    var more := rows + [row];
    hide NamedAfter;
    forall i | 0 <= i < |more| ensures Named(more, i) {
      if i < |rows| {
        assert Named(rows, i);
        hide Named;
        FewerPredecessors(rows, |rows|, more, i);
      }
    }
  }

  lemma NewRowNamed(t: Table, now: int)
    requires Chained(t)
    ensures AllNamed(t.rows + [Invoice(t.nextId, now, NameAfter(LatestId(t.rows)))])
  {
    LatestIsLast(t);
    var parent := LatestId(t.rows);
    var row := Invoice(t.nextId, now, NameAfter(parent));
    assert NamedAfter(t.rows + [row], |t.rows|, parent) by {
      hide Latest;
      hide NameAfter;
    }
    hide Latest;
    AppendKeepsNamed(t.rows, row, parent);
  }

  /** A create with a clock later than every live row keeps the invariant and is not rejected for its name. */
  lemma CreateKeepsChain(t: Table, now: int, itemsOk: bool)
    requires Chained(t) && Newer(t.rows, now)
    ensures Chained(Create(t, now, itemsOk).table)
    ensures Create(t, now, itemsOk).ok == itemsOk
  {
    ChainedNamesDistinct(t);
    NewRowNamed(t, now);
    hide NameAfter;
    hide LatestId;
    hide AllNamed;
    hide NameTaken;
  }

  lemma RemoveKeepsNamed(rows: seq<Invoice>, d: nat)
    requires AllNamed(rows) && d < |rows|
    ensures AllNamed(rows[..d] + rows[d + 1..])
  {
    var rest := rows[..d] + rows[d + 1..];
    hide Named;
    forall i | 0 <= i < |rest| ensures Named(rest, i) {
      FewerPredecessors(rows, d, rest, i);
    }
  }

  lemma RemoveKeepsOrder(rows: seq<Invoice>, d: nat)
    requires IdsIncrease(rows) && TimesIncrease(rows) && d < |rows|
    ensures IdsIncrease(rows[..d] + rows[d + 1..]) && TimesIncrease(rows[..d] + rows[d + 1..])
  {
    var rest := rows[..d] + rows[d + 1..];
    assert forall i :: 0 <= i < |rest| ==> rest[i] == rows[Before(d, i)];
  }

  lemma RemoveTakesOne(rows: seq<Invoice>, d: nat)
    requires IdsIncrease(rows) && d < |rows|
    ensures forall r :: r in rows[..d] + rows[d + 1..] <==> r in rows && r.id != rows[d].id
  {
    var rest := rows[..d] + rows[d + 1..];
    forall r ensures r in rest <==> r in rows && r.id != rows[d].id {
      if r in rows && r.id != rows[d].id {
        var i :| 0 <= i < |rows| && rows[i] == r;
        assert rest[if i < d then i else i - 1] == r;
      }
      if r in rest {
        var i :| 0 <= i < |rest| && rest[i] == r;
        assert rows[Before(d, i)] == r;
      }
    }
  }

  lemma DeleteKeepsChain(t: Table, id: nat)
    requires Chained(t)
    ensures Chained(Delete(t, id))
    ensures forall r :: r in Delete(t, id).rows <==> r in t.rows && r.id != id
  {
    var found := IndexOf(t.rows, id);
    if found.Some? {
      RemoveKeepsNamed(t.rows, found.value);
      RemoveKeepsOrder(t.rows, found.value);
      RemoveTakesOne(t.rows, found.value);
    }
  }

  // ----- runs -----

  datatype Event = CreateAt(now: int, itemsOk: bool) | DeleteRow(id: nat)

  function Step(t: Table, e: Event): Table {
    match e
    case CreateAt(now, itemsOk) => Create(t, now, itemsOk).table
    case DeleteRow(id) => Delete(t, id)
  }

  function Run(t: Table, events: seq<Event>): Table
    decreases |events|
  {
    if events == [] then t else Run(Step(t, events[0]), events[1..])
  }

  /** Every create happens later than `clock` and than the creates before it. */
  ghost predicate Clocked(events: seq<Event>, clock: int)
    decreases |events|
  {
    events != [] ==>
      match events[0]
      case CreateAt(now, _) => clock < now && Clocked(events[1..], now)
      case DeleteRow(_) => Clocked(events[1..], clock)
  }

  /** In every run of creates and deletes under an advancing clock, live invoices have distinct names. */
  lemma {:induction false} RunKeepsNamesDistinct(t: Table, events: seq<Event>, clock: int)
    requires Chained(t) && Newer(t.rows, clock + 1) && Clocked(events, clock)
    ensures Chained(Run(t, events))
    ensures forall i, j :: 0 <= i < j < |Run(t, events).rows| ==>
              Run(t, events).rows[i].invoiceId != Run(t, events).rows[j].invoiceId
    decreases |events|
  {
    if events == [] {
      ChainedNamesDistinct(t);
    } else {
      match events[0]
      case CreateAt(now, itemsOk) =>
        CreateKeepsChain(t, now, itemsOk);
        RunKeepsNamesDistinct(Step(t, events[0]), events[1..], now);
      case DeleteRow(id) =>
        DeleteKeepsChain(t, id);
        RunKeepsNamesDistinct(Step(t, events[0]), events[1..], clock);
    }
  }

  /** In such a run every create whose lines are accepted succeeds: the unique column never rejects one. */
  lemma CreateAlwaysSucceeds(t: Table, events: seq<Event>, clock: int, now: int)
    requires Chained(t) && Newer(t.rows, clock + 1)
    requires Clocked(events + [CreateAt(now, true)], clock)
    ensures Create(Run(t, events), now, true).ok
    decreases |events|
  {
    if events == [] {
      assert events + [CreateAt(now, true)] == [CreateAt(now, true)];
      CreateKeepsChain(t, now, true);
    } else {
      var e, rest := events[0], events[1..];
      assert (events + [CreateAt(now, true)])[1..] == rest + [CreateAt(now, true)];
      match e
      case CreateAt(at, itemsOk) =>
        CreateKeepsChain(t, at, itemsOk);
        CreateAlwaysSucceeds(Step(t, e), rest, at, now);
      case DeleteRow(id) =>
        DeleteKeepsChain(t, id);
        CreateAlwaysSucceeds(Step(t, e), rest, clock, now);
    }
  }

  // ----- any clock -----

  function Empty(): Table {
    Table([], 1)
  }

  /** Row `r` was created by event `k`, and named after the invoice that was the latest then. */
  ghost predicate CreatedBy(events: seq<Event>, k: nat, r: Invoice) {
    && k < |events| && events[k].CreateAt?
    && var before := Run(Empty(), events[..k]);
       && Create(before, events[k].now, events[k].itemsOk).ok
       && r == Invoice(before.nextId, events[k].now, NameAfter(LatestId(before.rows)))
  }

  lemma {:induction false} RunLast(t: Table, events: seq<Event>, n: nat)
    requires n < |events|
    ensures Run(t, events[..n + 1]) == Step(Run(t, events[..n]), events[n])
    decreases n
  {
    if n > 0 {
      hide Step;
      RunLast(Step(t, events[0]), events[1..], n - 1);
      assert events[..n][1..] == events[1..][..n - 1] && events[..n + 1][1..] == events[1..][..n];
    }
  }

  lemma StepRows(t: Table, e: Event, r: Invoice)
    requires r in Step(t, e).rows && r !in t.rows
    ensures e.CreateAt? && Create(t, e.now, e.itemsOk).ok && r == Invoice(t.nextId, e.now, NameAfter(LatestId(t.rows)))
  {
    hide NameAfter;
    hide NameTaken;
  }

  lemma {:induction false} EveryRowCreated(events: seq<Event>, r: Invoice) returns (k: nat)
    requires r in Run(Empty(), events).rows
    ensures CreatedBy(events, k, r)
    decreases |events|
  {
    assert events != [];
    var n := |events| - 1;
    RunLast(Empty(), events, n);
    assert events[..n + 1] == events;
    hide Step;
    hide Create;
    hide Run;
    if r in Run(Empty(), events[..n]).rows {
      k := EveryRowCreated(events[..n], r);
      assert events[..n][..k] == events[..k];
    } else {
      k := n;
      StepRows(Run(Empty(), events[..n]), events[n], r);
    }
  }

  /**
   Whatever the clock did: a create with accepted lines is rejected exactly when some live invoice was
   created while the invoice that is the latest now was the latest then.
   */
  lemma RejectedExactly(events: seq<Event>, now: int)
    ensures !Create(Run(Empty(), events), now, true).ok <==>
              exists k: nat, r ::
                && r in Run(Empty(), events).rows && CreatedBy(events, k, r)
                && LatestId(Run(Empty(), events[..k]).rows) == LatestId(Run(Empty(), events).rows)
  {
    var rows := Run(Empty(), events).rows;
    if r :| r in rows && r.invoiceId == NameAfter(LatestId(rows)) {
      var k := EveryRowCreated(events, r);
      NameAfterInjective(LatestId(Run(Empty(), events[..k]).rows), LatestId(rows));
    }
    hide NameAfter;
    hide LatestId;
    hide Run;
  }

  /**
   A clock that steps back breaks the numbering: the third create finds the first row latest again
   and is rejected, because the second row already carries its name.
   */
  lemma ClockStepsBack()
    ensures !Create(Run(Table([], 1), [CreateAt(10, true), CreateAt(5, true)]), 20, true).ok
  {
    var t1 := Create(Table([], 1), 10, true).table;
    assert t1.rows == [Invoice(1, 10, NameAfter(None))];
    NameAfterDiffers(None, Some(1));
    assert LatestId(t1.rows) == Some(1);
    var t2 := Create(t1, 5, true).table;
    assert t2.rows == [t1.rows[0], Invoice(2, 5, NameAfter(Some(1)))];
    assert Latest(t2.rows[..1]) == Some(t1.rows[0]);
    assert LatestId(t2.rows) == Some(1);
    assert t2.rows[1] in t2.rows;
    var events := [CreateAt(10, true), CreateAt(5, true)];
    assert events[1..] == [CreateAt(5, true)] && events[1..][1..] == [];
    assert Run(Table([], 1), events) == Run(t1, events[1..]) == Run(t2, []);
  }

  // ----- the service -----

  class InvoiceService {
    var rows: seq<Invoice>
    var nextId: nat

    function Model(): Table
      reads this
    {
      Table(rows, nextId)
    }

    constructor ()
      ensures Model() == Table([], 1) && Chained(Model())
    {
      rows, nextId := [], 1;
    }

    method CreateInvoice(now: int, itemsOk: bool) returns (created: Option<Invoice>)
      modifies this
      ensures Model() == Create(old(Model()), now, itemsOk).table
      ensures created.Some? <==> Create(old(Model()), now, itemsOk).ok
      ensures created.Some? ==> rows == old(rows) + [created.value] && !NameTaken(old(rows), created.value.invoiceId)
      ensures created.Some? ==> NamesLatest(old(rows), created.value.invoiceId)
      ensures created.None? ==> rows == old(rows)
      ensures old(Chained(Model()) && Newer(rows, now)) ==> Chained(Model()) && (created.Some? <==> itemsOk)
    {
      NextNameNamesLatest(rows);
      hide NamesLatest;
      if Chained(Model()) && Newer(rows, now) { CreateKeepsChain(Model(), now, itemsOk); }
      var invoiceId := PREFIX;
      var latest := Latest(rows);
      if latest.Some? {
        invoiceId := invoiceId + Digits(latest.value.id);
      }
      var saved := rows;
      var invoice := Invoice(nextId, now, invoiceId);
      nextId := nextId + 1;
      if NameTaken(rows, invoiceId) {
        return None;
      }
      rows := rows + [invoice];
      if !itemsOk {
        rows := saved;
        return None;
      }
      created := Some(invoice);
    }

    method DeleteInvoice(id: nat) returns (found: bool)
      modifies this
      ensures Model() == Delete(old(Model()), id)
      ensures found <==> exists r :: r in old(rows) && r.id == id
      ensures old(Chained(Model())) ==> Chained(Model()) && forall r :: r in rows <==> r in old(rows) && r.id != id
    {
      if Chained(Model()) { DeleteKeepsChain(Model(), id); }
      var i := IndexOf(rows, id);
      match i
      case None => found := false;
      case Some(k) =>
        assert rows[k] in rows;
        rows := rows[..k] + rows[k + 1..];
        found := true;
    }
  }
}
