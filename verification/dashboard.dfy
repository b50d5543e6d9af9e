/**
 * The figures of the dashboard (`fetchStats` in src/pages/Dashboard.tsx):
 * three row counts, the number of invoices, the revenue received and the
 * amount still owed on open invoices.
 */
module Dashboard {
  import opened Json
  import opened MockStore
  import InvoiceDetail
  import Quotations

  datatype Stats = Stats(
    totalRevenue: real,
    totalClients: int,
    totalEvents: int,
    totalQuotations: int,
    totalInvoices: nat,
    pendingPayments: real)

  /** The figures shown before the first fetch. */
  const Zero := Stats(0.0, 0, 0, 0, 0, 0.0)

  /** `payments.reduce((sum, p) => sum + (Number(p.amount) || 0), 0)`, folded left to right. */
  function Revenue(payments: seq<Row>): real {
    if payments == [] then 0.0
    else Revenue(payments[..|payments| - 1]) + NumberOr0(Get(payments[|payments| - 1], "amount"))
  }

  /** An invoice still expecting money: its status is neither "paid" nor "cancelled". */
  predicate Open(inv: Row) {
    Get(inv, "status") != Str("paid") && Get(inv, "status") != Str("cancelled")
  }

  /** What an invoice still owes: total minus amount paid, each read as 0 when not a number. */
  function Due(inv: Row): real {
    NumberOr0(Get(inv, "total")) - NumberOr0(Get(inv, "amount_paid"))
  }

  /** `invoices.filter(open)`, in order. */
  function OpenInvoices(invoices: seq<Row>): (r: seq<Row>)
    ensures forall x :: x in r <==> x in invoices && Open(x)
  {
    if invoices == [] then []
    else
      var last := invoices[|invoices| - 1];
      OpenInvoices(invoices[..|invoices| - 1]) + (if Open(last) then [last] else [])
  }

  /** The `reduce` over the open invoices: their dues, folded left to right. */
  function SumDue(invoices: seq<Row>): real {
    if invoices == [] then 0.0
    else SumDue(invoices[..|invoices| - 1]) + Due(invoices[|invoices| - 1])
  }

  /** `pendingPayments`. */
  function Pending(invoices: seq<Row>): real {
    SumDue(OpenInvoices(invoices))
  }

  /** A reference definition: every invoice adds its due when open and nothing otherwise. */
  function OwedBy(invoices: seq<Row>): real {
    if invoices == [] then 0.0
    else (if Open(invoices[0]) then Due(invoices[0]) else 0.0) + OwedBy(invoices[1..])
  }

  lemma {:induction false} RevenueAppend(a: seq<Row>, b: seq<Row>)
    ensures Revenue(a + b) == Revenue(a) + Revenue(b)
    decreases |b|
  {
    if b == [] {
      assert a + b == a;
    } else {
      var b' := b[..|b| - 1];
      assert (a + b)[..|a + b| - 1] == a + b' && (a + b)[|a + b| - 1] == b[|b| - 1];
      RevenueAppend(a, b');
    }
  }

  lemma {:induction false} SumDueAppend(a: seq<Row>, b: seq<Row>)
    ensures SumDue(a + b) == SumDue(a) + SumDue(b)
    decreases |b|
  {
    if b == [] {
      assert a + b == a;
    } else {
      var b' := b[..|b| - 1];
      assert (a + b)[..|a + b| - 1] == a + b' && (a + b)[|a + b| - 1] == b[|b| - 1];
      SumDueAppend(a, b');
    }
  }

  lemma {:induction false} OpenInvoicesAppend(a: seq<Row>, b: seq<Row>)
    ensures OpenInvoices(a + b) == OpenInvoices(a) + OpenInvoices(b)
    decreases |b|
  {
    if b == [] {
      assert a + b == a;
    } else {
      var b' := b[..|b| - 1];
      assert (a + b)[..|a + b| - 1] == a + b' && (a + b)[|a + b| - 1] == b[|b| - 1];
      OpenInvoicesAppend(a, b');
    }
  }

  /** The pending amount of two runs of invoices is the sum of theirs. */
  lemma PendingAppend(a: seq<Row>, b: seq<Row>)
    ensures Pending(a + b) == Pending(a) + Pending(b)
  {
    OpenInvoicesAppend(a, b);
    SumDueAppend(OpenInvoices(a), OpenInvoices(b));
  }

  /** Adding a paid or cancelled invoice leaves the pending amount as it was. */
  lemma ClosedAddsNothing(invoices: seq<Row>, inv: Row)
    requires !Open(inv)
    ensures Pending(invoices + [inv]) == Pending(invoices)
  {
    PendingAppend(invoices, [inv]);
    assert OpenInvoices([inv]) == [];
  }

  /** An open invoice adds exactly its due; an overpaid one lowers the pending amount. */
  lemma OpenAddsDue(invoices: seq<Row>, inv: Row)
    requires Open(inv)
    ensures Pending(invoices + [inv]) == Pending(invoices) + Due(inv)
    ensures NumberOr0(Get(inv, "amount_paid")) > NumberOr0(Get(inv, "total")) ==> Pending(invoices + [inv]) < Pending(invoices)
  {
    PendingAppend(invoices, [inv]);
    assert OpenInvoices([inv]) == [inv];
    assert SumDue([inv]) == Due(inv) by {
      assert [inv][..0] == [];
    }
  }

  lemma PendingOne(inv: Row)
    ensures Pending([inv]) == if Open(inv) then Due(inv) else 0.0
  {
    assert [inv][..0] == [];
    if Open(inv) {
      assert OpenInvoices([inv]) == [inv];
      assert SumDue([inv]) == Due(inv);
    } else {
      assert OpenInvoices([inv]) == [];
    }
  }

  /** Filtering then folding agrees with the reference definition. */
  lemma {:induction false} PendingIsOwed(invoices: seq<Row>)
    ensures Pending(invoices) == OwedBy(invoices)
  {
    if invoices != [] {
      var head, tail := invoices[0], invoices[1..];
      assert invoices == [head] + tail;
      PendingAppend([head], tail);
      PendingOne(head);
      PendingIsOwed(tail);
    }
  }

  // ---------------------------------------------------------------------
  // The five queries (Dashboard.tsx:34-40)
  // ---------------------------------------------------------------------

  const InvoiceStatsColumns := "id, total, amount_paid, status"

  /** `select("id", { count: "exact", head: true })`. */
  function CountQuery(t: Table): Query {
    NewQuery(t).(columns := "id", count := true, head := true)
  }

  /** `count || 0`. */
  function CountOr0(res: Response): int {
    if res.count.Some? then res.count.value else 0
  }

  /** `data || []`. */
  function RowsOr0(res: Response): seq<Row> {
    if res.data.Many? then res.data.rows else []
  }

  /** The number a count query reports, read as `count || 0`. */
  function TableCount(db: Db, t: Table): (n: int)
    requires Complete(db)
    ensures n == |db[t]|
  {
    CountQueryCountsTable(t, db);
    CountOr0(SelectResponse(CountQuery(t), db))
  }

  /** The rows a plain select reports, read as `data || []`. */
  function ReadAll(db: Db, t: Table, columns: string): (rows: seq<Row>)
    requires Complete(db) && RelationNames(columns, 0) == []
    ensures rows == db[t]
  {
    WholeTableRead(t, columns, db);
    RowsOr0(SelectResponse(NewQuery(t).(columns := columns), db))
  }

  /** Neither of the two column lists embeds a relation. */
  lemma StatsColumnsEmbedNothing()
    ensures RelationNames(InvoiceStatsColumns, 0) == [] && RelationNames("amount", 0) == []
  {
    InvoiceStatsColumnsEmbedNothing();
    AmountEmbedsNothing();
  }

  lemma InvoiceStatsColumnsEmbedNothing()
    ensures RelationNames(InvoiceStatsColumns, 0) == []
  {
    NoParenNoRelations(InvoiceStatsColumns, 0);
  }

  lemma AmountEmbedsNothing()
    ensures RelationNames("amount", 0) == []
  {
    NoParenNoRelations("amount", 0);
  }

  /** The figures `fetchStats` sets, from the five responses against the tables `db`. */
  function FetchedStats(db: Db): (s: Stats)
    requires Complete(db)
    ensures s.totalClients == |db[Clients]| && s.totalEvents == |db[Events]| && s.totalQuotations == |db[Quotations]|
    ensures s.totalInvoices == |db[Invoices]|
    ensures s.totalRevenue == Revenue(db[Payments])
    ensures s.pendingPayments == Pending(db[Invoices])
  {
    StatsColumnsEmbedNothing();
    var invoices := ReadAll(db, Invoices, InvoiceStatsColumns);
    var payments := ReadAll(db, Payments, "amount");
    Stats(Revenue(payments), TableCount(db, Clients), TableCount(db, Events), TableCount(db, Quotations),
      |invoices|, Pending(invoices))
  }

  /** A select with no filter, order, limit or relation returns the whole table. */
  lemma WholeTableRead(t: Table, columns: string, db: Db)
    requires Complete(db) && RelationNames(columns, 0) == []
    ensures RowsOr0(SelectResponse(NewQuery(t).(columns := columns), db)) == db[t]
  {
    forall x | x in db[t] ensures Matches(x, []) { }
    FilterRowsAllMatch(db[t], []);
  }

  /** `fetchStats`, run by the effect only when signed in. */
  method FetchStats(store: Store, user: Option<string>, prior: Stats) returns (next: Stats)
    requires store.Valid()
    modifies store
    ensures store.Valid() && store.data == old(store.data)
    ensures user.None? ==> next == prior
    ensures user.Some? ==> next == FetchedStats(store.data)
  {
    next := prior;
    if user.None? {
      return;
    }
    var clients := CountRows(store, Clients);
    var events := CountRows(store, Events);
    var quotations := CountRows(store, Quotations);
    var invoices := SelectAll(store, Invoices, InvoiceStatsColumns);
    var payments := SelectAll(store, Payments, "amount");
    StatsColumnsEmbedNothing();
    WholeTableRead(Invoices, InvoiceStatsColumns, store.data);
    WholeTableRead(Payments, "amount", store.data);
    next := Stats(Revenue(payments), clients, events, quotations, |invoices|, Pending(invoices));
  }

  /** Recording a payment raises the revenue by exactly the amount paid. */
  lemma PaymentRaisesRevenue(db: Db, userId: string, inv: Row, pay: real, paymentMethod: string, reference: string,
                             paymentId: string, now: string, update: bool)
    requires Complete(db)
    ensures var r := InvoiceDetail.Recorded(db, Some(userId), Some(inv), pay, paymentMethod, reference, paymentId, now, Quotations.Faults(false, update));
      Revenue(r[Payments]) == Revenue(db[Payments]) + pay
  {
    var r := InvoiceDetail.Recorded(db, Some(userId), Some(inv), pay, paymentMethod, reference, paymentId, now, Quotations.Faults(false, update));
    var n := |db[Payments]|;
    InvoiceDetail.RecordAppendsPayment(db, userId, inv, pay, paymentMethod, reference, paymentId, now, update);
    assert r[Payments] == db[Payments] + [r[Payments][n]];
    RevenueAppend(db[Payments], [r[Payments][n]]);
    assert [r[Payments][n]][..0] == [];
  }
}
