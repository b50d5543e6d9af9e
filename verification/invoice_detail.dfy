/**
 * The invoice page of src/pages/InvoiceDetail.tsx: loading an invoice with
 * its client, its line items (falling back to the linked quotation's items)
 * and its payments, and recording a payment against it.
 *
 * The page's React state is the value `Page`; `FetchData` and
 * `RecordPayment` are the two awaited-call sequences over the store.
 */
module InvoiceDetail {
  import opened Json
  import opened MockStore
  import Quotations
  import QuotationBuilder

  // ---------------------------------------------------------------------
  // Item display (InvoiceDetail.tsx:60-76)
  // ---------------------------------------------------------------------

  /** One entry of the `items` state; a number that reads as NaN is `None`. */
  datatype ShownItem = ShownItem(description: Value, quantity: Option<real>, unit: Value, rate: Option<real>, amount: Option<real>)

  /** The mapping applied to each fetched item row; a falsy unit shows as "nos". */
  function DisplayItem(row: Row): (item: ShownItem)
    ensures Truthy(item.unit)
    ensures Truthy(Get(row, "unit")) ==> item.unit == Get(row, "unit")
    ensures item.description == Get(row, "description")
  {
    ShownItem(
      Get(row, "description"),
      ToNumber(Get(row, "quantity")),
      if Truthy(Get(row, "unit")) then Get(row, "unit") else Str("nos"),
      ToNumber(Get(row, "rate")),
      ToNumber(Get(row, "amount")))
  }

  function DisplayItems(rows: seq<Row>): (items: seq<ShownItem>)
    ensures |items| == |rows|
    ensures forall i :: 0 <= i < |rows| ==> items[i] == DisplayItem(rows[i])
  {
    seq(|rows|, i requires 0 <= i < |rows| => DisplayItem(rows[i]))
  }

  /** A row written by the quotation editor shows the editor's values; a blank unit shows as "nos". */
  lemma DisplayStoredItem(row: Row, quotationId: Value, item: QuotationBuilder.LineItem, i: nat)
    requires QuotationBuilder.StoresItem(row, quotationId, item, i)
    ensures DisplayItem(row) == ShownItem(Str(item.description), Some(item.quantity),
      Str(if item.unit == "" then "nos" else item.unit), Some(item.rate), Some(item.amount))
  {
  }

  // ---------------------------------------------------------------------
  // Loading the page (InvoiceDetail.tsx:50-83)
  // ---------------------------------------------------------------------

  /** The page state that `fetchData` sets. */
  datatype Page = Page(invoice: Option<Row>, items: seq<ShownItem>, payAmount: real, payments: seq<Row>)

  /** The page before anything has loaded. */
  const Initial := Page(None, [], 0.0, [])

  /** The invoice select embeds the client's contact fields. */
  const InvoiceColumns := "*, " + "clients" + "(" + "name, email, phone, company, gst_number" + ")"

  function InvoiceQuery(id: string): Query {
    NewQuery(Invoices).(columns := InvoiceColumns, filters := IdIs(Str(id)))
  }

  /** The invoice's own items, by `sort_order`. */
  function OwnItemsQuery(id: string): Query {
    ChildQuery(InvoiceItems, "invoice_id", Str(id), "sort_order")
  }

  /** The linked quotation's items, by `sort_order`. */
  function QuotationItemsQuery(quotationId: Value): Query {
    ChildQuery(QuotationItems, "quotation_id", quotationId, "sort_order")
  }

  /** The invoice's payments, newest `payment_date` first. */
  function PaymentsQuery(id: string): Query {
    ChildQuery(Payments, "invoice_id", Str(id), "payment_date").(ascending := false)
  }

  /**
   * The items shown: the invoice's own items when there are any, else the
   * linked quotation's items when `quotation_id` is truthy, else whatever
   * was shown before.
   */
  function ShownItems(db: Db, id: string, inv: Row, prior: seq<ShownItem>): (items: seq<ShownItem>)
    requires Complete(db)
  {
    var own := SelectRows(OwnItemsQuery(id), db);
    if |own| > 0 then DisplayItems(own)
    else if Truthy(Get(inv, "quotation_id")) then DisplayItems(SelectRows(QuotationItemsQuery(Get(inv, "quotation_id")), db))
    else prior
  }

  /** The page after `fetchData` against the tables `db`. */
  function Fetched(db: Db, id: string, page: Page): (next: Page)
    requires Complete(db)
  {
    var payments := SelectRows(PaymentsQuery(id), db);
    match FirstOf(SelectRows(InvoiceQuery(id), db))
    case None => page.(payments := payments)
    case Some(inv) => Page(Some(inv), ShownItems(db, id, inv, page.items), NumberOr0(Get(inv, "balance_due")), payments)
  }

  /** The invoice row with that id that comes first in the table, if any. */
  function StoredInvoice(db: Db, id: string): Option<Row>
    requires Complete(db)
  {
    FirstOf(FilterRows(db[Invoices], IdIs(Str(id))))
  }

  lemma StoredInvoiceHasId(db: Db, id: string)
    requires Complete(db)
    ensures StoredInvoice(db, id).Some? ==>
      StoredInvoice(db, id).value in db[Invoices] && Get(StoredInvoice(db, id).value, "id") == Str(id)
    ensures StoredInvoice(db, id).None? <==> forall x :: x in db[Invoices] ==> Get(x, "id") != Str(id)
  {
    MatchesEq("id", Str(id));
  }

  /** The column list embeds exactly the `clients` relation. */
  lemma InvoiceColumnsEmbedClients()
    ensures RelationNames(InvoiceColumns, 0) == ["clients"]
  {
    RelationNamesOfOneCall("*, ", "clients", "name, email, phone, company, gst_number");
  }

  /**
   * The invoice select returns the stored invoice with only its `clients`
   * field replaced by the embedded client.
   */
  lemma InvoiceSelectKeepsFields(db: Db, id: string, k: string)
    requires Complete(db) && k != "clients"
    ensures FirstOf(SelectRows(InvoiceQuery(id), db)).Some? <==> StoredInvoice(db, id).Some?
    ensures StoredInvoice(db, id).Some? ==>
      Get(FirstOf(SelectRows(InvoiceQuery(id), db)).value, k) == Get(StoredInvoice(db, id).value, k)
  {
    var filtered := FilterRows(db[Invoices], IdIs(Str(id)));
    InvoiceSelectEmbeds(db, id);
    if |filtered| > 0 {
      EmbedOneKeepsFields(filtered, "clients", db, 0, k);
    }
  }

  lemma InvoiceSelectEmbeds(db: Db, id: string)
    requires Complete(db)
    ensures SelectRows(InvoiceQuery(id), db) == EmbedOne(FilterRows(db[Invoices], IdIs(Str(id))), "clients", db)
  {
    var filtered := FilterRows(db[Invoices], IdIs(Str(id)));
    InvoiceColumnsEmbedClients();
    EmbedAllOne(filtered, "clients", db);
  }

  /**
   * Loading finds the stored invoice with that id (fields other than
   * `clients` as stored) and prefills the payment amount with its balance;
   * when there is none, the invoice, items and amount stay as they were.
   */
  lemma FetchedInvoice(db: Db, id: string, page: Page)
    requires Complete(db)
    ensures var next := Fetched(db, id, page);
      match StoredInvoice(db, id)
      case Some(row) =>
        next.invoice.Some? && next.payAmount == NumberOr0(Get(row, "balance_due")) &&
        Get(next.invoice.value, "id") == Str(id) &&
        forall k :: k != "clients" ==> Get(next.invoice.value, k) == Get(row, k)
      case None =>
        next.invoice == page.invoice && next.items == page.items && next.payAmount == page.payAmount
  {
    StoredInvoiceHasId(db, id);
    InvoiceSelectKeepsFields(db, id, "balance_due");
    if StoredInvoice(db, id).Some? {
      var inv := FirstOf(SelectRows(InvoiceQuery(id), db)).value;
      forall k | k != "clients" ensures Get(inv, k) == Get(StoredInvoice(db, id).value, k) {
        InvoiceSelectKeepsFields(db, id, k);
      }
    }
  }

  /** The payments shown are exactly the stored payments of that invoice. */
  lemma FetchedPayments(db: Db, id: string, page: Page)
    requires Complete(db)
    ensures forall x :: x in Fetched(db, id, page).payments <==> x in db[Payments] && Get(x, "invoice_id") == Str(id)
  {
    var filtered := FilterRows(db[Payments], [Filter("invoice_id", Str(id), FilterOp.Eq)]);
    MatchesEq("invoice_id", Str(id));
    ChildQueryRows(Payments, "invoice_id", Str(id), "payment_date", false, db);
    SortRowsMembers(filtered, "payment_date", false);
  }

  /** The invoice's own items, when there are any, are what is shown, in `sort_order`. */
  lemma OwnItemsShown(db: Db, id: string, inv: Row, prior: seq<ShownItem>)
    requires Complete(db)
    ensures var own := FilterRows(db[InvoiceItems], [Filter("invoice_id", Str(id), FilterOp.Eq)]);
      |own| > 0 ==> ShownItems(db, id, inv, prior) == DisplayItems(SortRows(own, "sort_order", true))
  {
    var own := FilterRows(db[InvoiceItems], [Filter("invoice_id", Str(id), FilterOp.Eq)]);
    ChildQueryRows(InvoiceItems, "invoice_id", Str(id), "sort_order", true, db);
    SortRowsLength(own, "sort_order", true);
    assert SelectRows(OwnItemsQuery(id), db) == SortRows(own, "sort_order", true);
  }

  /**
   * An invoice with no items of its own shows its quotation's items when
   * `quotation_id` is truthy, and otherwise keeps what was shown.
   */
  lemma NoOwnItemsFallBack(db: Db, id: string, inv: Row, prior: seq<ShownItem>)
    requires Complete(db)
    requires forall x :: x in db[InvoiceItems] ==> Get(x, "invoice_id") != Str(id)
    ensures ShownItems(db, id, inv, prior) ==
      if Truthy(Get(inv, "quotation_id")) then DisplayItems(QuotationBuilder.ItemsOf(db, Get(inv, "quotation_id"))) else prior
  {
    var f := [Filter("invoice_id", Str(id), FilterOp.Eq)];
    MatchesEq("invoice_id", Str(id));
    FilterRowsNoMatch(db[InvoiceItems], f);
    ChildQueryRows(InvoiceItems, "invoice_id", Str(id), "sort_order", true, db);
    assert SelectRows(OwnItemsQuery(id), db) == SortRows([], "sort_order", true);
  }

  /**
   * `fetchData`: the invoice (with its client), then its items or the
   * quotation's, then its payments. Reads only.
   */
  method FetchData(store: Store, id: string, page: Page) returns (next: Page)
    requires store.Valid()
    modifies store
    ensures store.Valid() && store.data == old(store.data)
    ensures next == Fetched(store.data, id, page)
  {
    next := page;
    var inv := SelectOne(store, Invoices, InvoiceColumns, "id", Str(id));
    if inv.Some? {
      next := next.(invoice := inv, payAmount := NumberOr0(Get(inv.value, "balance_due")));
      var own := SelectChildren(store, InvoiceItems, "invoice_id", Str(id), "sort_order", true);
      if |own| > 0 {
        next := next.(items := DisplayItems(own));
      } else if Truthy(Get(inv.value, "quotation_id")) {
        var linked := SelectChildren(store, QuotationItems, "quotation_id", Get(inv.value, "quotation_id"), "sort_order", true);
        next := next.(items := DisplayItems(linked));
      }
    }
    var pays := SelectChildren(store, Payments, "invoice_id", Str(id), "payment_date", false);
    next := next.(payments := pays);
  }

  /** The effect on mount: load only when signed in and the route has an id. */
  method Mount(store: Store, user: Option<string>, id: Option<string>, page: Page) returns (next: Page)
    requires store.Valid()
    modifies store
    ensures store.Valid() && store.data == old(store.data)
    ensures user.None? || id.None? || id == Some("") ==> next == page
    ensures user.Some? && id.Some? && id.value != "" ==> next == Fetched(store.data, id.value, page)
  {
    next := page;
    if user.Some? && id.Some? && id.value != "" {
      next := FetchData(store, id.value, page);
    }
  }

  // ---------------------------------------------------------------------
  // Recording a payment (InvoiceDetail.tsx:85-104)
  // ---------------------------------------------------------------------

  /** The payment row inserted for the invoice. */
  function PaymentRecord(userId: string, invoiceId: Value, amount: real, paymentMethod: string, reference: string): Row {
    map["user_id" := Str(userId), "invoice_id" := invoiceId, "amount" := Num(amount),
        "payment_method" := Str(paymentMethod), "reference_number" := Str(reference)]
  }

  lemma PaymentRecordFields(userId: string, invoiceId: Value, amount: real, paymentMethod: string, reference: string)
    ensures var r := PaymentRecord(userId, invoiceId, amount, paymentMethod, reference);
      Get(r, "invoice_id") == invoiceId && Get(r, "amount") == Num(amount) && Get(r, "user_id") == Str(userId) &&
      !Truthy(Get(r, "id")) && !Truthy(Get(r, "created_at"))
  {
  }

  /** `Math.max(0, x)`; NaN stays NaN. */
  function MaxZero(x: Option<real>): (r: Option<real>)
    ensures x.None? <==> r.None?
    ensures x.Some? ==> r.value >= 0.0 && r.value >= x.value && (r.value == 0.0 || r.value == x.value)
  {
    if x.Some? && x.value < 0.0 then Some(0.0) else x
  }

  /**
   * The invoice patch after paying `pay`, given `Number(amount_paid)` and
   * `Number(total)` (`None` for NaN): the new amount paid, the balance
   * clamped at zero, and "paid" exactly when nothing remains due. A NaN
   * amount is stored as null.
   */
  function Settlement(paid: Option<real>, total: Option<real>, pay: real): (patch: Row)
    ensures patch.Keys == {"amount_paid", "balance_due", "status"}
    ensures Get(patch, "status") == Str("paid") <==> paid.Some? && total.Some? && total.value - (paid.value + pay) <= 0.0
    ensures Get(patch, "status") == Str("paid") || Get(patch, "status") == Str("partial")
    ensures paid.Some? ==> Get(patch, "amount_paid") == Num(paid.value + pay)
    ensures paid.Some? && total.Some? ==>
      Get(patch, "balance_due").Num? && Get(patch, "balance_due").n >= 0.0 &&
      (Get(patch, "status") == Str("paid") <==> Get(patch, "balance_due").n == 0.0) &&
      paid.value + pay + Get(patch, "balance_due").n >= total.value &&
      (Get(patch, "status") == Str("partial") ==> paid.value + pay + Get(patch, "balance_due").n == total.value)
    ensures paid.None? || total.None? ==>
      Get(patch, "balance_due") == Null && Get(patch, "status") == Str("partial")
    ensures paid.None? ==> Get(patch, "amount_paid") == Null
  {
    var newPaid := if paid.Some? then Some(paid.value + pay) else None;
    var newBalance := if total.Some? && newPaid.Some? then Some(total.value - newPaid.value) else None;
    var status := if newBalance.Some? && newBalance.value <= 0.0 then "paid" else "partial";
    map["amount_paid" := StoredNumber(newPaid), "balance_due" := StoredNumber(MaxZero(newBalance)), "status" := Str(status)]
  }

  /**
   * The patch `recordPayment` computes from the loaded invoice, as written:
   * `Number(amount_paid)` is NaN when the invoice has no amount paid. The
   * workflow below uses the corrected `PaidSettlementOf`.
   */
  function SettlementOf(inv: Row, pay: real): Row {
    Settlement(ToNumber(Get(inv, "amount_paid")), ToNumber(Get(inv, "total")), pay)
  }

  /**
   * The stored tables after the two writes: the payment is appended, then,
   * unless its insert failed, every invoice with the loaded invoice's id is
   * merged with `patch`.
   */
  function PaymentWrites(db: Db, userId: string, inv: Row, pay: real, paymentMethod: string, reference: string,
                         paymentId: string, now: string, patch: Row, f: Quotations.Faults): (r: Db)
    requires Complete(db)
    ensures Complete(r)
    ensures forall t :: t != Payments && t != Invoices ==> r[t] == db[t]
    ensures f.insert ==> r == db
    ensures |r[Invoices]| == |db[Invoices]|
  {
    if f.insert then db
    else
      var db1 := db[Payments := db[Payments] + [Stamp(PaymentRecord(userId, Get(inv, "id"), pay, paymentMethod, reference), paymentId, now)]];
      if f.update then db1
      else db1[Invoices := UpdateRows(db1[Invoices], IdIs(Get(inv, "id")), patch)]
  }

  /** `recordPayment` as a whole: nothing happens without a user or a loaded invoice. */
  function Recorded(db: Db, user: Option<string>, invoice: Option<Row>, pay: real, paymentMethod: string, reference: string,
                    paymentId: string, now: string, f: Quotations.Faults): (r: Db)
    requires Complete(db)
    ensures Complete(r)
    ensures user.None? || invoice.None? || f.insert ==> r == db
    ensures forall t :: t != Payments && t != Invoices ==> r[t] == db[t]
  {
    if user.None? || invoice.None? then db
    else PaymentWrites(db, user.value, invoice.value, pay, paymentMethod, reference, paymentId, now, PaidSettlementOf(invoice.value, pay), f)
  }

  /**
   * `recordPayment`: with the page's invoice and prefilled amount, insert the
   * payment, update the invoice and reload the page. A write whose await
   * rejects ends the function, so the page is then not reloaded.
   */
  method RecordPayment(store: Store, user: Option<string>, id: string, page: Page, paymentMethod: string, reference: string,
                       paymentId: string, now: string, f: Quotations.Faults) returns (next: Page)
    requires store.Valid()
    modifies store
    ensures store.Valid()
    ensures store.data == Recorded(old(store.data), user, page.invoice, page.payAmount, paymentMethod, reference, paymentId, now, f)
    ensures user.None? || page.invoice.None? || f.insert || f.update ==> next == page
    ensures user.Some? && page.invoice.Some? && !f.insert && !f.update ==> next == Fetched(store.data, id, page)
  {
    next := page;
    if user.None? || page.invoice.None? {
      return;
    }
    var inv := page.invoice.value;
    var rejected := WritePayment(store, user.value, inv, page.payAmount, paymentMethod, reference, paymentId, now, f);
    if rejected {
      return;
    }
    next := FetchData(store, id, page);
  }

  /** The payment insert, then (unless its await rejected) the invoice update; whether either rejected. */
  method WritePayment(store: Store, userId: string, inv: Row, pay: real, paymentMethod: string, reference: string,
                      paymentId: string, now: string, f: Quotations.Faults) returns (rejected: bool)
    requires store.Valid()
    modifies store
    ensures store.Valid()
    ensures rejected == (f.insert || f.update)
    ensures store.data == PaymentWrites(old(store.data), userId, inv, pay, paymentMethod, reference, paymentId, now, PaidSettlementOf(inv, pay), f)
  {
    var record := PaymentRecord(userId, Get(inv, "id"), pay, paymentMethod, reference);
    assert StampAll([record], [paymentId], now) == [Stamp(record, paymentId, now)];
    rejected := InsertAll(store, Payments, [record], [paymentId], now, f.insert);
    if rejected {
      return;
    }
    var patch := PaidSettlementOf(inv, pay);
    rejected := UpdateEq(store, Invoices, patch, "id", Get(inv, "id"), f.update);
  }

  /** The new payment is appended to the payments table and names the invoice and the amount. */
  lemma RecordAppendsPayment(db: Db, userId: string, inv: Row, pay: real, paymentMethod: string, reference: string,
                             paymentId: string, now: string, update: bool)
    requires Complete(db)
    ensures var r := Recorded(db, Some(userId), Some(inv), pay, paymentMethod, reference, paymentId, now, Quotations.Faults(false, update));
      var n := |db[Payments]|;
      |r[Payments]| == n + 1 && r[Payments][..n] == db[Payments] &&
      Get(r[Payments][n], "invoice_id") == Get(inv, "id") && Get(r[Payments][n], "amount") == Num(pay) &&
      Get(r[Payments][n], "user_id") == Str(userId) && Get(r[Payments][n], "id") == Str(paymentId)
  {
    PaymentRecordFields(userId, Get(inv, "id"), pay, paymentMethod, reference);
  }

  /**
   * The invoices table after recording: rows with another id are untouched;
   * rows with the invoice's id take the settlement, unless a write failed.
   */
  lemma RecordTouchesOnlyThatInvoice(db: Db, userId: string, inv: Row, pay: real, paymentMethod: string, reference: string,
                                     paymentId: string, now: string, f: Quotations.Faults, i: nat)
    requires Complete(db) && i < |db[Invoices]|
    ensures var r := Recorded(db, Some(userId), Some(inv), pay, paymentMethod, reference, paymentId, now, f);
      var row := db[Invoices][i];
      (Get(row, "id") != Get(inv, "id") ==> r[Invoices][i] == row) &&
      (Get(row, "id") == Get(inv, "id") && !f.insert && !f.update ==> r[Invoices][i] == Merge(row, PaidSettlementOf(inv, pay))) &&
      (f.insert || f.update ==> r[Invoices] == db[Invoices])
  {
    MatchesOne(db[Invoices][i], Filter("id", Get(inv, "id"), FilterOp.Eq));
  }

  /** Paying the prefilled amount, when the balance is total minus amount paid, settles the invoice. */
  lemma PayingPrefilledSettles(inv: Row, paid: real, total: real)
    requires Get(inv, "amount_paid") == Num(paid) && Get(inv, "total") == Num(total)
    requires Get(inv, "balance_due") == Num(total - paid)
    ensures var patch := SettlementOf(inv, NumberOr0(Get(inv, "balance_due")));
      Get(patch, "status") == Str("paid") && Get(patch, "balance_due") == Num(0.0) && Get(patch, "amount_paid") == Num(total)
  {
  }

  /** On an invoice with a numeric amount paid, paying a and then b stores what paying a + b at once does. */
  lemma InstallmentsCompose(inv: Row, a: real, b: real)
    requires ToNumber(Get(inv, "amount_paid")).Some?
    ensures SettlementOf(Merge(inv, SettlementOf(inv, a)), b) == SettlementOf(inv, a + b)
  {
    var paid, total := ToNumber(Get(inv, "amount_paid")), ToNumber(Get(inv, "total"));
    var once := Merge(inv, SettlementOf(inv, a));
    MergedSettlement(inv, paid, total, a);
    assert ToNumber(Get(once, "amount_paid")) == Some(paid.value + a);
    SameSettlement(ToNumber(Get(once, "amount_paid")), Some(paid.value + a), ToNumber(Get(once, "total")), total, b);
    SettlementCompose(paid.value, total, a, b);
  }

  /** Merging a settlement into the invoice sets its amount paid and keeps its total. */
  lemma MergedSettlement(inv: Row, paid: Option<real>, total: Option<real>, pay: real)
    ensures var once := Merge(inv, Settlement(paid, total, pay));
      Get(once, "total") == Get(inv, "total") &&
      Get(once, "amount_paid") == Get(Settlement(paid, total, pay), "amount_paid")
  {
    var patch := Settlement(paid, total, pay);
    assert "total" !in patch.Keys;
  }

  lemma SameSettlement(paid: Option<real>, paid': Option<real>, total: Option<real>, total': Option<real>, pay: real)
    requires paid == paid' && total == total'
    ensures Settlement(paid, total, pay) == Settlement(paid', total', pay)
  {
  }

  /** Settling a then b from a numeric amount paid is settling a + b at once. */
  lemma SettlementCompose(paid: real, total: Option<real>, a: real, b: real)
    ensures Settlement(Some(paid + a), total, b) == Settlement(Some(paid), total, a + b)
  {
    assert paid + a + b == paid + (a + b);
  }

  // ---------------------------------------------------------------------
  // Paying a converted invoice
  // ---------------------------------------------------------------------

  /**
   * As written: an invoice without a numeric `amount_paid` (one created by
   * converting a quotation has none) stores null as the amount paid and the
   * balance after its first payment, with status "partial"; the second
   * payment then counts from zero, so the first one is lost.
   */
  lemma FirstPaymentLost(inv: Row, a: real, b: real)
    requires ToNumber(Get(inv, "amount_paid")).None?
    ensures var first := SettlementOf(inv, a);
      Get(first, "amount_paid") == Null && Get(first, "balance_due") == Null && Get(first, "status") == Str("partial")
    ensures Get(SettlementOf(Merge(inv, SettlementOf(inv, a)), b), "amount_paid") == Num(b)
  {
    var once := Merge(inv, SettlementOf(inv, a));
    assert ToNumber(Get(once, "amount_paid")) == Some(0.0);
  }

  /**
   * The payment writes with the patch as written, on an invoice whose
   * `Number(amount_paid)` is NaN: the stored invoice row is left with a null
   * amount paid, a null balance and status "partial".
   */
  lemma AsWrittenPaymentStoresNulls(db: Db, userId: string, inv: Row, pay: real, paymentMethod: string, reference: string,
                                    paymentId: string, now: string, i: nat)
    requires Complete(db) && i < |db[Invoices]|
    requires ToNumber(Get(inv, "amount_paid")).None? && Get(db[Invoices][i], "id") == Get(inv, "id")
    ensures var r := PaymentWrites(db, userId, inv, pay, paymentMethod, reference, paymentId, now, SettlementOf(inv, pay), Quotations.Faults(false, false));
      Get(r[Invoices][i], "amount_paid") == Null && Get(r[Invoices][i], "balance_due") == Null &&
      Get(r[Invoices][i], "status") == Str("partial")
  {
    var patch := SettlementOf(inv, pay);
    FirstPaymentLost(inv, pay, pay);
    MatchesOne(db[Invoices][i], Filter("id", Get(inv, "id"), FilterOp.Eq));
    var r := PaymentWrites(db, userId, inv, pay, paymentMethod, reference, paymentId, now, patch, Quotations.Faults(false, false));
    assert r[Invoices][i] == Merge(db[Invoices][i], patch);
  }

  /** A converted invoice has no `amount_paid`. */
  lemma ConvertedHasNoAmountPaid(userId: string, quotationId: Value, fullQ: Row, number: string, now: string, invoiceId: string)
    ensures ToNumber(Get(Quotations.NewInvoice(userId, quotationId, fullQ, number, now, invoiceId), "amount_paid")).None?
  {
    Quotations.NewInvoiceFields(userId, quotationId, fullQ, number, now, invoiceId);
  }

  /** Corrected: a missing amount paid counts as 0, as the page's display already reads it. */
  function PaidSettlementOf(inv: Row, pay: real): (patch: Row)
    ensures ToNumber(Get(inv, "amount_paid")).Some? ==> patch == SettlementOf(inv, pay)
    ensures Get(patch, "amount_paid") == Num(NumberOr0(Get(inv, "amount_paid")) + pay)
  {
    Settlement(Some(NumberOr0(Get(inv, "amount_paid"))), ToNumber(Get(inv, "total")), pay)
  }

  /** With the correction, installments compose on every invoice. */
  lemma PaidInstallmentsCompose(inv: Row, a: real, b: real)
    ensures PaidSettlementOf(Merge(inv, PaidSettlementOf(inv, a)), b) == PaidSettlementOf(inv, a + b)
  {
    var paid, total := NumberOr0(Get(inv, "amount_paid")), ToNumber(Get(inv, "total"));
    var once := Merge(inv, PaidSettlementOf(inv, a));
    MergedSettlement(inv, Some(paid), total, a);
    assert NumberOr0(Get(once, "amount_paid")) == paid + a;
    SameSettlement(Some(NumberOr0(Get(once, "amount_paid"))), Some(paid + a), ToNumber(Get(once, "total")), total, b);
    SettlementCompose(paid, total, a, b);
  }

  /** With the correction, paying the prefilled balance of a converted invoice settles it. */
  lemma ConvertedPaymentSettles(userId: string, quotationId: Value, fullQ: Row, number: string, now: string,
                                invoiceId: string, total: real)
    requires Get(fullQ, "total") == Num(total)
    ensures var inv := Quotations.NewInvoice(userId, quotationId, fullQ, number, now, invoiceId);
      var patch := PaidSettlementOf(inv, NumberOr0(Get(inv, "balance_due")));
      Get(patch, "status") == Str("paid") && Get(patch, "balance_due") == Num(0.0) && Get(patch, "amount_paid") == Num(total)
  {
    Quotations.NewInvoiceFields(userId, quotationId, fullQ, number, now, invoiceId);
  }

  /**
   * The worked example: an invoice of 2360 with no amount paid yet, paid 1000
   * and then 1360. As written the first payment already stores a null amount
   * paid; with the correction it is "partial" with 1360 due, then "paid".
   */
  lemma WorkedExamplePayments(inv: Row)
    requires Get(inv, "total") == Num(2360.0) && Get(inv, "amount_paid") == Undefined
    ensures Get(SettlementOf(inv, 1000.0), "amount_paid") == Null
    ensures PaidSettlementOf(inv, 1000.0) ==
      map["amount_paid" := Num(1000.0), "balance_due" := Num(1360.0), "status" := Str("partial")]
    ensures var second := PaidSettlementOf(Merge(inv, PaidSettlementOf(inv, 1000.0)), 1360.0);
      Get(second, "amount_paid") == Num(2360.0) && Get(second, "balance_due") == Num(0.0) && Get(second, "status") == Str("paid")
  {
    PaidInstallmentsCompose(inv, 1000.0, 1360.0);
  }

  /** After a conversion the new invoice is the stored invoice with its id, when the id was unused. */
  lemma ConvertedInvoiceStored(db: Db, userId: string, quotationId: Value, year: nat, now: string, invoiceId: string)
    requires Complete(db) && Quotations.FullQuotation(db, quotationId).Some?
    requires forall x :: x in db[Invoices] ==> Get(x, "id") != Str(invoiceId)
    ensures var r := Quotations.ConvertedData(db, Some(userId), quotationId, year, now, invoiceId, Quotations.Faults(false, false));
      StoredInvoice(r, invoiceId) == Some(r[Invoices][|db[Invoices]|])
  {
    var r := Quotations.ConvertedData(db, Some(userId), quotationId, year, now, invoiceId, Quotations.Faults(false, false));
    var n := |db[Invoices]|;
    Quotations.ConversionCreatesInvoice(db, userId, quotationId, year, now, invoiceId, false);
    var f := IdIs(Str(invoiceId));
    MatchesEq("id", Str(invoiceId));
    assert r[Invoices] == db[Invoices] + [r[Invoices][n]];
    FilterRowsAppend(db[Invoices], [r[Invoices][n]], f);
    RemainingNoMatch(db[Invoices], f);
    FilterRowsAllMatch([r[Invoices][n]], f);
  }

  /**
   * Opening an invoice just converted from a quotation shows the invoice,
   * prefills its total as the amount to pay, and shows the quotation's
   * items, since the invoice has none of its own.
   */
  lemma ConvertedInvoiceOpens(db: Db, userId: string, quotationId: Value, year: nat, now: string, invoiceId: string, page: Page)
    requires Complete(db) && Quotations.FullQuotation(db, quotationId).Some? && Truthy(quotationId)
    requires forall x :: x in db[Invoices] ==> Get(x, "id") != Str(invoiceId)
    requires forall x :: x in db[InvoiceItems] ==> Get(x, "invoice_id") != Str(invoiceId)
    ensures var r := Quotations.ConvertedData(db, Some(userId), quotationId, year, now, invoiceId, Quotations.Faults(false, false));
      var next := Fetched(r, invoiceId, page);
      next.invoice.Some? &&
      next.payAmount == NumberOr0(Get(Quotations.FullQuotation(db, quotationId).value, "total")) &&
      next.items == DisplayItems(QuotationBuilder.ItemsOf(db, quotationId))
  {
    var r := Quotations.ConvertedData(db, Some(userId), quotationId, year, now, invoiceId, Quotations.Faults(false, false));
    var n := |db[Invoices]|;
    Quotations.ConversionCreatesInvoice(db, userId, quotationId, year, now, invoiceId, false);
    ConvertedInvoiceStored(db, userId, quotationId, year, now, invoiceId);
    var row := r[Invoices][n];
    FetchedInvoice(r, invoiceId, page);
    var inv := Fetched(r, invoiceId, page).invoice.value;
    assert Get(inv, "quotation_id") == Get(row, "quotation_id") == quotationId;
    assert Get(inv, "balance_due") == Get(row, "balance_due");
    Quotations.ConversionWritesNoItems(db, Some(userId), quotationId, year, now, invoiceId, Quotations.Faults(false, false));
    NoOwnItemsFallBack(r, invoiceId, inv, page.items);
    StarHasNoRelations();
    SelectReadsOwnTable(QuotationItemsQuery(quotationId), r, db);
  }

  /**
   * Converting a quotation, opening the new invoice and paying the amount
   * the page prefills: as written the settlement leaves the invoice
   * "partial" with null amounts; with the correction it is "paid" with
   * nothing due.
   */
  lemma ConvertThenPay(db: Db, userId: string, quotationId: Value, year: nat, now: string, invoiceId: string, page: Page, total: real)
    requires Complete(db) && Quotations.FullQuotation(db, quotationId).Some? && Truthy(quotationId)
    requires Get(Quotations.FullQuotation(db, quotationId).value, "total") == Num(total)
    requires forall x :: x in db[Invoices] ==> Get(x, "id") != Str(invoiceId)
    requires forall x :: x in db[InvoiceItems] ==> Get(x, "invoice_id") != Str(invoiceId)
    ensures var r := Quotations.ConvertedData(db, Some(userId), quotationId, year, now, invoiceId, Quotations.Faults(false, false));
      var next := Fetched(r, invoiceId, page);
      next.invoice.Some? &&
      Get(SettlementOf(next.invoice.value, next.payAmount), "status") == Str("partial") &&
      Get(SettlementOf(next.invoice.value, next.payAmount), "amount_paid") == Null &&
      Get(PaidSettlementOf(next.invoice.value, next.payAmount), "status") == Str("paid") &&
      Get(PaidSettlementOf(next.invoice.value, next.payAmount), "balance_due") == Num(0.0)
  {
    var r := Quotations.ConvertedData(db, Some(userId), quotationId, year, now, invoiceId, Quotations.Faults(false, false));
    var n := |db[Invoices]|;
    Quotations.ConversionCreatesInvoice(db, userId, quotationId, year, now, invoiceId, false);
    ConvertedInvoiceStored(db, userId, quotationId, year, now, invoiceId);
    ConvertedInvoiceOpens(db, userId, quotationId, year, now, invoiceId, page);
    FetchedInvoice(r, invoiceId, page);
    var row := r[Invoices][n];
    var inv := Fetched(r, invoiceId, page).invoice.value;
    assert Get(inv, "amount_paid") == Get(row, "amount_paid") == Undefined;
    assert Get(inv, "total") == Get(row, "total") == Num(total);
  }
}
