/**
 * Converting a quotation into an invoice (src/pages/Quotations.tsx:54-83):
 * count the invoices, fetch the full quotation, insert an invoice that
 * copies its money fields, and mark the quotation converted once that
 * insert has resolved (a rejected await ends the function first).
 */
module Quotations {
  import opened Json
  import opened MockStore
  import Helpers

  /** The quotation fields the invoice copies unchanged. */
  const CopiedFields: set<string> := {"client_id", "event_id", "title", "subtotal", "gst_percentage", "gst_amount", "discount", "total"}

  /** The patch that marks a quotation converted. */
  const ConvertedPatch: Row := map["status" := Str("converted")]

  /** The invoice row carries the quotation's client, event, title and money fields. */
  predicate CopiesQuotation(inv: Row, q: Row) {
    Get(inv, "client_id") == Get(q, "client_id") &&
    Get(inv, "event_id") == Get(q, "event_id") &&
    Get(inv, "title") == Get(q, "title") &&
    Get(inv, "subtotal") == Get(q, "subtotal") &&
    Get(inv, "gst_percentage") == Get(q, "gst_percentage") &&
    Get(inv, "gst_amount") == Get(q, "gst_amount") &&
    Get(inv, "discount") == Get(q, "discount") &&
    Get(inv, "total") == Get(q, "total")
  }

  /**
   * The invoice record (Quotations.tsx:63-76). It copies the quotation's
   * fields, opens with `balance_due = total`, and sets no status, no
   * `amount_paid`, no notes and no terms.
   */
  function InvoiceFromQuotation(userId: string, quotationId: Value, fullQ: Row, number: string): (inv: Row)
    ensures CopiesQuotation(inv, fullQ)
    ensures Get(inv, "balance_due") == Get(fullQ, "total")
    ensures Get(inv, "quotation_id") == quotationId && Get(inv, "invoice_number") == Str(number) && Get(inv, "user_id") == Str(userId)
  {
    var copied := map k | k in CopiedFields :: Get(fullQ, k);
    copied["user_id" := Str(userId)]["quotation_id" := quotationId]["invoice_number" := Str(number)]["balance_due" := Get(fullQ, "total")]
  }

  /** `select("*").eq("id", q.id).single()` on quotations. */
  function FullQuotation(db: Db, quotationId: Value): Option<Row>
    requires Complete(db)
  {
    FirstOf(FilterRows(db[Quotations], IdIs(quotationId)))
  }

  /** The fetched quotation is a stored quotation with that id; nothing is fetched only when there is none. */
  lemma FullQuotationHasId(db: Db, quotationId: Value)
    requires Complete(db)
    ensures var r := FullQuotation(db, quotationId);
      (r.Some? ==> r.value in db[Quotations] && Get(r.value, "id") == quotationId) &&
      (r.None? <==> forall x :: x in db[Quotations] ==> Get(x, "id") != quotationId)
  {
    MatchesEq("id", quotationId);
  }

  /** The fetch step of the conversion reads exactly `FullQuotation`. */
  lemma FetchReadsFullQuotation(db: Db, quotationId: Value)
    requires Complete(db)
    ensures FirstOf(SelectRows(NewQuery(Quotations).(columns := "*", filters := [Filter("id", quotationId, FilterOp.Eq)]), db)) == FullQuotation(db, quotationId)
  {
    StarHasNoRelations();
  }

  /** `await from("quotations").select("*").eq("id", q.id).single()`. */
  method FetchQuotation(store: Store, quotationId: Value) returns (fullQ: Option<Row>)
    requires store.Valid()
    modifies store
    ensures store.Valid() && store.data == old(store.data)
    ensures fullQ == FullQuotation(store.data, quotationId)
  {
    fullQ := SelectOne(store, Quotations, "*", "id", quotationId);
    FetchReadsFullQuotation(store.data, quotationId);
  }

  /** The invoice a conversion stores: the record, stamped with the new id. */
  function NewInvoice(userId: string, quotationId: Value, fullQ: Row, number: string, now: string, invoiceId: string): Row {
    Stamp(InvoiceFromQuotation(userId, quotationId, fullQ, number), invoiceId, now)
  }

  /** Which of the two writes find the storage failing. */
  datatype Faults = Faults(insert: bool, update: bool)

  /** The writes of a conversion once the quotation was found: the invoice, then the status. */
  function ConvertWrites(db: Db, userId: string, quotationId: Value, fullQ: Row, number: string, now: string, invoiceId: string, f: Faults): (r: Db)
    requires Complete(db)
    ensures Complete(r)
    ensures forall t :: t != Invoices && t != Quotations ==> r[t] == db[t]
    ensures f.insert ==> r == db
    ensures |r[Quotations]| == |db[Quotations]|
    ensures r[Invoices] == if f.insert then db[Invoices] else db[Invoices] + [NewInvoice(userId, quotationId, fullQ, number, now, invoiceId)]
  {
    if f.insert then db
    else
      var db1 := WithTable(db, Invoices, db[Invoices] + [NewInvoice(userId, quotationId, fullQ, number, now, invoiceId)]);
      if f.update then db1 else WithTable(db1, Quotations, UpdateRows(db1[Quotations], IdIs(quotationId), ConvertedPatch))
  }

  /** The tables after `convertToInvoice`. */
  function ConvertedData(db: Db, user: Option<string>, quotationId: Value, year: nat, now: string, invoiceId: string, f: Faults): (r: Db)
    requires Complete(db)
    ensures Complete(r)
    ensures forall t :: t != Invoices && t != Quotations ==> r[t] == db[t]
    ensures user.None? || FullQuotation(db, quotationId).None? || f.insert ==> r == db
    ensures |r[Quotations]| == |db[Quotations]|
  {
    if user.None? || FullQuotation(db, quotationId).None? then db
    else
      var number := Helpers.GenerateNumber("INV", year, |db[Invoices]|);
      ConvertWrites(db, user.value, quotationId, FullQuotation(db, quotationId).value, number, now, invoiceId, f)
  }

  /**
   * `convertToInvoice(q)` for the quotation with id `quotationId`; the
   * storage failures of its two writes are given by `f`.
   */
  method ConvertToInvoice(store: Store, user: Option<string>, quotationId: Value, year: nat, now: string, invoiceId: string, f: Faults)
    requires store.Valid()
    modifies store
    ensures store.Valid()
    ensures store.data == ConvertedData(old(store.data), user, quotationId, year, now, invoiceId, f)
  {
    if user.None? {
      return;
    }
    var count := CountRows(store, Invoices);
    var invoiceNumber := Helpers.GenerateNumber("INV", year, count);
    var fullQ := FetchQuotation(store, quotationId);
    if fullQ.None? {
      return;
    }
    WriteConversion(store, user.value, quotationId, fullQ.value, invoiceNumber, now, invoiceId, f);
  }

  /**
   * The insert of the invoice, then the status update. A rejected insert
   * ends the function; a resolved one never carries an error, so the
   * `if (!error)` branch is taken whenever it is reached.
   */
  method WriteConversion(store: Store, userId: string, quotationId: Value, fullQ: Row, number: string, now: string, invoiceId: string, f: Faults)
    requires store.Valid()
    modifies store
    ensures store.Valid()
    ensures store.data == ConvertWrites(old(store.data), userId, quotationId, fullQ, number, now, invoiceId, f)
  {
    var record := InvoiceFromQuotation(userId, quotationId, fullQ, number);
    assert StampAll([record], [invoiceId], now) == [NewInvoice(userId, quotationId, fullQ, number, now, invoiceId)];
    var rejected := InsertAll(store, Invoices, [record], [invoiceId], now, f.insert);
    if !rejected {
      ghost var db1 := store.data;
      assert db1 == WithTable(old(store.data), Invoices, old(store.data)[Invoices] + [NewInvoice(userId, quotationId, fullQ, number, now, invoiceId)]);
      rejected := UpdateEq(store, Quotations, ConvertedPatch, "id", quotationId, f.update);
      assert !f.update ==> store.data == WithTable(db1, Quotations, UpdateRows(db1[Quotations], IdIs(quotationId), ConvertedPatch));
    }
  }

  /** The record names exactly the copied fields and the four the conversion sets. */
  lemma InvoiceFromQuotationKeys(userId: string, quotationId: Value, fullQ: Row, number: string)
    ensures InvoiceFromQuotation(userId, quotationId, fullQ, number).Keys == CopiedFields + {"user_id", "quotation_id", "invoice_number", "balance_due"}
  {
  }

  /**
   * What a converted invoice holds: the quotation's fields, `balance_due`
   * equal to its total, the quotation id, the number and the new id, and no
   * status, `amount_paid`, notes or terms.
   */
  predicate ConvertedInvoice(inv: Row, q: Row, quotationId: Value, number: string, invoiceId: string) {
    CopiesQuotation(inv, q) &&
    Get(inv, "balance_due") == Get(q, "total") &&
    Get(inv, "quotation_id") == quotationId &&
    Get(inv, "invoice_number") == Str(number) &&
    Get(inv, "id") == Str(invoiceId) &&
    "status" !in inv && "amount_paid" !in inv && "notes" !in inv && "terms" !in inv
  }

  lemma NewInvoiceFields(userId: string, quotationId: Value, fullQ: Row, number: string, now: string, invoiceId: string)
    ensures ConvertedInvoice(NewInvoice(userId, quotationId, fullQ, number, now, invoiceId), fullQ, quotationId, number, invoiceId)
  {
    var inv := NewInvoice(userId, quotationId, fullQ, number, now, invoiceId);
    assert CopiesQuotation(inv, fullQ) && Get(inv, "id") == Str(invoiceId) by {
      NewInvoiceCopies(userId, quotationId, fullQ, number, now, invoiceId);
    }
    NewInvoiceOmits(userId, quotationId, fullQ, number, now, invoiceId);
  }

  lemma NewInvoiceCopies(userId: string, quotationId: Value, fullQ: Row, number: string, now: string, invoiceId: string)
    ensures var inv := NewInvoice(userId, quotationId, fullQ, number, now, invoiceId);
      CopiesQuotation(inv, fullQ) && Get(inv, "id") == Str(invoiceId)
  {
  }

  lemma NewInvoiceOmits(userId: string, quotationId: Value, fullQ: Row, number: string, now: string, invoiceId: string)
    ensures var inv := NewInvoice(userId, quotationId, fullQ, number, now, invoiceId);
      "status" !in inv && "amount_paid" !in inv && "notes" !in inv && "terms" !in inv
  {
    NoStatus(userId, quotationId, fullQ, number, now, invoiceId);
    NoAmountPaid(userId, quotationId, fullQ, number, now, invoiceId);
    NoNotes(userId, quotationId, fullQ, number, now, invoiceId);
    NoTerms(userId, quotationId, fullQ, number, now, invoiceId);
  }

  lemma NoStatus(userId: string, quotationId: Value, fullQ: Row, number: string, now: string, invoiceId: string)
    ensures "status" !in NewInvoice(userId, quotationId, fullQ, number, now, invoiceId)
  {
    assert "status" !in InvoiceFromQuotation(userId, quotationId, fullQ, number);
    StampOtherKey(InvoiceFromQuotation(userId, quotationId, fullQ, number), invoiceId, now, "status");
  }

  lemma NoAmountPaid(userId: string, quotationId: Value, fullQ: Row, number: string, now: string, invoiceId: string)
    ensures "amount_paid" !in NewInvoice(userId, quotationId, fullQ, number, now, invoiceId)
  {
    assert "amount_paid" !in InvoiceFromQuotation(userId, quotationId, fullQ, number);
    StampOtherKey(InvoiceFromQuotation(userId, quotationId, fullQ, number), invoiceId, now, "amount_paid");
  }

  lemma NoNotes(userId: string, quotationId: Value, fullQ: Row, number: string, now: string, invoiceId: string)
    ensures "notes" !in NewInvoice(userId, quotationId, fullQ, number, now, invoiceId)
  {
    assert "notes" !in InvoiceFromQuotation(userId, quotationId, fullQ, number);
    StampOtherKey(InvoiceFromQuotation(userId, quotationId, fullQ, number), invoiceId, now, "notes");
  }

  lemma NoTerms(userId: string, quotationId: Value, fullQ: Row, number: string, now: string, invoiceId: string)
    ensures "terms" !in NewInvoice(userId, quotationId, fullQ, number, now, invoiceId)
  {
    assert "terms" !in InvoiceFromQuotation(userId, quotationId, fullQ, number);
    StampOtherKey(InvoiceFromQuotation(userId, quotationId, fullQ, number), invoiceId, now, "terms");
  }

  /**
   * A successful conversion appends one invoice, numbered `INV-<year>-`
   * after the existing invoices, holding what `ConvertedInvoice` says.
   */
  lemma ConversionCreatesInvoice(db: Db, userId: string, quotationId: Value, year: nat, now: string, invoiceId: string, update: bool)
    requires Complete(db) && FullQuotation(db, quotationId).Some?
    ensures var r := ConvertedData(db, Some(userId), quotationId, year, now, invoiceId, Faults(false, update));
      var n := |db[Invoices]|;
      |r[Invoices]| == n + 1 && r[Invoices][..n] == db[Invoices] &&
      ConvertedInvoice(r[Invoices][n], FullQuotation(db, quotationId).value, quotationId, Helpers.GenerateNumber("INV", year, n), invoiceId)
  {
    var q := FullQuotation(db, quotationId).value;
    NewInvoiceFields(userId, quotationId, q, Helpers.GenerateNumber("INV", year, |db[Invoices]|), now, invoiceId);
  }

  /**
   * The quotations table after a conversion whose insert succeeded: a row
   * with the converted id gets status "converted" (only if the update itself
   * did not fail), and every other row is unchanged.
   */
  lemma ConversionMarksOnlyThatQuotation(db: Db, userId: string, quotationId: Value, year: nat, now: string, invoiceId: string, f: Faults, i: nat)
    requires Complete(db) && FullQuotation(db, quotationId).Some? && i < |db[Quotations]|
    ensures var r := ConvertedData(db, Some(userId), quotationId, year, now, invoiceId, f);
      var row := db[Quotations][i];
      (Get(row, "id") != quotationId ==> r[Quotations][i] == row) &&
      (Get(row, "id") == quotationId && !f.insert && !f.update ==> r[Quotations][i] == row["status" := Str("converted")]) &&
      (f.insert || f.update ==> r[Quotations][i] == row)
  {
    var row := db[Quotations][i];
    MatchesOne(row, Filter("id", quotationId, FilterOp.Eq));
    assert Merge(row, ConvertedPatch) == row["status" := Str("converted")];
  }

  /** Conversion writes no invoice items: the displayed items come from the quotation. */
  lemma ConversionWritesNoItems(db: Db, user: Option<string>, quotationId: Value, year: nat, now: string, invoiceId: string, f: Faults)
    requires Complete(db)
    ensures ConvertedData(db, user, quotationId, year, now, invoiceId, f)[InvoiceItems] == db[InvoiceItems]
    ensures ConvertedData(db, user, quotationId, year, now, invoiceId, f)[QuotationItems] == db[QuotationItems]
  {
  }
}
