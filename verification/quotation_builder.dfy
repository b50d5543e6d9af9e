/**
 * The quotation editor (src/pages/QuotationBuilder.tsx): line items whose
 * amount follows quantity and rate, the totals derived from them, and the
 * sequence of store calls that saves a quotation with its items.
 */
module QuotationBuilder {
  import opened Json
  import opened MockStore
  import Helpers

  /** One editor row; `id` is set only for rows loaded from the store. */
  datatype LineItem = LineItem(id: Option<string>, description: string, quantity: real, unit: string, rate: real, amount: real)

  /** The row `addItem` appends, and the one the editor starts with. */
  const BlankItem := LineItem(None, "", 1.0, "nos", 0.0, 0.0)

  /** The amount of a row is its quantity times its rate. */
  predicate Priced(item: LineItem) {
    item.amount == item.quantity * item.rate
  }

  predicate AllPriced(items: seq<LineItem>) {
    forall i :: 0 <= i < |items| ==> Priced(items[i])
  }

  // ---------------------------------------------------------------------
  // Totals (QuotationBuilder.tsx:46-48)
  // ---------------------------------------------------------------------

  /** `items.reduce((s, i) => s + i.amount, 0)`, folding from the left. */
  function Subtotal(items: seq<LineItem>): (s: real)
    ensures items == [] ==> s == 0.0
  {
    if items == [] then 0.0 else Subtotal(items[..|items| - 1]) + items[|items| - 1].amount
  }

  /** The subtotal of two runs of items is the sum of their subtotals. */
  lemma {:induction false} SubtotalAppend(a: seq<LineItem>, b: seq<LineItem>)
    ensures Subtotal(a + b) == Subtotal(a) + Subtotal(b)
    decreases |b|
  {
    if b == [] {
      assert a + b == a;
    } else {
      var b' := b[..|b| - 1];
      assert (a + b)[..|a + b| - 1] == a + b';
      SubtotalAppend(a, b');
    }
  }

  /** `(subtotal - discount) * (gstPercentage / 100)`. */
  function GstAmount(subtotal: real, discount: real, gstPercentage: real): real {
    (subtotal - discount) * (gstPercentage / 100.0)
  }

  /**
   * `subtotal - discount + gstAmount`: the discounted base scaled by the tax
   * rate. Nothing is clamped, so a discount above the subtotal gives a
   * negative total.
   */
  function Total(subtotal: real, discount: real, gstPercentage: real): (t: real)
    ensures t == (subtotal - discount) * (1.0 + gstPercentage / 100.0)
    ensures t - GstAmount(subtotal, discount, gstPercentage) == subtotal - discount
    ensures discount > subtotal && gstPercentage > -100.0 ==> t < 0.0
  {
    TotalScales(subtotal, discount, gstPercentage);
    subtotal - discount + GstAmount(subtotal, discount, gstPercentage)
  }

  lemma TotalScales(subtotal: real, discount: real, gstPercentage: real)
    ensures subtotal - discount + GstAmount(subtotal, discount, gstPercentage) == (subtotal - discount) * (1.0 + gstPercentage / 100.0)
    ensures discount > subtotal && gstPercentage > -100.0 ==> (subtotal - discount) * (1.0 + gstPercentage / 100.0) < 0.0
  {
    ScaledSum(subtotal - discount, gstPercentage / 100.0);
    NegativeBaseNegativeTotal(subtotal - discount, 1.0 + gstPercentage / 100.0);
  }

  lemma ScaledSum(base: real, rate: real)
    ensures base + base * rate == base * (1.0 + rate)
  {
  }

  lemma NegativeBaseNegativeTotal(base: real, factor: real)
    ensures base < 0.0 && factor > 0.0 ==> base * factor < 0.0
  {
  }

  // ---------------------------------------------------------------------
  // Editing the rows (QuotationBuilder.tsx:69-79)
  // ---------------------------------------------------------------------

  /** The value `updateItem` writes into one field of a row. */
  datatype Edit =
    | Description(text: string)
    | Quantity(value: real)
    | Unit(text: string)
    | Rate(value: real)

  /**
   * `updateItem(index, field, value)`: copies the rows, sets the field of
   * row `index`, and recomputes its amount when quantity or rate changed.
   */
  method UpdateItem(items: seq<LineItem>, index: nat, e: Edit) returns (updated: seq<LineItem>)
    requires index < |items|
    ensures |updated| == |items|
    ensures forall j :: 0 <= j < |items| && j != index ==> updated[j] == items[j]
    ensures e.Description? ==> updated[index] == items[index].(description := e.text)
    ensures e.Unit? ==> updated[index] == items[index].(unit := e.text)
    ensures e.Quantity? ==> updated[index] == items[index].(quantity := e.value, amount := e.value * items[index].rate)
    ensures e.Rate? ==> updated[index] == items[index].(rate := e.value, amount := items[index].quantity * e.value)
    ensures e.Quantity? || e.Rate? ==> Priced(updated[index])
    ensures AllPriced(items) ==> AllPriced(updated)
  {
    var a := new LineItem[|items|];
    for k := 0 to |items|
      invariant forall j :: 0 <= j < k ==> a[j] == items[j]
    {
      a[k] := items[k];
    }
    var item := a[index];
    match e {
      case Description(text) => item := item.(description := text);
      case Quantity(value) => item := item.(quantity := value);
      case Unit(text) => item := item.(unit := text);
      case Rate(value) => item := item.(rate := value);
    }
    if e.Quantity? || e.Rate? {
      item := item.(amount := item.quantity * item.rate);
    }
    a[index] := item;
    updated := a[..];
  }

  /** `addItem`: one blank row at the end; the subtotal does not move. */
  function AddItem(items: seq<LineItem>): (r: seq<LineItem>)
    ensures |r| == |items| + 1 && r[..|items|] == items && r[|items|] == BlankItem
    ensures Subtotal(r) == Subtotal(items)
    ensures AllPriced(items) ==> AllPriced(r)
  {
    assert (items + [BlankItem])[..|items|] == items;
    items + [BlankItem]
  }

  /** `items.filter((_, i) => i !== index)`, folding from the left. */
  function RemoveItem(items: seq<LineItem>, index: int): (r: seq<LineItem>)
    ensures 0 <= index < |items| ==> r == items[..index] + items[index + 1..]
    ensures !(0 <= index < |items|) ==> r == items
  {
    if items == [] then []
    else
      var n := |items| - 1;
      var kept := RemoveItem(items[..n], index);
      assert items[..n] + [items[n]] == items;
      if index == n then kept
      else
        assert 0 <= index < n ==> items[..n][..index] == items[..index] && items[..n][index + 1..] + [items[n]] == items[index + 1..];
        kept + [items[n]]
  }

  /** Removing a row takes exactly its amount off the subtotal. */
  lemma RemoveItemSubtotal(items: seq<LineItem>, index: int)
    requires 0 <= index < |items|
    ensures Subtotal(RemoveItem(items, index)) == Subtotal(items) - items[index].amount
  {
    var before, removed, after := items[..index], [items[index]], items[index + 1..];
    SubtotalAppend(before, after);
    SubtotalAppend(removed, after);
    SubtotalOne(items[index]);
    SubtotalAppend(before, removed + after);
    SplitAt(items, index);
  }

  lemma SplitAt(items: seq<LineItem>, index: nat)
    requires index < |items|
    ensures items == items[..index] + ([items[index]] + items[index + 1..])
  {
    assert items[index..] == [items[index]] + items[index + 1..];
    assert items == items[..index] + items[index..];
  }

  lemma SubtotalOne(item: LineItem)
    ensures Subtotal([item]) == item.amount
  {
    assert [item][..0] == [];
  }

  /** Removing a row keeps every remaining amount equal to quantity times rate. */
  lemma RemoveItemKeepsPriced(items: seq<LineItem>, index: int)
    requires AllPriced(items)
    ensures AllPriced(RemoveItem(items, index))
  {
    var r := RemoveItem(items, index);
    if 0 <= index < |items| {
      forall j | 0 <= j < |r| ensures Priced(r[j]) {
        if j < index {
          assert r[j] == items[j];
        } else {
          assert r[j] == items[j + 1];
        }
      }
    }
  }

  // ---------------------------------------------------------------------
  // Saving (QuotationBuilder.tsx:33, 81-124)
  // ---------------------------------------------------------------------

  /** `!!id && id !== "new"`: the route names an existing quotation. */
  predicate IsEdit(routeId: Option<string>) {
    routeId.Some? && routeId.value != "" && routeId.value != "new"
  }

  /** The editor's form state. */
  datatype Draft = Draft(
    title: string,
    clientId: string,
    eventId: string,
    gstPercentage: real,
    discount: real,
    notes: string,
    terms: string,
    items: seq<LineItem>)

  /** The form a new quotation opens with (QuotationBuilder.tsx:35-42). */
  const NewDraft := Draft("", "", "", 18.0, 0.0, "", "Payment within 30 days of invoice date.", [BlankItem])

  /** `value || null` for a select box. */
  function OrNull(s: string): (v: Value)
    ensures s == "" ==> v == Null
    ensures s != "" ==> v == Str(s)
  {
    if s == "" then Null else Str(s)
  }

  /** `quotationData`: the header fields, with the totals computed from the rows. */
  function QuotationData(userId: string, d: Draft): (row: Row)
    ensures "id" !in row && "created_at" !in row && "quotation_number" !in row && "status" !in row
  {
    var sub := Subtotal(d.items);
    map[
      "user_id" := Str(userId),
      "title" := Str(d.title),
      "client_id" := OrNull(d.clientId),
      "event_id" := OrNull(d.eventId),
      "subtotal" := Num(sub),
      "gst_percentage" := Num(d.gstPercentage),
      "gst_amount" := Num(GstAmount(sub, d.discount, d.gstPercentage)),
      "discount" := Num(d.discount),
      "total" := Num(Total(sub, d.discount, d.gstPercentage)),
      "notes" := Str(d.notes),
      "terms" := Str(d.terms)]
  }

  /** The stored header's totals agree with each other and with its rows. */
  lemma HeaderTotalsConsistent(userId: string, d: Draft)
    ensures var row := QuotationData(userId, d);
      row["subtotal"] == Num(Subtotal(d.items)) &&
      row["total"].n == (row["subtotal"].n - row["discount"].n) * (1.0 + row["gst_percentage"].n / 100.0) &&
      row["total"].n - row["gst_amount"].n == row["subtotal"].n - row["discount"].n
  {
  }

  /** Row i of the items payload stores item i of the editor under the quotation. */
  predicate StoresItem(row: Row, quotationId: Value, item: LineItem, i: nat) {
    Get(row, "quotation_id") == quotationId &&
    Get(row, "description") == Str(item.description) &&
    Get(row, "quantity") == Num(item.quantity) &&
    Get(row, "unit") == Str(item.unit) &&
    Get(row, "rate") == Num(item.rate) &&
    Get(row, "amount") == Num(item.amount) &&
    Get(row, "sort_order") == Num(i as real)
  }

  /** `itemsPayload`: every editor row in order, numbered by its position. */
  function ItemsPayload(quotationId: Value, items: seq<LineItem>): (rows: seq<Row>)
    ensures |rows| == |items|
    ensures forall i :: 0 <= i < |items| ==> StoresItem(rows[i], quotationId, items[i], i) && "id" !in rows[i]
  {
    seq(|items|, i requires 0 <= i < |items| =>
      map[
        "quotation_id" := quotationId,
        "description" := Str(items[i].description),
        "quantity" := Num(items[i].quantity),
        "unit" := Str(items[i].unit),
        "rate" := Num(items[i].rate),
        "amount" := Num(items[i].amount),
        "sort_order" := Num(i as real)])
  }

  /** Which of the save's writes find the storage failing. */
  datatype Faults = Faults(header: bool, clear: bool, items: bool)

  const NoFaults := Faults(false, false, false)

  /** The quotation the items are saved under: the route id, or the new row's id. */
  function SavedId(routeId: Option<string>, headerId: string): Value {
    if IsEdit(routeId) then Str(routeId.value) else Str(headerId)
  }

  function QuotationIs(v: Value): seq<Filter> {
    [Filter("quotation_id", v, FilterOp.Eq)]
  }

  /** The new header: the form fields plus the number made from the row count. */
  function NewHeader(userId: string, d: Draft, year: nat, count: nat): Row {
    QuotationData(userId, d)["quotation_number" := Str(Helpers.GenerateNumber("QT", year, count))]
  }

  /**
   * The header writes of an editing save: update the header, then delete the
   * quotation's rows. A rejected update ends the save before the delete.
   */
  function EditWrites(db: Db, quotationId: Value, header: Row, f: Faults): (r: Db)
    requires Complete(db)
    ensures Complete(r)
    ensures forall t :: t != Quotations && t != QuotationItems ==> r[t] == db[t]
    ensures |r[Quotations]| == |db[Quotations]|
    ensures f.header ==> r == db
    ensures f.clear ==> r[QuotationItems] == db[QuotationItems]
  {
    if f.header then db
    else
      var db1 := db[Quotations := UpdateRows(db[Quotations], IdIs(quotationId), header)];
      if f.clear then db1 else db1[QuotationItems := Remaining(db1[QuotationItems], QuotationIs(quotationId))]
  }

  /** The header insert of a new save: the numbered header, stamped with the new id. */
  function CreateWrites(db: Db, userId: string, d: Draft, year: nat, now: string, headerId: string): (r: Db)
    requires Complete(db)
    ensures Complete(r)
    ensures forall t :: t != Quotations ==> r[t] == db[t]
    ensures |r[Quotations]| == |db[Quotations]| + 1 && r[Quotations][..|db[Quotations]|] == db[Quotations]
  {
    var rows := db[Quotations] + [Stamp(NewHeader(userId, d, year, |db[Quotations]|), headerId, now)];
    assert rows[..|db[Quotations]|] == db[Quotations];
    db[Quotations := rows]
  }

  /** The items insert: the payload rows appended to `quotation_items`, unless storage fails. */
  function ItemWrites(db: Db, quotationId: Value, items: seq<LineItem>, itemIds: seq<string>, now: string, fails: bool): (r: Db)
    requires Complete(db) && |itemIds| >= |items|
    ensures Complete(r)
    ensures forall t :: t != QuotationItems ==> r[t] == db[t]
  {
    if fails then db else db[QuotationItems := db[QuotationItems] + StampAll(ItemsPayload(quotationId, items), itemIds, now)]
  }

  /**
   * The tables after `handleSave`. An editing save updates the header,
   * deletes the quotation's old rows and inserts the new ones; a new save
   * counts the quotations, inserts the numbered header and inserts the rows
   * under the new id. A write whose await rejects ends the save there.
   */
  function SavedData(db: Db, user: Option<string>, routeId: Option<string>, d: Draft, year: nat,
                     now: string, headerId: string, itemIds: seq<string>, f: Faults): (r: Db)
    requires Complete(db) && |itemIds| >= |d.items|
    ensures Complete(r)
    ensures forall t :: t != Quotations && t != QuotationItems ==> r[t] == db[t]
    ensures user.None? || d.title == "" ==> r == db
    ensures f.header ==> r == db
    ensures IsEdit(routeId) && f.clear ==> r[QuotationItems] == db[QuotationItems]
    ensures IsEdit(routeId) ==> |r[Quotations]| == |db[Quotations]|
    ensures user.Some? && d.title != "" && !IsEdit(routeId) && !f.header ==>
      r[Quotations] == CreateWrites(db, user.value, d, year, now, headerId)[Quotations]
  {
    if user.None? || d.title == "" then db
    else
      var stopped := f.header || (IsEdit(routeId) && f.clear);
      ItemWrites(HeaderWrites(db, user.value, routeId, d, year, now, headerId, f), SavedId(routeId, headerId), d.items, itemIds, now, stopped || f.items)
  }

  /** The writes before the items insert: update and clear on an edit, the numbered insert otherwise. */
  function HeaderWrites(db: Db, userId: string, routeId: Option<string>, d: Draft, year: nat,
                        now: string, headerId: string, f: Faults): (r: Db)
    requires Complete(db)
    ensures Complete(r)
    ensures forall t :: t != Quotations && t != QuotationItems ==> r[t] == db[t]
    ensures f.header ==> r == db
    ensures IsEdit(routeId) && f.clear ==> r[QuotationItems] == db[QuotationItems]
    ensures !IsEdit(routeId) && !f.header ==> r == CreateWrites(db, userId, d, year, now, headerId)
  {
    if IsEdit(routeId) then EditWrites(db, SavedId(routeId, headerId), QuotationData(userId, d), f)
    else if f.header then db
    else CreateWrites(db, userId, d, year, now, headerId)
  }

  /**
   * `handleSave`: the guard on user and title, then the writes in order.
   * The storage failures the writes meet are given by `f`.
   */
  method HandleSave(store: Store, user: Option<string>, routeId: Option<string>, d: Draft, year: nat,
                    now: string, headerId: string, itemIds: seq<string>, f: Faults)
    requires store.Valid() && |itemIds| >= |d.items|
    modifies store
    ensures store.Valid()
    ensures store.data == SavedData(old(store.data), user, routeId, d, year, now, headerId, itemIds, f)
  {
    if user.None? || d.title == "" {
      return;
    }
    var header := QuotationData(user.value, d);
    var quotationId: Value;
    if IsEdit(routeId) {
      quotationId := Str(routeId.value);
      var rejected := UpdateEq(store, Quotations, header, "id", quotationId, f.header);
      if rejected {
        return;
      }
      rejected := DeleteEq(store, QuotationItems, "quotation_id", quotationId, f.clear);
      if rejected {
        return;
      }
    } else {
      var count := CountRows(store, Quotations);
      var number := Helpers.GenerateNumber("QT", year, count);
      var created := InsertOne(store, Quotations, header["quotation_number" := Str(number)], "id", headerId, now, f.header);
      if created.None? {
        return;
      }
      quotationId := Get(created.value, "id");
    }
    var rejected := InsertAll(store, QuotationItems, ItemsPayload(quotationId, d.items), itemIds, now, f.items);
  }

  // ---------------------------------------------------------------------
  // What a save leaves in the store
  // ---------------------------------------------------------------------

  /** The items query of the editor (QuotationBuilder.tsx:63). */
  function ItemsOf(db: Db, quotationId: Value): seq<Row>
    requires Complete(db)
  {
    SelectRows(ChildQuery(QuotationItems, "quotation_id", quotationId, "sort_order"), db)
  }

  /** Rows numbered 0, 1, 2, ... are in ascending `sort_order`. */
  lemma PayloadSorted(quotationId: Value, items: seq<LineItem>, ids: seq<string>, now: string)
    requires |ids| >= |items|
    ensures Sorted(StampAll(ItemsPayload(quotationId, items), ids, now), "sort_order", true)
  {
    var rows := StampAll(ItemsPayload(quotationId, items), ids, now);
    forall i, j | 0 <= i < j < |rows| ensures !Before(rows[j], rows[i], "sort_order", true) {
      PayloadPairInOrder(quotationId, items, ids, now, i, j);
    }
  }

  lemma PayloadPairInOrder(quotationId: Value, items: seq<LineItem>, ids: seq<string>, now: string, i: nat, j: nat)
    requires |ids| >= |items| && i < j < |items|
    ensures var rows := StampAll(ItemsPayload(quotationId, items), ids, now);
      !Before(rows[j], rows[i], "sort_order", true)
  {
    StampedSortOrder(quotationId, items, ids, now, i);
    StampedSortOrder(quotationId, items, ids, now, j);
  }

  /** Stamped payload row i keeps `sort_order = i`. */
  lemma StampedSortOrder(quotationId: Value, items: seq<LineItem>, ids: seq<string>, now: string, i: nat)
    requires |ids| >= |items| && i < |items|
    ensures Get(StampAll(ItemsPayload(quotationId, items), ids, now)[i], "sort_order") == Num(i as real)
  {
    var payload := ItemsPayload(quotationId, items);
    assert StoresItem(payload[i], quotationId, items[i], i);
    assert StampAll(payload, ids, now)[i] == Stamp(payload[i], ids[i], now);
  }

  /** The stamped payload rows: each stays under the quotation and keeps its item's fields. */
  lemma StampedPayload(quotationId: Value, items: seq<LineItem>, itemIds: seq<string>, now: string)
    requires |itemIds| >= |items|
    ensures var added := StampAll(ItemsPayload(quotationId, items), itemIds, now);
      forall i :: 0 <= i < |added| ==> StoresItem(added[i], quotationId, items[i], i)
  {
    var payload := ItemsPayload(quotationId, items);
    var added := StampAll(payload, itemIds, now);
    forall i | 0 <= i < |added| ensures StoresItem(added[i], quotationId, items[i], i) {
      var row := payload[i];
      assert added[i] == Stamp(row, itemIds[i], now);
      assert StoresItem(row, quotationId, items[i], i);
    }
  }

  /** Every stamped payload row belongs to the quotation. */
  lemma PayloadUnderQuotation(quotationId: Value, items: seq<LineItem>, itemIds: seq<string>, now: string)
    requires |itemIds| >= |items|
    ensures forall x :: x in StampAll(ItemsPayload(quotationId, items), itemIds, now) ==> Get(x, "quotation_id") == quotationId
  {
    var added := StampAll(ItemsPayload(quotationId, items), itemIds, now);
    StampedPayload(quotationId, items, itemIds, now);
    forall x | x in added ensures Get(x, "quotation_id") == quotationId {
      var i :| 0 <= i < |added| && added[i] == x;
      assert StoresItem(added[i], quotationId, items[i], i);
    }
  }

  /** Appending the payload under a quotation that owned no rows: reading back gives the editor's rows. */
  lemma ItemWritesReadBack(db: Db, quotationId: Value, items: seq<LineItem>, itemIds: seq<string>, now: string)
    requires Complete(db) && |itemIds| >= |items|
    requires forall x :: x in db[QuotationItems] ==> Get(x, "quotation_id") != quotationId
    ensures var back := ItemsOf(ItemWrites(db, quotationId, items, itemIds, now, false), quotationId);
      |back| == |items| && forall i :: 0 <= i < |items| ==> StoresItem(back[i], quotationId, items[i], i)
  {
    var r := ItemWrites(db, quotationId, items, itemIds, now, false);
    var added := StampAll(ItemsPayload(quotationId, items), itemIds, now);
    assert r[QuotationItems] == db[QuotationItems] + added;
    PayloadUnderQuotation(quotationId, items, itemIds, now);
    PayloadSorted(quotationId, items, itemIds, now);
    ChildQueryReadsAppended(QuotationItems, "quotation_id", quotationId, "sort_order", r, db[QuotationItems], added);
    assert ItemsOf(r, quotationId) == added;
    StampedPayload(quotationId, items, itemIds, now);
  }

  /**
   * After a save with no storage failure, the items stored under the saved
   * quotation, read back in `sort_order`, are the editor's rows in order:
   * row i holds item i with `sort_order = i`. On an edit the old rows are
   * gone; a new quotation's id must not already own rows.
   */
  lemma SavedItemsReadBack(db: Db, user: Option<string>, routeId: Option<string>, d: Draft, year: nat,
                           now: string, headerId: string, itemIds: seq<string>)
    requires Complete(db) && |itemIds| >= |d.items|
    requires user.Some? && d.title != ""
    requires !IsEdit(routeId) ==> forall x :: x in db[QuotationItems] ==> Get(x, "quotation_id") != Str(headerId)
    ensures var back := ItemsOf(SavedData(db, user, routeId, d, year, now, headerId, itemIds, NoFaults), SavedId(routeId, headerId));
      |back| == |d.items| &&
      forall i :: 0 <= i < |d.items| ==> StoresItem(back[i], SavedId(routeId, headerId), d.items[i], i)
  {
    var qid := SavedId(routeId, headerId);
    var written := HeaderWrites(db, user.value, routeId, d, year, now, headerId, NoFaults);
    HeaderWritesLeaveNoItems(db, user.value, routeId, d, year, now, headerId);
    SavedDataWithoutFaults(db, user.value, routeId, d, year, now, headerId, itemIds);
    ItemWritesReadBack(written, qid, d.items, itemIds, now);
  }

  /** Without storage failures a save is its header writes followed by the full items insert. */
  lemma SavedDataWithoutFaults(db: Db, userId: string, routeId: Option<string>, d: Draft, year: nat,
                               now: string, headerId: string, itemIds: seq<string>)
    requires Complete(db) && |itemIds| >= |d.items| && d.title != ""
    ensures SavedData(db, Some(userId), routeId, d, year, now, headerId, itemIds, NoFaults) ==
      ItemWrites(HeaderWrites(db, userId, routeId, d, year, now, headerId, NoFaults), SavedId(routeId, headerId), d.items, itemIds, now, false)
  {
  }

  /** Before the items insert, the saved quotation owns no rows: an edit has just deleted them. */
  lemma HeaderWritesLeaveNoItems(db: Db, userId: string, routeId: Option<string>, d: Draft, year: nat, now: string, headerId: string)
    requires Complete(db)
    requires !IsEdit(routeId) ==> forall x :: x in db[QuotationItems] ==> Get(x, "quotation_id") != Str(headerId)
    ensures forall x :: x in HeaderWrites(db, userId, routeId, d, year, now, headerId, NoFaults)[QuotationItems] ==>
      Get(x, "quotation_id") != SavedId(routeId, headerId)
  {
    var qid := SavedId(routeId, headerId);
    var written := HeaderWrites(db, userId, routeId, d, year, now, headerId, NoFaults);
    if IsEdit(routeId) {
      assert written[QuotationItems] == Remaining(db[QuotationItems], QuotationIs(qid));
      MatchesEq("quotation_id", qid);
    } else {
      assert written[QuotationItems] == db[QuotationItems];
    }
  }

  /** The items insert leaves the items of every other quotation as they were. */
  lemma ItemWritesKeepOtherItems(db: Db, quotationId: Value, items: seq<LineItem>, itemIds: seq<string>, now: string, fails: bool, other: Value)
    requires Complete(db) && |itemIds| >= |items| && other != quotationId
    ensures FilterRows(ItemWrites(db, quotationId, items, itemIds, now, fails)[QuotationItems], QuotationIs(other))
         == FilterRows(db[QuotationItems], QuotationIs(other))
  {
    if !fails {
      var g := QuotationIs(other);
      var added := StampAll(ItemsPayload(quotationId, items), itemIds, now);
      PayloadUnderQuotation(quotationId, items, itemIds, now);
      MatchesEq("quotation_id", other);
      FilterRowsNoMatch(added, g);
      FilterRowsAppend(db[QuotationItems], added, g);
      AppendNothing(FilterRows(db[QuotationItems], g));
    }
  }

  /** A save never changes which items belong to another quotation. */
  lemma SaveKeepsOtherItems(db: Db, user: Option<string>, routeId: Option<string>, d: Draft, year: nat,
                            now: string, headerId: string, itemIds: seq<string>, f: Faults, other: Value)
    requires Complete(db) && |itemIds| >= |d.items|
    requires other != SavedId(routeId, headerId)
    ensures var r := SavedData(db, user, routeId, d, year, now, headerId, itemIds, f);
      FilterRows(r[QuotationItems], QuotationIs(other)) == FilterRows(db[QuotationItems], QuotationIs(other))
  {
    if user.Some? && d.title != "" {
      var written := HeaderWrites(db, user.value, routeId, d, year, now, headerId, f);
      HeaderWritesKeepOtherItems(db, user.value, routeId, d, year, now, headerId, f, other);
      var stopped := f.header || (IsEdit(routeId) && f.clear) || f.items;
      ItemWritesKeepOtherItems(written, SavedId(routeId, headerId), d.items, itemIds, now, stopped, other);
    }
  }

  /** The header writes leave the items of every quotation but the saved one. */
  lemma HeaderWritesKeepOtherItems(db: Db, userId: string, routeId: Option<string>, d: Draft, year: nat,
                                   now: string, headerId: string, f: Faults, other: Value)
    requires Complete(db) && other != SavedId(routeId, headerId)
    ensures FilterRows(HeaderWrites(db, userId, routeId, d, year, now, headerId, f)[QuotationItems], QuotationIs(other))
         == FilterRows(db[QuotationItems], QuotationIs(other))
  {
    if IsEdit(routeId) {
      EditWritesKeepOtherItems(db, SavedId(routeId, headerId), QuotationData(userId, d), f, other);
    }
  }

  /** Clearing one quotation's items leaves every other quotation's items. */
  lemma EditWritesKeepOtherItems(db: Db, quotationId: Value, header: Row, f: Faults, other: Value)
    requires Complete(db) && other != quotationId
    ensures FilterRows(EditWrites(db, quotationId, header, f)[QuotationItems], QuotationIs(other))
         == FilterRows(db[QuotationItems], QuotationIs(other))
  {
    if !f.header && !f.clear {
      assert EditWrites(db, quotationId, header, f)[QuotationItems] == Remaining(db[QuotationItems], QuotationIs(quotationId));
      DistinctEqFilters("quotation_id", quotationId, other);
      FilterRowsAfterDisjointDelete(db[QuotationItems], QuotationIs(quotationId), QuotationIs(other));
    }
  }

  /** Editing updates only the header whose id is in the route; every other quotation is kept. */
  lemma EditTouchesOnlyItsHeader(db: Db, user: Option<string>, routeId: Option<string>, d: Draft, year: nat,
                                 now: string, headerId: string, itemIds: seq<string>, f: Faults, i: nat)
    requires Complete(db) && |itemIds| >= |d.items|
    requires IsEdit(routeId) && i < |db[Quotations]|
    ensures var r := SavedData(db, user, routeId, d, year, now, headerId, itemIds, f);
      (Get(db[Quotations][i], "id") != Str(routeId.value) ==> r[Quotations][i] == db[Quotations][i]) &&
      (Get(db[Quotations][i], "id") == Str(routeId.value) && user.Some? && d.title != "" && !f.header ==>
         r[Quotations][i] == Merge(db[Quotations][i], QuotationData(user.value, d)))
  {
    var qid := Str(routeId.value);
    MatchesOne(db[Quotations][i], Filter("id", qid, FilterOp.Eq));
    if user.Some? && d.title != "" {
      var header := QuotationData(user.value, d);
      var written := HeaderWrites(db, user.value, routeId, d, year, now, headerId, f);
      assert written == EditWrites(db, qid, header, f);
      assert written[Quotations] == if f.header then db[Quotations] else UpdateRows(db[Quotations], IdIs(qid), header);
    }
  }

  /** A title of blanks is not rejected: the new quotation is written. */
  lemma BlankTitleIsSaved(db: Db, userId: string, d: Draft, year: nat, now: string, headerId: string, itemIds: seq<string>)
    requires Complete(db) && |itemIds| >= |d.items| && d.title == "   "
    ensures |SavedData(db, Some(userId), None, d, year, now, headerId, itemIds, NoFaults)[Quotations]| == |db[Quotations]| + 1
  {
  }

  /** The header of a new quotation carries the next number, the new id and the form's totals. */
  lemma NewHeaderNumbered(db: Db, userId: string, d: Draft, year: nat, now: string, headerId: string)
    requires Complete(db)
    ensures var row := CreateWrites(db, userId, d, year, now, headerId)[Quotations][|db[Quotations]|];
      Get(row, "quotation_number") == Str(Helpers.GenerateNumber("QT", year, |db[Quotations]|)) &&
      Get(row, "id") == Str(headerId) && Get(row, "created_at") == Str(now) &&
      Get(row, "title") == Str(d.title) && Get(row, "total") == Num(Total(Subtotal(d.items), d.discount, d.gstPercentage))
  {
    var h := NewHeader(userId, d, year, |db[Quotations]|);
    NewHeaderFields(userId, d, year, |db[Quotations]|);
    assert CreateWrites(db, userId, d, year, now, headerId)[Quotations][|db[Quotations]|] == Stamp(h, headerId, now);
  }

  /** The header before stamping: no id or creation time yet, the number, title and total set. */
  lemma NewHeaderFields(userId: string, d: Draft, year: nat, count: nat)
    ensures var h := NewHeader(userId, d, year, count);
      Get(h, "id") == Undefined && Get(h, "created_at") == Undefined &&
      Get(h, "quotation_number") == Str(Helpers.GenerateNumber("QT", year, count)) &&
      Get(h, "title") == Str(d.title) && Get(h, "total") == Num(Total(Subtotal(d.items), d.discount, d.gstPercentage))
  {
    var q := QuotationData(userId, d);
    assert Get(q, "title") == q["title"] && Get(q, "total") == q["total"];
  }

  /** The worked example: 2 x 500 and 1 x 1000 at 18% GST with no discount. */
  lemma WorkedExampleTotals()
    ensures var items := [LineItem(None, "Decor", 2.0, "nos", 500.0, 1000.0), LineItem(None, "Sound", 1.0, "nos", 1000.0, 1000.0)];
      Subtotal(items) == 2000.0 && GstAmount(2000.0, 0.0, 18.0) == 360.0 && Total(2000.0, 0.0, 18.0) == 2360.0
  {
    var items := [LineItem(None, "Decor", 2.0, "nos", 500.0, 1000.0), LineItem(None, "Sound", 1.0, "nos", 1000.0, 1000.0)];
    assert items[..1][..0] == [];
  }
}
