# Golden Quill Events: a verified model of the bookkeeping core

This project models the logic of an events business's bookkeeping app in
Dafny: quotations with line items and GST totals, their conversion into
invoices, payments recorded against invoices, the dashboard figures, the
client-side table search and document numbering. It also models the
in-memory table store that every page reads and writes through.

Modules, one per source file:

- `Json` (`json.dfy`): JavaScript values as rows hold them.
  - `undefined`, `null`, booleans, exact real numbers, strings, arrays and objects.
  - `Number(...)`, with NaN as `None`.
  - the `|| 0` fallback that reads NaN as 0.
  - How a NaN reads back from the stored JSON text (as `null`).
- `MockStore` (`mock_store.dfy`): the store of `src/integrations/supabase/client.ts`.
  - `Store` is a class holding one `seq<Row>` per table.
  - `QueryBuilder` is a class whose chained methods update its fields.
  - Its `Then` dispatches to `ExecuteInsert`, `ExecuteUpdate`, `ExecuteDelete` or `ExecuteSelect`.
  - Each of these is proved against pure functions (`ExecData`, `ExecResponse`, `SelectRows`) over a snapshot of all tables.
  - The page-level awaited calls (`CountRows`, `SelectOne`, `InsertOne`, `UpdateEq`, ...) chain the builder methods as the pages do.
- `Helpers` (`supabase_helpers.dfy`): `generateNumber` and the empty-date guard of `formatDate`.
- `QuotationBuilder` (`quotation_builder.dfy`): the editor's totals and the row edits (`UpdateItem` is a method over a copied sequence).
  - `HandleSave` is the ordered sequence of store calls.
- `Quotations` (`quotations.dfy`): `convertToInvoice` as a method over the store.
- `InvoiceDetail` (`invoice_detail.dfy`): `fetchData` and the item fallback, plus `recordPayment`.
- `Dashboard` (`dashboard.dfy`): `fetchStats`.
- `TableSearch` (`table_search.dfy`): the `filtered` value of `useTableSearch`.

Every workflow method is specified as "the tables afterwards equal a pure
function of the tables before" (`SavedData`, `ConvertedData`, `Recorded`).
The lemmas then state, over those functions, what the pages promise:
- which rows change;
- what the new rows hold;
- what reads back afterwards.

Storage failures are modelled explicitly. Each write of a workflow takes a
flag saying whether `saveData` throws for it. The store's `then` catches the
exception and calls `reject` when the caller passed one, which every `await`
does; only a one-argument `.then(cb)` call gets `{ data: null, error }`
back. So a failed write rejects the awaited call and the page function
stops there: an editing save stops before the delete or before the items
insert, and `recordPayment` does not reload the page. The mock never
resolves a write with an error, so the pages' `if (error)` branches are
never taken and `if (!error)` always is.

## Model

| member | source | states |
|---|---|---|
| `Json.Get` | src/integrations/supabase/client.ts:153 | reading an absent field gives `undefined`, a present one its stored value |
| `Json.ToNumber` | src/pages/InvoiceDetail.tsx:96-97 | `Number(v)` is the number itself for numbers and NaN for `undefined` |
| `Json.StoredNumber` | src/integrations/supabase/client.ts:61-63 | a NaN written to the store reads back as `null`, which `Number` reads as 0 |
| `Json.NumberOr0` | src/pages/Dashboard.tsx:43 | `Number(v)`, falling back to 0, is the number for numbers and 0 whenever `Number` gives NaN |
| `MockStore.TableNamed` | src/integrations/supabase/client.ts:231 | a relation name refers to a table exactly when it is one of the seven table keys |
| `MockStore.WithTable` | src/integrations/supabase/client.ts:176 | replacing one table leaves every other table as it was |
| `MockStore.MatchesIff` | src/integrations/supabase/client.ts:152-156 | a row matches iff every eq/neq filter holds; with no filters every row matches |
| `MockStore.MatchesOne` | src/integrations/supabase/client.ts:216-222 | a single filter is matched exactly when it holds |
| `MockStore.MatchesEq` | src/integrations/supabase/client.ts:106-109 | `.eq(column, v)` matches exactly the rows whose column is strictly equal to v |
| `MockStore.DistinctEqFilters` | src/integrations/supabase/client.ts:153 | no row matches `.eq` on one column with two different values |
| `MockStore.CountMatching` | src/integrations/supabase/client.ts:149-161 | the number of matching rows never exceeds the table size |
| `MockStore.FilterRows` | src/integrations/supabase/client.ts:216-222 | the select keeps exactly the matching rows, as many as match |
| `MockStore.FilterRowsAllMatch` | src/integrations/supabase/client.ts:216-222 | when every row matches, the whole table is selected in order |
| `MockStore.FilterRowsNoMatch` | src/integrations/supabase/client.ts:216-222 | when no row matches, nothing is selected |
| `MockStore.FilterRowsAppend` | src/integrations/supabase/client.ts:216-222 | filtering keeps table order: it distributes over concatenation |
| `MockStore.Stamp` | src/integrations/supabase/client.ts:170-174 | a truthy supplied `id`/`created_at` is kept, a missing or falsy one is assigned; no other field changes |
| `MockStore.StampOtherKey` | src/integrations/supabase/client.ts:171 | stamping adds no field other than `id` and `created_at` |
| `MockStore.StampAll` | src/integrations/supabase/client.ts:170-174 | the i-th inserted record is stamped with the i-th fresh id |
| `MockStore.InsertRows` | src/integrations/supabase/client.ts:176 | insert appends the stamped records after the unchanged existing rows |
| `MockStore.Merge` | src/integrations/supabase/client.ts:199 | in `{ ...item, ...patch }` the patch's fields win and every other field is kept |
| `MockStore.UpdateRows` | src/integrations/supabase/client.ts:191-204 | update keeps length and order, merges each matching row and leaves the others |
| `MockStore.UpdatedRows` | src/integrations/supabase/client.ts:189-200 | the returned `updated` array has one entry per matching row |
| `MockStore.MergeEach` | src/integrations/supabase/client.ts:199 | every row of the input merged with the patch, in order |
| `MockStore.UpdatedRowsAreMergedMatches` | src/integrations/supabase/client.ts:189-207 | the returned rows are exactly the matching rows, each merged, in table order |
| `MockStore.Remaining` | src/integrations/supabase/client.ts:151-158 | delete keeps exactly the non-matching rows, and removes as many as match |
| `MockStore.RemainingAppend` | src/integrations/supabase/client.ts:151-158 | delete keeps the relative order of the remaining rows |
| `MockStore.RemainingNoMatch` | src/integrations/supabase/client.ts:151-158 | a delete that matches nothing leaves the table as it was |
| `MockStore.FilterRowsAfterDisjointDelete` | src/integrations/supabase/client.ts:151-158 | deleting rows that a later select could not match does not change that select |
| `MockStore.WordEnd` | src/integrations/supabase/client.ts:226 | `\w+` consumes the longest run of word characters |
| `MockStore.CloseParen` | src/integrations/supabase/client.ts:226 | `[^)]+\)` stops at the first `)` |
| `MockStore.RelationNames` | src/integrations/supabase/client.ts:226-228 | the relation patterns of a column list are non-empty words |
| `MockStore.RelationNamesOfOneCall` | src/integrations/supabase/client.ts:226-228 | a column list with one `name(args)` call embeds exactly `name` |
| `MockStore.NoParenNoRelations` | src/integrations/supabase/client.ts:226 | a column list with no `(` embeds nothing |
| `MockStore.StarHasNoRelations` | src/integrations/supabase/client.ts:226 | `select("*")` embeds nothing |
| `MockStore.ForeignKey` | src/integrations/supabase/client.ts:229 | the foreign key is the table name with one trailing `s` dropped, then `_id` |
| `MockStore.FindById` | src/integrations/supabase/client.ts:235 | `find` returns a related row with that id, or nothing when none has it |
| `MockStore.EmbedRow` | src/integrations/supabase/client.ts:232-239 | only the relation field is added; it holds a related row whose id equals the key, and is `null` iff the key is falsy or unmatched |
| `MockStore.EmbedOne` | src/integrations/supabase/client.ts:231-240 | embedding keeps the row count and skips names that are not tables |
| `MockStore.EmbedOneKeepsFields` | src/integrations/supabase/client.ts:236-238 | embedding a relation changes no field except the one named after it |
| `MockStore.EmbedAll` | src/integrations/supabase/client.ts:227-241 | applying every pattern in turn keeps the row count |
| `MockStore.EmbedAllOne` | src/integrations/supabase/client.ts:227-241 | one pattern means one embedding step |
| `MockStore.InsertSorted` | src/integrations/supabase/client.ts:245-251 | one insertion step of the sort adds exactly that row |
| `MockStore.SortRows` | src/integrations/supabase/client.ts:244-252 | ordering is a permutation of the filtered rows |
| `MockStore.SortRowsMembers` | src/integrations/supabase/client.ts:244-252 | ordering keeps exactly the rows it is given |
| `MockStore.SortRowsLength` | src/integrations/supabase/client.ts:244-252 | ordering keeps the number of rows |
| `MockStore.StrLessTotal` | src/integrations/supabase/client.ts:248-249 | string `<` is a strict total order |
| `MockStore.StrLessTransitive` | src/integrations/supabase/client.ts:248 | string `<` is transitive |
| `MockStore.StrLessIrreflexive` | src/integrations/supabase/client.ts:248 | no string is `<` itself |
| `MockStore.NotLessTransitive` | src/integrations/supabase/client.ts:248-250 | among same-kind keys, "not less" is transitive, as a stable sort needs |
| `MockStore.JsLessAsymmetric` | src/integrations/supabase/client.ts:248-249 | the comparator never puts a before b and b before a |
| `MockStore.InsertSortedSorted` | src/integrations/supabase/client.ts:245-251 | inserting into ordered rows with same-kind keys keeps them ordered |
| `MockStore.SortedBeforeLast` | src/integrations/supabase/client.ts:245-251 | a row that sorts before the last keeps that last row at the end |
| `MockStore.SortedAfterLast` | src/integrations/supabase/client.ts:245-251 | appending a row that does not sort before the last keeps the order |
| `MockStore.SortRowsSorted` | src/integrations/supabase/client.ts:244-252 | with same-kind keys, no row ends up behind one it sorts before (ascending unless `false`) |
| `MockStore.SortRowsKeepsSorted` | src/integrations/supabase/client.ts:244-252 | the sort is stable: rows already in order are left as they are |
| `MockStore.SliceTo` | src/integrations/supabase/client.ts:254-257 | `slice(0, n)` keeps a prefix of length n, counting a negative n from the end |
| `MockStore.SelectResponse` | src/integrations/supabase/client.ts:259-268 | a select never reports an error |
| `MockStore.ExecData` | src/integrations/supabase/client.ts:271-290 | an awaited query changes only its own table, and nothing when the save fails |
| `MockStore.ExecResponse` | src/integrations/supabase/client.ts:271-290 | a query that writes nothing never reports an error |
| `MockStore.ChildQueryRows` | src/integrations/supabase/client.ts:210-257 | `select("*").eq(c, v).order(o)` is the matching rows, sorted |
| `MockStore.FilterAppendedChildren` | src/integrations/supabase/client.ts:216-222 | rows appended under a parent that owned none are exactly its rows |
| `MockStore.ChildQueryReadsAppended` | src/integrations/supabase/client.ts:210-257 | reading back rows appended in order under a new parent gives exactly those rows |
| `MockStore.SelectReadsOwnTable` | src/integrations/supabase/client.ts:210-257 | a select that embeds nothing depends only on its own table |
| `MockStore.CountQueryCountsTable` | src/integrations/supabase/client.ts:259-262 | the count/head form with no filter reports the table's length |
| `MockStore.DeleteCountsRemoved` | src/integrations/supabase/client.ts:147-162 | delete's count plus the rows kept equals the rows before |
| `MockStore.DefaultData` | src/integrations/supabase/client.ts:19-35 | the seed has three clients and three events, and every other table is empty |
| `MockStore.LoadTable` | src/integrations/supabase/client.ts:44-49 | a stored array is kept, a missing table takes the seed rows, a non-array becomes `[]` |
| `MockStore.GetData` | src/integrations/supabase/client.ts:38-58 | after loading, every known table holds an array |
| `MockStore.EveryTableListed` | src/integrations/supabase/client.ts:45 | the loop over table keys visits every table |
| `MockStore.Store.Load` | src/integrations/supabase/client.ts:38-58 | the loop that fixes each table key yields exactly `GetData` |
| `MockStore.QueryBuilder.From` | src/integrations/supabase/client.ts:90-93 | a fresh builder has no filters, selects `*`, orders nothing and writes nothing |
| `MockStore.QueryBuilder.Select` | src/integrations/supabase/client.ts:95-104 | sets the column list; the count and head options only switch their flags on |
| `MockStore.QueryBuilder.Eq` | src/integrations/supabase/client.ts:106-109 | appends one eq filter and changes nothing else |
| `MockStore.QueryBuilder.Neq` | src/integrations/supabase/client.ts:111-114 | appends one neq filter and changes nothing else |
| `MockStore.QueryBuilder.Order` | src/integrations/supabase/client.ts:116-120 | sets the order column; descending only for an explicit `ascending: false` |
| `MockStore.QueryBuilder.Limit` | src/integrations/supabase/client.ts:122-125 | sets the limit and changes nothing else |
| `MockStore.QueryBuilder.Single` | src/integrations/supabase/client.ts:127-130 | sets the single flag and changes nothing else |
| `MockStore.QueryBuilder.Insert` | src/integrations/supabase/client.ts:132-135 | records the pending insert and changes nothing else |
| `MockStore.QueryBuilder.Update` | src/integrations/supabase/client.ts:137-140 | records the pending patch and changes nothing else |
| `MockStore.QueryBuilder.Delete` | src/integrations/supabase/client.ts:142-145 | marks the delete pending and changes nothing else |
| `MockStore.QueryBuilder.ExecuteDelete` | src/integrations/supabase/client.ts:147-162 | the table keeps its non-matching rows; the count is the number of matching rows |
| `MockStore.QueryBuilder.ExecuteInsert` | src/integrations/supabase/client.ts:164-183 | appends the stamped records; returns the first of them for `single`, else all of them |
| `MockStore.QueryBuilder.ExecuteUpdate` | src/integrations/supabase/client.ts:185-208 | the loop leaves the table as `UpdateRows` and returns the merged matches |
| `MockStore.QueryBuilder.ExecuteSelect` | src/integrations/supabase/client.ts:210-269 | the loop over relation patterns yields the filter-embed-order-limit pipeline, then count, single or list |
| `MockStore.QueryBuilder.Then` | src/integrations/supabase/client.ts:271-290 | runs insert if pending, else update, else delete, else select; a failing save changes nothing and rejects exactly when a `reject` was given, otherwise resolves with the error |
| `MockStore.FirstOf` | src/integrations/supabase/client.ts:264-266 | `single()` gives the first result row, or nothing when there is none |
| `MockStore.CountRows` | src/pages/QuotationBuilder.tsx:104 | the count query reports the table's row count and writes nothing |
| `MockStore.SelectOne` | src/pages/Quotations.tsx:60 | `.eq(...).single()` gives the first matching row and writes nothing |
| `MockStore.SelectChildren` | src/pages/InvoiceDetail.tsx:57 | an ordered child select gives the child query's rows and writes nothing |
| `MockStore.SelectAll` | src/pages/Dashboard.tsx:38-39 | a plain select gives the select pipeline's rows and writes nothing |
| `MockStore.InsertAll` | src/pages/QuotationBuilder.tsx:121 | appends the stamped records, or changes nothing and the await rejects |
| `MockStore.InsertOne` | src/pages/QuotationBuilder.tsx:106 | the created row is the stamped record, appended; on failure the await rejects and nothing changes |
| `MockStore.UpdateEq` | src/pages/Quotations.tsx:79 | merges the patch into exactly the rows whose column equals v; on failure the await rejects and nothing changes |
| `MockStore.DeleteEq` | src/pages/QuotationBuilder.tsx:102 | removes exactly the rows whose column equals v; on failure the await rejects and nothing changes |
| `Helpers.DigitChar` | src/lib/supabase-helpers.ts:28 | each digit's character has that digit's value |
| `Helpers.DecimalString` | src/lib/supabase-helpers.ts:28 | `String(n)` is non-empty decimal digits with no leading zero |
| `Helpers.ParseDecimalString` | src/lib/supabase-helpers.ts:28 | reading `String(n)` back gives n |
| `Helpers.DecimalStringLength` | src/lib/supabase-helpers.ts:28 | a number below 10^k has at most k digits |
| `Helpers.PadStart4` | src/lib/supabase-helpers.ts:28 | `padStart(4, "0")` only adds leading zeros, up to length 4 |
| `Helpers.StripZerosPadding` | src/lib/supabase-helpers.ts:28 | stripping the padding zeros gives back the unpadded digits |
| `Helpers.SequenceShape` | src/lib/supabase-helpers.ts:28 | the sequence part is all digits, at least 4 of them, exactly 4 when count+1 < 10000 |
| `Helpers.SequenceParses` | src/lib/supabase-helpers.ts:28 | stripping the leading zeros and parsing the sequence gives count+1 |
| `Helpers.CountCharAppend` | src/lib/supabase-helpers.ts:28 | hyphens of a concatenation add up |
| `Helpers.GenerateNumberHyphens` | src/lib/supabase-helpers.ts:26-29 | a number has exactly two more hyphens than its prefix |
| `Helpers.SequenceOfGenerated` | src/lib/supabase-helpers.ts:26-29 | decoding a number with a known prefix and year gives back count+1 |
| `Helpers.GenerateNumberInjective` | src/lib/supabase-helpers.ts:26-29 | for one prefix and year, different counts give different numbers |
| `Helpers.FifthNumber` | src/lib/supabase-helpers.ts:28 | with count 4 the sequence is `0005` |
| `Helpers.FormatDate` | src/lib/supabase-helpers.ts:17-24 | a null or empty date shows as `-`; any other goes to the locale formatter |
| `QuotationBuilder.Subtotal` | src/pages/QuotationBuilder.tsx:46 | the subtotal of no items is 0; `SubtotalOne` and `SubtotalAppend` make it the sum of the amounts |
| `QuotationBuilder.SubtotalOne` | src/pages/QuotationBuilder.tsx:46 | the subtotal of one item is its amount |
| `QuotationBuilder.SubtotalAppend` | src/pages/QuotationBuilder.tsx:46 | the subtotal of two runs of items is the sum of their subtotals |
| `QuotationBuilder.Total` | src/pages/QuotationBuilder.tsx:47-48 | total is the discounted base scaled by 1 + GST/100 and exceeds the base by the GST amount; with no clamping, a discount above the subtotal gives a negative total |
| `QuotationBuilder.TotalScales` | src/pages/QuotationBuilder.tsx:47-48 | `subtotal - discount + gstAmount` factors as base × (1 + rate) |
| `QuotationBuilder.UpdateItem` | src/pages/QuotationBuilder.tsx:69-76 | only row `index` changes; quantity or rate edits set amount = quantity × rate; description or unit edits keep the amount; priced rows stay priced |
| `QuotationBuilder.AddItem` | src/pages/QuotationBuilder.tsx:78 | appends the blank row `{"", 1, "nos", 0, 0}`, keeps the rows and the subtotal |
| `QuotationBuilder.RemoveItem` | src/pages/QuotationBuilder.tsx:79 | removes exactly row `index`, keeping the others in order; an out-of-range index removes nothing |
| `QuotationBuilder.RemoveItemSubtotal` | src/pages/QuotationBuilder.tsx:79 | removing a row takes exactly its amount off the subtotal |
| `QuotationBuilder.RemoveItemKeepsPriced` | src/pages/QuotationBuilder.tsx:79 | removing a row keeps every amount equal to quantity × rate |
| `QuotationBuilder.OrNull` | src/pages/QuotationBuilder.tsx:87-88 | an empty selection is stored as `null` |
| `QuotationBuilder.QuotationData` | src/pages/QuotationBuilder.tsx:84-96 | the header carries no id, creation time, number or status |
| `QuotationBuilder.HeaderTotalsConsistent` | src/pages/QuotationBuilder.tsx:84-96 | the stored subtotal is the items' sum, and the stored total and GST agree with it |
| `QuotationBuilder.ItemsPayload` | src/pages/QuotationBuilder.tsx:111-119 | row i stores item i under the quotation with `sort_order = i`, and has no id |
| `QuotationBuilder.EditWrites` | src/pages/QuotationBuilder.tsx:100-102 | an editing save touches only quotations and their items and keeps the number of quotations; a rejected update writes nothing more, a rejected delete leaves the items |
| `QuotationBuilder.CreateWrites` | src/pages/QuotationBuilder.tsx:104-108 | a new save appends one quotation after the unchanged existing ones |
| `QuotationBuilder.ItemWrites` | src/pages/QuotationBuilder.tsx:121 | the items insert touches only the items table |
| `QuotationBuilder.HeaderWrites` | src/pages/QuotationBuilder.tsx:100-109 | the writes before the items insert touch only quotations and their items; a rejected first write (update or insert) writes nothing; a new save is the numbered insert |
| `QuotationBuilder.SavedData` | src/pages/QuotationBuilder.tsx:81-121 | no user or an empty title writes nothing; a rejected header update or insert stops the save with nothing written; a rejected delete leaves the items untouched; a new save adds one quotation |
| `QuotationBuilder.HandleSave` | src/pages/QuotationBuilder.tsx:81-124 | the method's writes, returning at the first rejected await, leave the tables as `SavedData` |
| `QuotationBuilder.PayloadSorted` | src/pages/QuotationBuilder.tsx:111-121 | the stored payload is in ascending `sort_order` |
| `QuotationBuilder.StampedSortOrder` | src/pages/QuotationBuilder.tsx:118 | stored row i keeps `sort_order = i` |
| `QuotationBuilder.StampedPayload` | src/pages/QuotationBuilder.tsx:111-121 | each stored row holds its editor item under the quotation |
| `QuotationBuilder.PayloadUnderQuotation` | src/pages/QuotationBuilder.tsx:112 | every stored row belongs to the saved quotation |
| `QuotationBuilder.ItemWritesReadBack` | src/pages/QuotationBuilder.tsx:111-121 | reading back the items of a quotation that owned none gives the editor's rows in order |
| `QuotationBuilder.HeaderWritesLeaveNoItems` | src/pages/QuotationBuilder.tsx:101-102 | before the items insert, the saved quotation owns no item rows |
| `QuotationBuilder.SavedItemsReadBack` | src/pages/QuotationBuilder.tsx:101-121 | after a save, the saved quotation's items read back as the editor's rows in order, row i with `sort_order = i`; an edit's old rows are gone |
| `QuotationBuilder.SavedDataWithoutFaults` | src/pages/QuotationBuilder.tsx:100-121 | without failures a save is the header writes followed by the full items insert |
| `QuotationBuilder.ItemWritesKeepOtherItems` | src/pages/QuotationBuilder.tsx:121 | the items insert leaves every other quotation's items |
| `QuotationBuilder.EditWritesKeepOtherItems` | src/pages/QuotationBuilder.tsx:102 | clearing one quotation's items leaves every other quotation's items |
| `QuotationBuilder.HeaderWritesKeepOtherItems` | src/pages/QuotationBuilder.tsx:100-109 | the header writes leave every other quotation's items |
| `QuotationBuilder.SaveKeepsOtherItems` | src/pages/QuotationBuilder.tsx:81-121 | a save never changes which items belong to another quotation |
| `QuotationBuilder.EditTouchesOnlyItsHeader` | src/pages/QuotationBuilder.tsx:101 | an edit merges the header into the quotation with the route id only |
| `QuotationBuilder.BlankTitleIsSaved` | src/pages/QuotationBuilder.tsx:82 | a title of blanks is not rejected: the quotation is written |
| `QuotationBuilder.NewHeaderNumbered` | src/pages/QuotationBuilder.tsx:104-108 | a new header carries `QT-<year>-` + the padded row count + 1, the new id and the form's total |
| `QuotationBuilder.NewHeaderFields` | src/pages/QuotationBuilder.tsx:105-106 | before stamping, the header has a number and no id or creation time |
| `QuotationBuilder.WorkedExampleTotals` | src/pages/QuotationBuilder.tsx:46-48 | 2 × 500 and 1 × 1000 at 18% give subtotal 2000, GST 360, total 2360 |
| `Quotations.InvoiceFromQuotation` | src/pages/Quotations.tsx:63-76 | the invoice copies client, event, title and money fields verbatim, with `balance_due = total` |
| `Quotations.InvoiceFromQuotationKeys` | src/pages/Quotations.tsx:63-76 | the record has exactly the copied fields plus user, quotation id, number and balance |
| `Quotations.FullQuotationHasId` | src/pages/Quotations.tsx:60-61 | the fetched quotation is a stored one with that id; none is fetched only when none exists |
| `Quotations.FetchReadsFullQuotation` | src/pages/Quotations.tsx:60 | the fetch step reads the first stored quotation with that id |
| `Quotations.FetchQuotation` | src/pages/Quotations.tsx:60 | the method fetches `FullQuotation` and writes nothing |
| `Quotations.ConvertWrites` | src/pages/Quotations.tsx:63-79 | the invoice is appended unless its insert fails, in which case nothing changes; only invoices and quotations change |
| `Quotations.ConvertedData` | src/pages/Quotations.tsx:54-83 | no user, no quotation found, or a failed insert writes nothing |
| `Quotations.ConvertToInvoice` | src/pages/Quotations.tsx:54-83 | the method's count, fetch, insert and conditional update leave the tables as `ConvertedData` |
| `Quotations.WriteConversion` | src/pages/Quotations.tsx:63-79 | the status update runs only when the insert's await did not reject |
| `Quotations.NewInvoiceFields` | src/pages/Quotations.tsx:63-76 | the stored invoice copies the quotation and has `balance_due = total`, the number and the new id |
| `Quotations.NewInvoiceCopies` | src/pages/Quotations.tsx:66-75 | the stored invoice copies the quotation's money fields |
| `Quotations.NewInvoiceOmits` | src/pages/Quotations.tsx:63-76 | the stored invoice has no status, `amount_paid`, notes or terms |
| `Quotations.NoStatus` | src/pages/Quotations.tsx:63-76 | the stored invoice has no status |
| `Quotations.NoAmountPaid` | src/pages/Quotations.tsx:63-76 | the stored invoice has no `amount_paid` |
| `Quotations.NoNotes` | src/pages/Quotations.tsx:63-76 | the stored invoice has no notes |
| `Quotations.NoTerms` | src/pages/Quotations.tsx:63-76 | the stored invoice has no terms |
| `Quotations.ConversionCreatesInvoice` | src/pages/Quotations.tsx:56-76 | a conversion whose insert succeeds appends one invoice numbered `INV-<year>-` + padded count + 1 |
| `Quotations.ConversionMarksOnlyThatQuotation` | src/pages/Quotations.tsx:78-79 | only quotations with the converted id become "converted", and only when both writes succeed |
| `Quotations.ConversionWritesNoItems` | src/pages/Quotations.tsx:63-76 | conversion writes no invoice items and leaves quotation items |
| `InvoiceDetail.DisplayItem` | src/pages/InvoiceDetail.tsx:60-66 | the shown unit is always truthy: the stored unit when truthy, else "nos" |
| `InvoiceDetail.DisplayItems` | src/pages/InvoiceDetail.tsx:60-76 | one shown item per row, in order |
| `InvoiceDetail.DisplayStoredItem` | src/pages/InvoiceDetail.tsx:60-66 | an item saved by the quotation editor shows the editor's values |
| `InvoiceDetail.StoredInvoiceHasId` | src/pages/InvoiceDetail.tsx:51 | the stored invoice found is one with that id, and none is found only if none exists |
| `InvoiceDetail.InvoiceColumnsEmbedClients` | src/pages/InvoiceDetail.tsx:51 | the invoice select embeds exactly the `clients` relation |
| `InvoiceDetail.InvoiceSelectEmbeds` | src/pages/InvoiceDetail.tsx:51 | the invoice select is the filtered invoices with the client embedded |
| `InvoiceDetail.InvoiceSelectKeepsFields` | src/pages/InvoiceDetail.tsx:51 | the loaded invoice keeps every stored field except `clients` |
| `InvoiceDetail.FetchedInvoice` | src/pages/InvoiceDetail.tsx:51-54 | loading finds the stored invoice and prefills `Number(balance_due)`, falling back to 0; with none, the invoice, items and amount stay |
| `InvoiceDetail.FetchedPayments` | src/pages/InvoiceDetail.tsx:79-80 | the payments shown are exactly the stored payments of that invoice |
| `InvoiceDetail.OwnItemsShown` | src/pages/InvoiceDetail.tsx:57-66 | when the invoice has items of its own, they are what is shown, in `sort_order` |
| `InvoiceDetail.NoOwnItemsFallBack` | src/pages/InvoiceDetail.tsx:67-77 | with no own items, a truthy `quotation_id` shows that quotation's items; otherwise the shown items are kept |
| `InvoiceDetail.FetchData` | src/pages/InvoiceDetail.tsx:50-81 | the method's reads give the page `Fetched` and write nothing |
| `InvoiceDetail.Mount` | src/pages/InvoiceDetail.tsx:83 | the page loads only with a user and a non-empty id |
| `InvoiceDetail.PaymentRecordFields` | src/pages/InvoiceDetail.tsx:87-93 | the payment names the invoice, the amount and the user, and carries no id yet |
| `InvoiceDetail.MaxZero` | src/pages/InvoiceDetail.tsx:100 | `Math.max(0, x)` is never negative, is x or 0, and keeps NaN |
| `InvoiceDetail.Settlement` | src/pages/InvoiceDetail.tsx:96-100 | amount paid grows by the payment; the balance is `max(0, total - newPaid)`; "paid" iff nothing remains due, else "partial"; NaN is stored as `null` |
| `InvoiceDetail.PaymentWrites` | src/pages/InvoiceDetail.tsx:87-100 | a failed payment insert changes nothing; only payments and invoices change |
| `InvoiceDetail.Recorded` | src/pages/InvoiceDetail.tsx:85-100 | corrected: settles with `PaidSettlementOf`; no user, no loaded invoice or a rejected insert writes nothing |
| `InvoiceDetail.RecordPayment` | src/pages/InvoiceDetail.tsx:85-104 | corrected: the writes leave the tables as `Recorded`; the page is reloaded only when neither await rejected, and kept otherwise |
| `InvoiceDetail.WritePayment` | src/pages/InvoiceDetail.tsx:87-100 | corrected: writes the `PaidSettlementOf` patch; the invoice update runs only when the payment insert did not reject, and it reports whether either rejected |
| `InvoiceDetail.RecordAppendsPayment` | src/pages/InvoiceDetail.tsx:87-93 | one payment is appended after the existing ones, naming the invoice and amount |
| `InvoiceDetail.RecordTouchesOnlyThatInvoice` | src/pages/InvoiceDetail.tsx:94-100 | corrected: only invoices with the loaded id are settled, with `PaidSettlementOf`; a rejected write leaves the invoices as they were |
| `InvoiceDetail.PayingPrefilledSettles` | src/pages/InvoiceDetail.tsx:54-100 | paying the prefilled balance of a consistent invoice makes it "paid" with 0 due |
| `InvoiceDetail.InstallmentsCompose` | src/pages/InvoiceDetail.tsx:96-100 | with a numeric amount paid, paying a then b stores what paying a + b does |
| `InvoiceDetail.MergedSettlement` | src/pages/InvoiceDetail.tsx:100 | the settled invoice keeps its total and takes the new amount paid |
| `InvoiceDetail.SettlementCompose` | src/pages/InvoiceDetail.tsx:96-98 | settling a and then b is settling a + b |
| `InvoiceDetail.AsWrittenPaymentStoresNulls` | src/pages/InvoiceDetail.tsx:96-100 | as written, the payment writes on an invoice with no numeric amount paid leave its row with null amount paid, null balance and "partial" |
| `InvoiceDetail.FirstPaymentLost` | src/pages/InvoiceDetail.tsx:96-100 | as written, with no numeric amount paid, the first payment stores null amounts and "partial", and the second counts from 0 |
| `InvoiceDetail.ConvertedHasNoAmountPaid` | src/pages/Quotations.tsx:63-76 | a converted invoice's `Number(amount_paid)` is NaN |
| `InvoiceDetail.PaidSettlementOf` | src/pages/InvoiceDetail.tsx:96-100 | corrected: a NaN amount paid is read as 0; it agrees with the original whenever that is a number |
| `InvoiceDetail.PaidInstallmentsCompose` | src/pages/InvoiceDetail.tsx:96-100 | corrected: installments compose on every invoice |
| `InvoiceDetail.ConvertedPaymentSettles` | src/pages/InvoiceDetail.tsx:54-100 | corrected: paying a converted invoice's prefilled balance makes it "paid" with 0 due |
| `InvoiceDetail.WorkedExamplePayments` | src/pages/InvoiceDetail.tsx:96-100 | on a 2360 invoice, paying 1000 leaves 1360 "partial" and then paying 1360 makes it "paid" |
| `InvoiceDetail.ConvertedInvoiceStored` | src/pages/Quotations.tsx:63-76 | after a conversion the new invoice is the stored invoice with its id |
| `InvoiceDetail.ConvertedInvoiceOpens` | src/pages/InvoiceDetail.tsx:50-77 | opening a just-converted invoice prefills its total and shows the quotation's items |
| `InvoiceDetail.ConvertThenPay` | src/pages/InvoiceDetail.tsx:96-100 | convert, open and pay: as written "partial" with null amount paid; corrected "paid" with 0 due |
| `Dashboard.OpenInvoices` | src/pages/Dashboard.tsx:45 | keeps exactly the invoices whose status is neither "paid" nor "cancelled" |
| `Dashboard.RevenueAppend` | src/pages/Dashboard.tsx:43 | revenue adds up over runs of payments |
| `Dashboard.SumDueAppend` | src/pages/Dashboard.tsx:46 | the fold of dues adds up over runs of invoices |
| `Dashboard.OpenInvoicesAppend` | src/pages/Dashboard.tsx:45 | the status filter distributes over concatenation |
| `Dashboard.PendingAppend` | src/pages/Dashboard.tsx:44-46 | pending amounts add up over runs of invoices |
| `Dashboard.ClosedAddsNothing` | src/pages/Dashboard.tsx:45 | a paid or cancelled invoice adds nothing to the pending amount |
| `Dashboard.OpenAddsDue` | src/pages/Dashboard.tsx:44-46 | an open invoice adds exactly `total - amount_paid`; an overpaid one lowers the pending amount |
| `Dashboard.PendingOne` | src/pages/Dashboard.tsx:44-46 | one invoice adds its due when open and nothing otherwise |
| `Dashboard.PendingIsOwed` | src/pages/Dashboard.tsx:44-46 | filter-then-fold equals summing each invoice's due when open |
| `Dashboard.TableCount` | src/pages/Dashboard.tsx:50-52 | the count of a count query, 0 when missing, is the table's row count |
| `Dashboard.ReadAll` | src/pages/Dashboard.tsx:42-43 | the data of a plain select, `[]` when missing, is the whole table |
| `Dashboard.StatsColumnsEmbedNothing` | src/pages/Dashboard.tsx:38-39 | the invoice and payment column lists embed no relation |
| `Dashboard.WholeTableRead` | src/pages/Dashboard.tsx:38-39 | a select with no filter, order, limit or relation returns the whole table |
| `Dashboard.FetchedStats` | src/pages/Dashboard.tsx:42-54 | the counts are the row counts; `totalInvoices` is the number of invoices; revenue and pending are the folds |
| `Dashboard.FetchStats` | src/pages/Dashboard.tsx:30-58 | without a user the figures stay; with one they are `FetchedStats`; nothing is written |
| `Dashboard.PaymentRaisesRevenue` | src/pages/InvoiceDetail.tsx:87-93 | recording a payment raises the revenue by exactly its amount |
| `TableSearch.TrimStart` | src/lib/useTableSearch.ts:10 | drops exactly the leading white space |
| `TableSearch.TrimEnd` | src/lib/useTableSearch.ts:10 | drops exactly the trailing white space |
| `TableSearch.Lower` | src/lib/useTableSearch.ts:10-12 | lower-cases each character and keeps the length |
| `TableSearch.KeepHits` | src/lib/useTableSearch.ts:12 | the kept rows are never more than the rows |
| `TableSearch.Filtered` | src/lib/useTableSearch.ts:9-13 | a query that trims to empty returns the rows unchanged |
| `TableSearch.FilteredSubsequence` | src/lib/useTableSearch.ts:12 | the result keeps row order: it is a subsequence of the rows |
| `TableSearch.KeepHitsSubsequence` | src/lib/useTableSearch.ts:12 | `filter` keeps a subsequence of the rows |
| `TableSearch.FilteredMembers` | src/lib/useTableSearch.ts:12 | with a non-empty query, a row is kept iff its lower-cased haystack contains the query |
| `TableSearch.FilteredAppend` | src/lib/useTableSearch.ts:12 | the result for two runs of rows is the concatenation of their results |
| `TableSearch.FilteredOne` | src/lib/useTableSearch.ts:12 | one row is kept, once, exactly when the query is empty or its haystack contains the query |
| `TableSearch.KeepHitsMembers` | src/lib/useTableSearch.ts:12 | `filter` keeps exactly the rows that hit |
| `TableSearch.TrimIgnoresSurroundingSpace` | src/lib/useTableSearch.ts:10 | surrounding white space does not change the trimmed query |
| `TableSearch.NormalQueryIgnoresCase` | src/lib/useTableSearch.ts:10 | queries differing only in letter case normalise alike |
| `TableSearch.FilteredIgnoresCaseAndSpace` | src/lib/useTableSearch.ts:10-12 | queries differing only in case or surrounding white space give the same rows |

## Left out

- Persistence: `localStorage` is one in-memory `Store`, and `JSON.stringify`/`parse` is not modelled, except that a NaN reads back as `null` (`Json.StoredNumber`). The store re-reads storage before every query; the model keeps one state. A store file that fails to parse is given as `None` to `GetData`.
- Extra keys in a stored object are dropped by the model. The source keeps them, and a select could embed an array found under such a key; the model embeds only the seven tables.
- `generateId` (random) and the clock: the fresh ids, the current time and the calendar year are parameters of the operations that use them.
- Locale formatting: `formatCurrency` and the locale date format of `formatDate` (`Intl`, `toLocaleDateString`). `Helpers.FormatDate` takes the formatter as a parameter.
- IEEE-754 arithmetic: money is exact `real`, so the rounding of the GST product is not modelled.
- Json.ToNumber: numeric strings read as NaN; the parsing `Number` does on strings is not modelled.
- TableSearch.Lower: lower-cases ASCII letters only; Unicode case mapping is not modelled.
- MockStore.SortRowsSorted: proved only when the sort column holds strings in every row or numbers in every row. JavaScript `<` on mixed kinds is not a consistent order, and the engine's result is then implementation-defined. `SortRows` is a stable insertion sort; the source's `Array.prototype.sort` is also stable.
- Async machinery: each workflow is one sequential method. `Promise.all` in the dashboard becomes five consecutive reads. The `fetchData` that `recordPayment` does not await is taken to run after the writes.
- The count-then-insert numbering race (two writers reading the same count) needs concurrency and is not modelled.
- Authentication, routing, toasts, navigation, dialogs, PDF export and all rendering.
- Loading an existing quotation into the editor (`QuotationBuilder.tsx:50-67`), and the plain CRUD pages, only copy fields between the store and the form.
- Conversion copies no line items, notes or terms and sets neither `amount_paid` nor `status` on the new invoice (`Quotations.NewInvoiceOmits`, `Quotations.ConversionWritesNoItems`).
- The save rejects only an empty title; a title of blanks is saved (`QuotationBuilder.BlankTitleIsSaved`).
- When an invoice has no items of its own and no `quotation_id`, the item list is left as it was, not emptied (`InvoiceDetail.NoOwnItemsFallBack`).
- InvoiceDetail.Recorded: stores the corrected settlement (`PaidSettlementOf`). On an invoice whose `Number(amount_paid)` is NaN, which is every converted invoice, the code as written stores null amount paid, null balance and "partial" (`InvoiceDetail.AsWrittenPaymentStoresNulls`).
- InvoiceDetail.WritePayment: writes the corrected `PaidSettlementOf` patch, not the as-written `SettlementOf`; the two agree whenever `amount_paid` is numeric.
- InvoiceDetail.RecordPayment: stores the corrected settlement through `WritePayment`; see the Findings row.
- InvoiceDetail.RecordTouchesOnlyThatInvoice: states the settled row with the corrected `PaidSettlementOf`; the as-written row is stated by `InvoiceDetail.AsWrittenPaymentStoresNulls`.
- MockStore.AsRow: reads a stored table element that is not an object as a row with no fields. In the source, filtering such an element (`item[f.column]` on `null`) throws.
- MockStore.JsLess: an array or object sort key reads as NaN, so it is never less than anything. JavaScript converts it to a string and compares that.
- InvoiceDetail.OwnItemsShown: states the items shown in terms of `SortRows`; that the order is ascending `sort_order` follows from `MockStore.SortRowsSorted` only when every row's `sort_order` is a number.

## Findings

| source | as written | input that shows it | evidently intended | confidence | as-written member | corrected member |
|---|---|---|---|---|---|---|
| src/pages/InvoiceDetail.tsx:96-100 with src/pages/Quotations.tsx:63-76 | `newPaid = Number(invoice.amount_paid) + payAmount`. A converted invoice has no `amount_paid`, so this is NaN. The update stores `null` as amount paid and balance, with status "partial", and the next payment counts from 0. | Convert a quotation with total 100, open the invoice and pay the prefilled 100: it stays "partial" with null amount paid. | `Number(invoice.amount_paid)` falling back to 0, as the page's display reads it (InvoiceDetail.tsx:272, 425). | not executed | `InvoiceDetail.FirstPaymentLost`, `InvoiceDetail.ConvertThenPay` | `InvoiceDetail.PaidSettlementOf`, `InvoiceDetail.PaidInstallmentsCompose`, `InvoiceDetail.ConvertedPaymentSettles` |

The recording workflow (`InvoiceDetail.Recorded`, `WritePayment`, `RecordPayment`) uses the corrected `PaidSettlementOf`. `InvoiceDetail.SettlementOf` keeps the expression as written, for the lemmas that exhibit the difference (`FirstPaymentLost`, `AsWrittenPaymentStoresNulls`, `ConvertThenPay`).
