/**
 * The in-memory table store that every page reads and writes through
 * (the `MockQueryBuilder` of src/integrations/supabase/client.ts).
 *
 * The pure functions below say what one query does to a snapshot of all
 * tables; the classes `Store` and `QueryBuilder` are the imperative objects
 * whose methods are proved against them.
 */
module MockStore {
  import opened Json

  datatype Table = Clients | Events | Quotations | QuotationItems | Invoices | InvoiceItems | Payments

  const AllTables: seq<Table> := [Clients, Events, Quotations, QuotationItems, Invoices, InvoiceItems, Payments]

  /** The key of each table in the stored object. */
  function TableName(t: Table): string {
    match t
    case Clients => "clients"
    case Events => "events"
    case Quotations => "quotations"
    case QuotationItems => "quotation_items"
    case Invoices => "invoices"
    case InvoiceItems => "invoice_items"
    case Payments => "payments"
  }

  /** `data[name]` is an array exactly for the seven table names. */
  function TableNamed(name: string): (r: Option<Table>)
    ensures r.Some? ==> TableName(r.value) == name
    ensures r.None? ==> forall t: Table :: TableName(t) != name
  {
    if name == "clients" then Some(Clients)
    else if name == "events" then Some(Events)
    else if name == "quotations" then Some(Quotations)
    else if name == "quotation_items" then Some(QuotationItems)
    else if name == "invoices" then Some(Invoices)
    else if name == "invoice_items" then Some(InvoiceItems)
    else if name == "payments" then Some(Payments)
    else None
  }

  /** A snapshot of all tables. */
  type Db = map<Table, seq<Row>>

  ghost predicate Complete(db: Db) {
    forall t: Table :: t in db
  }

  /** The tables with table t replaced by rows. */
  function WithTable(db: Db, t: Table, rows: seq<Row>): (r: Db)
    requires Complete(db)
    ensures Complete(r) && r[t] == rows
    ensures forall u :: u != t ==> r[u] == db[u]
  {
    db[t := rows]
  }

  lemma EveryTableListed()
    ensures forall t: Table :: t in AllTables
  {
    forall t: Table ensures t in AllTables {
      match t
      case Clients => assert AllTables[0] == t;
      case Events => assert AllTables[1] == t;
      case Quotations => assert AllTables[2] == t;
      case QuotationItems => assert AllTables[3] == t;
      case Invoices => assert AllTables[4] == t;
      case InvoiceItems => assert AllTables[5] == t;
      case Payments => assert AllTables[6] == t;
    }
  }

  // ---------------------------------------------------------------------
  // Filters (client.ts:106-114, and the `every` at 152-156, 192-196, 216-222)
  // ---------------------------------------------------------------------

  datatype FilterOp = Eq | Neq
  datatype Filter = Filter(column: string, value: Value, op: FilterOp)

  /** One filter, compared with `===` / `!==`. */
  predicate Holds(f: Filter, row: Row) {
    match f.op
    case Eq => Get(row, f.column) == f.value
    case Neq => Get(row, f.column) != f.value
  }

  /** `filters.every(...)`, evaluated left to right. */
  predicate Matches(row: Row, filters: seq<Filter>) {
    if filters == [] then true else Holds(filters[0], row) && Matches(row, filters[1..])
  }

  /** A row matches iff it satisfies every filter; with no filter every row matches. */
  lemma {:induction false} MatchesIff(row: Row, filters: seq<Filter>)
    ensures Matches(row, filters) <==> forall i :: 0 <= i < |filters| ==> Holds(filters[i], row)
    ensures Matches(row, [])
  {
    if filters != [] {
      MatchesIff(row, filters[1..]);
      assert forall i :: 1 <= i < |filters| ==> filters[i] == filters[1..][i - 1];
    }
  }

  /** A single filter is matched exactly when it holds. */
  lemma MatchesOne(row: Row, f: Filter)
    ensures Matches(row, [f]) <==> Holds(f, row)
  {
    assert [f][1..] == [];
  }

  /** No row has two different values in one column. */
  lemma DistinctEqFilters(column: string, v: Value, w: Value)
    requires v != w
    ensures forall x :: Matches(x, [Filter(column, w, FilterOp.Eq)]) ==> !Matches(x, [Filter(column, v, FilterOp.Eq)])
  {
    forall x | Matches(x, [Filter(column, w, FilterOp.Eq)]) ensures !Matches(x, [Filter(column, v, FilterOp.Eq)]) {
      MatchesOne(x, Filter(column, w, FilterOp.Eq));
      MatchesOne(x, Filter(column, v, FilterOp.Eq));
    }
  }

  /** A row matches `.eq(column, v)` exactly when its column holds v. */
  lemma MatchesEq(column: string, v: Value)
    ensures forall x :: Matches(x, [Filter(column, v, FilterOp.Eq)]) <==> Get(x, column) == v
  {
    forall x ensures Matches(x, [Filter(column, v, FilterOp.Eq)]) <==> Get(x, column) == v {
      MatchesOne(x, Filter(column, v, FilterOp.Eq));
    }
  }

  function CountMatching(rows: seq<Row>, filters: seq<Filter>): (n: nat)
    ensures n <= |rows|
  {
    if rows == [] then 0
    else CountMatching(rows[..|rows| - 1], filters) + (if Matches(rows[|rows| - 1], filters) then 1 else 0)
  }

  /** `rows.filter(matches)`: the select step. */
  function FilterRows(rows: seq<Row>, filters: seq<Filter>): (r: seq<Row>)
    ensures |r| == CountMatching(rows, filters)
    ensures forall x :: x in r ==> x in rows && Matches(x, filters)
    ensures forall x :: x in rows && Matches(x, filters) ==> x in r
  {
    if rows == [] then []
    else
      var last := rows[|rows| - 1];
      FilterRows(rows[..|rows| - 1], filters) + (if Matches(last, filters) then [last] else [])
  }

  // ---------------------------------------------------------------------
  // Insert (client.ts:164-183)
  // ---------------------------------------------------------------------

  /**
   * One inserted record: a truthy `id` / `created_at` it carries is kept, a
   * missing or falsy one is replaced by the generated id / the current time.
   */
  function Stamp(record: Row, freshId: string, now: string): (r: Row)
    ensures Truthy(Get(record, "id")) ==> Get(r, "id") == Get(record, "id")
    ensures !Truthy(Get(record, "id")) ==> Get(r, "id") == Str(freshId)
    ensures Truthy(Get(record, "created_at")) ==> Get(r, "created_at") == Get(record, "created_at")
    ensures !Truthy(Get(record, "created_at")) ==> Get(r, "created_at") == Str(now)
    ensures r.Keys == record.Keys + {"id", "created_at"}
    ensures forall k :: k != "id" && k != "created_at" ==> Get(r, k) == Get(record, k)
  {
    var id := if Truthy(Get(record, "id")) then Get(record, "id") else Str(freshId);
    var at := if Truthy(Get(record, "created_at")) then Get(record, "created_at") else Str(now);
    record["id" := id]["created_at" := at]
  }

  /** Stamping adds no key but `id` and `created_at`. */
  lemma StampOtherKey(record: Row, freshId: string, now: string, k: string)
    requires k != "id" && k != "created_at"
    ensures k in Stamp(record, freshId, now) <==> k in record
  {
  }

  /** `pendingInsert.map(...)`: the i-th record takes the i-th generated id if it needs one. */
  function StampAll(records: seq<Row>, ids: seq<string>, now: string): (r: seq<Row>)
    requires |ids| >= |records|
    ensures |r| == |records|
    ensures forall i :: 0 <= i < |records| ==> r[i] == Stamp(records[i], ids[i], now)
  {
    seq(|records|, i requires 0 <= i < |records| => Stamp(records[i], ids[i], now))
  }

  /** `data[table] = [...data[table], ...newItems]`. */
  function InsertRows(rows: seq<Row>, records: seq<Row>, ids: seq<string>, now: string): (r: seq<Row>)
    requires |ids| >= |records|
    ensures |r| == |rows| + |records|
    ensures r[..|rows|] == rows
    ensures forall i :: 0 <= i < |records| ==> r[|rows| + i] == Stamp(records[i], ids[i], now)
  {
    rows + StampAll(records, ids, now)
  }

  // ---------------------------------------------------------------------
  // Update (client.ts:185-208)
  // ---------------------------------------------------------------------

  /** `{ ...item, ...patch }`: the patch's keys win. */
  function Merge(row: Row, patch: Row): (r: Row)
    ensures r.Keys == row.Keys + patch.Keys
    ensures forall k :: k in patch ==> Get(r, k) == patch[k]
    ensures forall k :: k !in patch ==> Get(r, k) == Get(row, k)
  {
    row + patch
  }

  /** The table after the update: matching rows merged with the patch, in place. */
  function UpdateRows(rows: seq<Row>, filters: seq<Filter>, patch: Row): (r: seq<Row>)
    ensures |r| == |rows|
    ensures forall i :: 0 <= i < |rows| && Matches(rows[i], filters) ==> r[i] == Merge(rows[i], patch)
    ensures forall i :: 0 <= i < |rows| && !Matches(rows[i], filters) ==> r[i] == rows[i]
  {
    if rows == [] then []
    else
      var last := rows[|rows| - 1];
      UpdateRows(rows[..|rows| - 1], filters, patch) + [if Matches(last, filters) then Merge(last, patch) else last]
  }

  /** The `updated` array: the merged rows, in table order. */
  function UpdatedRows(rows: seq<Row>, filters: seq<Filter>, patch: Row): (r: seq<Row>)
    ensures |r| == CountMatching(rows, filters)
  {
    if rows == [] then []
    else
      var last := rows[|rows| - 1];
      UpdatedRows(rows[..|rows| - 1], filters, patch) + (if Matches(last, filters) then [Merge(last, patch)] else [])
  }

  function MergeEach(rows: seq<Row>, patch: Row): (r: seq<Row>)
    ensures |r| == |rows|
    ensures forall i :: 0 <= i < |rows| ==> r[i] == Merge(rows[i], patch)
  {
    seq(|rows|, i requires 0 <= i < |rows| => Merge(rows[i], patch))
  }

  // ---------------------------------------------------------------------
  // Delete (client.ts:147-162)
  // ---------------------------------------------------------------------

  /** `data[table].filter(item => !matches)`. */
  function Remaining(rows: seq<Row>, filters: seq<Filter>): (r: seq<Row>)
    ensures |r| == |rows| - CountMatching(rows, filters)
    ensures forall x :: x in r ==> x in rows && !Matches(x, filters)
    ensures forall x :: x in rows && !Matches(x, filters) ==> x in r
  {
    if rows == [] then []
    else
      var last := rows[|rows| - 1];
      Remaining(rows[..|rows| - 1], filters) + (if Matches(last, filters) then [] else [last])
  }

  /** Deleting keeps the relative order: it distributes over concatenation. */
  lemma {:induction false} RemainingAppend(a: seq<Row>, b: seq<Row>, filters: seq<Filter>)
    ensures Remaining(a + b, filters) == Remaining(a, filters) + Remaining(b, filters)
    decreases |b|
  {
    if b == [] {
      assert a + b == a;
    } else {
      var b', last := b[..|b| - 1], b[|b| - 1];
      assert (a + b)[..|a + b| - 1] == a + b' && (a + b)[|a + b| - 1] == last;
      RemainingAppend(a, b', filters);
      var tail := if Matches(last, filters) then [] else [last];
      assert Remaining(a + b, filters) == Remaining(a + b', filters) + tail;
      assert Remaining(b, filters) == Remaining(b', filters) + tail;
      ConcatAssociative(Remaining(a, filters), Remaining(b', filters), tail);
    }
  }

  lemma SplitLast(s: seq<Row>)
    requires s != []
    ensures s[..|s| - 1] + [s[|s| - 1]] == s
  {
  }

  lemma AppendNothing(s: seq<Row>)
    ensures s + [] == s
  {
  }

  lemma ConcatAssociative(a: seq<Row>, b: seq<Row>, c: seq<Row>)
    ensures a + b + c == a + (b + c)
  {
  }

  /** Rows that no filter-matching row can be: a table without matching rows is left as it is. */
  lemma {:induction false} RemainingNoMatch(rows: seq<Row>, filters: seq<Filter>)
    requires forall x :: x in rows ==> !Matches(x, filters)
    ensures Remaining(rows, filters) == rows
    ensures FilterRows(rows, filters) == []
  {
    FilterRowsNoMatch(rows, filters);
    if rows != [] {
      var p, last := rows[..|rows| - 1], rows[|rows| - 1];
      assert last in rows;
      assert forall x :: x in p ==> x in rows;
      RemainingNoMatch(p, filters);
      assert Remaining(rows, filters) == p + [last];
      SplitLast(rows);
    }
  }

  /** Filtering a table without matching rows selects nothing. */
  lemma FilterRowsNoMatch(rows: seq<Row>, filters: seq<Filter>)
    requires forall x :: x in rows ==> !Matches(x, filters)
    ensures FilterRows(rows, filters) == []
  {
  }

  /** When every row matches, filtering keeps the whole table. */
  lemma {:induction false} FilterRowsAllMatch(rows: seq<Row>, filters: seq<Filter>)
    requires forall x :: x in rows ==> Matches(x, filters)
    ensures FilterRows(rows, filters) == rows
  {
    if rows != [] {
      var p := rows[..|rows| - 1];
      assert forall x :: x in p ==> x in rows;
      FilterRowsAllMatch(p, filters);
      SplitLast(rows);
    }
  }

  lemma {:induction false} FilterRowsAppend(a: seq<Row>, b: seq<Row>, filters: seq<Filter>)
    ensures FilterRows(a + b, filters) == FilterRows(a, filters) + FilterRows(b, filters)
    decreases |b|
  {
    if b == [] {
      assert a + b == a;
    } else {
      var b', last := b[..|b| - 1], b[|b| - 1];
      assert (a + b)[..|a + b| - 1] == a + b' && (a + b)[|a + b| - 1] == last;
      FilterRowsAppend(a, b', filters);
      var tail := if Matches(last, filters) then [last] else [];
      assert FilterRows(a + b, filters) == FilterRows(a + b', filters) + tail;
      assert FilterRows(b, filters) == FilterRows(b', filters) + tail;
      ConcatAssociative(FilterRows(a, filters), FilterRows(b', filters), tail);
    }
  }

  /** The `updated` array holds exactly the matching rows, each merged with the patch. */
  lemma {:induction false} UpdatedRowsAreMergedMatches(rows: seq<Row>, filters: seq<Filter>, patch: Row)
    ensures UpdatedRows(rows, filters, patch) == MergeEach(FilterRows(rows, filters), patch)
  {
    if rows != [] {
      var p, last := rows[..|rows| - 1], rows[|rows| - 1];
      UpdatedRowsAreMergedMatches(p, filters, patch);
      if Matches(last, filters) {
        assert MergeEach(FilterRows(p, filters) + [last], patch) == MergeEach(FilterRows(p, filters), patch) + [Merge(last, patch)];
      } else {
        AppendNothing(FilterRows(p, filters));
      }
    }
  }

  /**
   * Deleting the rows that match one filter set does not change which rows
   * match another set that no deleted row can satisfy.
   */
  lemma {:induction false} FilterRowsAfterDisjointDelete(rows: seq<Row>, deleted: seq<Filter>, kept: seq<Filter>)
    requires forall x :: Matches(x, kept) ==> !Matches(x, deleted)
    ensures FilterRows(Remaining(rows, deleted), kept) == FilterRows(rows, kept)
  {
    if rows != [] {
      var p, last := rows[..|rows| - 1], rows[|rows| - 1];
      FilterRowsAfterDisjointDelete(p, deleted, kept);
      if Matches(last, deleted) {
        assert Remaining(rows, deleted) == Remaining(p, deleted);
      } else {
        FilterRowsAppend(Remaining(p, deleted), [last], kept);
      }
    }
  }

  // ---------------------------------------------------------------------
  // Relation embedding (client.ts:224-241)
  // ---------------------------------------------------------------------

  /** `\w`: ASCII letters, digits and underscore. */
  predicate IsWordChar(c: char) {
    ('a' <= c <= 'z') || ('A' <= c <= 'Z') || ('0' <= c <= '9') || c == '_'
  }

  /** End of the longest run of word characters starting at i. */
  function WordEnd(s: string, i: nat): (j: nat)
    requires i <= |s|
    ensures i <= j <= |s|
    ensures forall k :: i <= k < j ==> IsWordChar(s[k])
    ensures j == |s| || !IsWordChar(s[j])
    decreases |s| - i
  {
    if i < |s| && IsWordChar(s[i]) then WordEnd(s, i + 1) else i
  }

  /** Index of the first ')' at or after i, if any. */
  function CloseParen(s: string, i: nat): (r: Option<nat>)
    requires i <= |s|
    ensures r.Some? ==> i <= r.value < |s| && s[r.value] == ')'
    ensures r.Some? ==> forall k :: i <= k < r.value ==> s[k] != ')'
    ensures r.None? ==> forall k :: i <= k < |s| ==> s[k] != ')'
    decreases |s| - i
  {
    if i == |s| then None
    else if s[i] == ')' then Some(i)
    else CloseParen(s, i + 1)
  }

  /**
   * The table names captured by `/(\w+)\([^)]+\)/g`, scanning from position i:
   * a match starts where a run of word characters is followed by '(', at
   * least one character other than ')' and then ')'; the scan resumes after
   * the match, or one character later when there is none.
   */
  function RelationNames(s: string, i: nat): (names: seq<string>)
    requires i <= |s|
    ensures forall n :: n in names ==> |n| > 0 && forall c :: c in n ==> IsWordChar(c)
    decreases |s| - i
  {
    if i == |s| then []
    else if IsWordChar(s[i]) then
      var j := WordEnd(s, i);
      if j < |s| && s[j] == '(' then
        var close := CloseParen(s, j + 1);
        if close.Some? && close.value > j + 1 then [s[i..j]] + RelationNames(s, close.value + 1)
        else RelationNames(s, i + 1)
      else RelationNames(s, i + 1)
    else RelationNames(s, i + 1)
  }

  lemma {:induction false} WordEndOf(s: string, i: nat, j: nat)
    requires i <= j < |s| && !IsWordChar(s[j])
    requires forall k :: i <= k < j ==> IsWordChar(s[k])
    ensures WordEnd(s, i) == j
    decreases j - i
  {
    if i < j {
      WordEndOf(s, i + 1, j);
    }
  }

  lemma {:induction false} CloseParenOf(s: string, i: nat, j: nat)
    requires i <= j < |s| && s[j] == ')'
    requires forall k :: i <= k < j ==> s[k] != ')'
    ensures CloseParen(s, i) == Some(j)
    decreases j - i
  {
    if i < j {
      CloseParenOf(s, i + 1, j);
    }
  }

  lemma {:induction false} SkipNonWord(s: string, i: nat, j: nat)
    requires i <= j <= |s|
    requires forall k :: i <= k < j ==> !IsWordChar(s[k])
    ensures RelationNames(s, i) == RelationNames(s, j)
    decreases j - i
  {
    if i < j {
      SkipNonWord(s, i + 1, j);
    }
  }

  /**
   * A column list made of non-word characters, one `name(args)` and nothing
   * after it embeds exactly that one relation.
   */
  lemma RelationNamesOfOneCall(p: string, name: string, args: string)
    requires forall c :: c in p ==> !IsWordChar(c)
    requires name != [] && forall c :: c in name ==> IsWordChar(c)
    requires args != [] && ')' !in args
    ensures RelationNames(p + name + "(" + args + ")", 0) == [name]
  {
    var s := p + name + "(" + args + ")";
    var open, close := |p| + |name|, |p| + |name| + 1 + |args|;
    forall k | 0 <= k < |p| ensures !IsWordChar(s[k]) {
      assert s[k] == p[k];
    }
    SkipNonWord(s, 0, |p|);
    forall k | |p| <= k < open ensures IsWordChar(s[k]) {
      assert s[k] == name[k - |p|];
    }
    assert s[open] == '(';
    WordEndOf(s, |p|, open);
    forall k | open + 1 <= k < close ensures s[k] != ')' {
      assert s[k] == args[k - open - 1];
    }
    assert s[close] == ')';
    CloseParenOf(s, open + 1, close);
    assert s[|p|..open] == name;
  }

  /** `${relationTable.replace(/s$/, '')}_id`: one trailing 's' dropped. */
  function ForeignKey(name: string): (k: string)
    ensures |name| > 0 && name[|name| - 1] == 's' ==> k == name[..|name| - 1] + "_id"
    ensures (|name| == 0 || name[|name| - 1] != 's') ==> k == name + "_id"
  {
    (if |name| > 0 && name[|name| - 1] == 's' then name[..|name| - 1] else name) + "_id"
  }

  /** `rows.find(r => r.id === id)`. */
  function FindById(rows: seq<Row>, id: Value): (r: Option<Row>)
    ensures r.Some? ==> r.value in rows && Get(r.value, "id") == id
    ensures r.None? ==> forall x :: x in rows ==> Get(x, "id") != id
  {
    if rows == [] then None
    else if Get(rows[0], "id") == id then Some(rows[0])
    else FindById(rows[1..], id)
  }

  /** `{ ...item, [name]: related || null }`. */
  function EmbedRow(item: Row, name: string, related: seq<Row>): (r: Row)
    ensures r.Keys == item.Keys + {name}
    ensures forall k :: k in item && k != name ==> r[k] == item[k]
    ensures r[name] == Null || (r[name].Obj? && r[name].fields in related &&
      Get(r[name].fields, "id") == Get(item, ForeignKey(name)))
    ensures r[name] == Null <==>
      (!Truthy(Get(item, ForeignKey(name))) || forall x :: x in related ==> Get(x, "id") != Get(item, ForeignKey(name)))
  {
    var key := Get(item, ForeignKey(name));
    if Truthy(key) then
      match FindById(related, key)
      case Some(x) => item[name := Obj(x)]
      case None => item[name := Null]
    else item[name := Null]
  }

  /** One relation pattern: only a known table is embedded. */
  function EmbedOne(rows: seq<Row>, name: string, db: Db): (r: seq<Row>)
    requires Complete(db)
    ensures |r| == |rows|
    ensures TableNamed(name).None? ==> r == rows
  {
    match TableNamed(name)
    case None => rows
    case Some(t) => seq(|rows|, i requires 0 <= i < |rows| => EmbedRow(rows[i], name, db[t]))
  }

  /** Embedding one relation sets only the field named after it. */
  lemma EmbedOneKeepsFields(rows: seq<Row>, name: string, db: Db, i: nat, k: string)
    requires Complete(db) && i < |rows| && k != name
    ensures Get(EmbedOne(rows, name, db)[i], k) == Get(rows[i], k)
  {
  }

  /** All relation patterns, in the order they occur. */
  function EmbedAll(rows: seq<Row>, names: seq<string>, db: Db): (r: seq<Row>)
    requires Complete(db)
    ensures |r| == |rows|
  {
    if names == [] then rows
    else EmbedOne(EmbedAll(rows, names[..|names| - 1], db), names[|names| - 1], db)
  }

  lemma EmbedAllOne(rows: seq<Row>, name: string, db: Db)
    requires Complete(db)
    ensures EmbedAll(rows, [name], db) == EmbedOne(rows, name, db)
  {
    assert [name][..0] == [];
  }

  // ---------------------------------------------------------------------
  // Ordering (client.ts:243-252)
  // ---------------------------------------------------------------------

  /** `a < b` on strings: UTF-16 code units compared lexicographically. */
  predicate StrLess(a: string, b: string) {
    if a == [] then b != []
    else if b == [] then false
    else if a[0] != b[0] then a[0] < b[0]
    else StrLess(a[1..], b[1..])
  }

  /**
   * `a < b` on stored values: two strings compare as strings; otherwise both
   * sides are converted with `Number`, and a NaN side makes the comparison false.
   */
  predicate JsLess(a: Value, b: Value) {
    if a.Str? && b.Str? then StrLess(a.s, b.s)
    else
      match (ToNumber(a), ToNumber(b))
      case (Some(x), Some(y)) => x < y
      case _ => false
  }

  /** The comparator returns -1 for (x, y). */
  predicate Before(x: Row, y: Row, column: string, ascending: bool) {
    if ascending then JsLess(Get(x, column), Get(y, column)) else JsLess(Get(y, column), Get(x, column))
  }

  /** Stable insertion of x behind the rows it does not sort before. */
  function InsertSorted(s: seq<Row>, x: Row, column: string, ascending: bool): (r: seq<Row>)
    ensures multiset(r) == multiset(s) + multiset{x}
  {
    if s == [] then [x]
    else
      assert s == s[..|s| - 1] + [s[|s| - 1]];
      if Before(x, s[|s| - 1], column, ascending) then
      InsertSorted(s[..|s| - 1], x, column, ascending) + [s[|s| - 1]]
    else s + [x]
  }

  /** `result.sort(comparator)`, as a stable sort. */
  function SortRows(rows: seq<Row>, column: string, ascending: bool): (r: seq<Row>)
    ensures multiset(r) == multiset(rows)
  {
    if rows == [] then []
    else
      assert rows == rows[..|rows| - 1] + [rows[|rows| - 1]];
      InsertSorted(SortRows(rows[..|rows| - 1], column, ascending), rows[|rows| - 1], column, ascending)
  }

  /** No row sorts before one that precedes it. */
  ghost predicate Sorted(s: seq<Row>, column: string, ascending: bool) {
    forall i, j :: 0 <= i < j < |s| ==> !Before(s[j], s[i], column, ascending)
  }

  /** The sort key is a string in every row, or a number (after `Number`) in every row. */
  ghost predicate UniformKeys(rows: seq<Row>, column: string) {
    (forall x :: x in rows ==> Get(x, column).Str?) ||
    (forall x :: x in rows ==> ToNumber(Get(x, column)).Some?)
  }

  lemma {:induction false} StrLessIrreflexive(a: string)
    ensures !StrLess(a, a)
  {
    if a != [] {
      StrLessIrreflexive(a[1..]);
    }
  }

  lemma {:induction false} StrLessTotal(a: string, b: string)
    ensures a == b || StrLess(a, b) || StrLess(b, a)
    ensures !(StrLess(a, b) && StrLess(b, a))
  {
    if a != [] && b != [] && a[0] == b[0] {
      StrLessTotal(a[1..], b[1..]);
      if a[1..] == b[1..] {
        assert a == [a[0]] + a[1..] && b == [b[0]] + b[1..];
      }
    }
  }

  lemma {:induction false} StrLessTransitive(a: string, b: string, c: string)
    requires StrLess(a, b) && StrLess(b, c)
    ensures StrLess(a, c)
  {
    if a != [] && b != [] && c != [] && a[0] == b[0] && b[0] == c[0] {
      StrLessTransitive(a[1..], b[1..], c[1..]);
    }
  }

  /** "Not less" is transitive among same-kind keys, which is what a stable sort needs. */
  lemma NotLessTransitive(a: Value, b: Value, c: Value)
    requires (a.Str? && b.Str? && c.Str?) ||
             (ToNumber(a).Some? && ToNumber(b).Some? && ToNumber(c).Some?)
    requires !JsLess(b, a) && !JsLess(c, b)
    ensures !JsLess(c, a)
  {
    if a.Str? && b.Str? && c.Str? {
      StrLessTotal(a.s, b.s);
      StrLessTotal(b.s, c.s);
      StrLessTotal(a.s, c.s);
      if StrLess(c.s, a.s) && a.s != b.s && b.s != c.s {
        StrLessTransitive(a.s, b.s, c.s);
      }
    }
  }

  lemma JsLessAsymmetric(a: Value, b: Value)
    requires JsLess(a, b)
    ensures !JsLess(b, a)
  {
    if a.Str? && b.Str? {
      StrLessTotal(a.s, b.s);
    }
  }

  lemma {:induction false} InsertSortedSorted(s: seq<Row>, x: Row, column: string, ascending: bool)
    requires Sorted(s, column, ascending)
    requires UniformKeys(s + [x], column)
    ensures Sorted(InsertSorted(s, x, column, ascending), column, ascending)
  {
    if s != [] {
      var p, e := s[..|s| - 1], s[|s| - 1];
      if Before(x, e, column, ascending) {
        assert forall y :: y in p + [x] ==> y in s + [x];
        InsertSortedSorted(p, x, column, ascending);
        SortedBeforeLast(p, e, x, InsertSorted(p, x, column, ascending), column, ascending);
      } else {
        SortedAfterLast(s, x, column, ascending);
      }
    }
  }

  /** x sorts before e, the last of the rows: e stays behind the ordered insertion of x into the rest. */
  lemma SortedBeforeLast(p: seq<Row>, e: Row, x: Row, q: seq<Row>, column: string, ascending: bool)
    requires Sorted(p + [e], column, ascending) && Sorted(q, column, ascending)
    requires Before(x, e, column, ascending)
    requires multiset(q) == multiset(p) + multiset{x}
    ensures Sorted(q + [e], column, ascending)
  {
    var r := q + [e];
    forall i, j | 0 <= i < j < |r|
      ensures !Before(r[j], r[i], column, ascending)
    {
      if j < |q| {
        assert r[i] == q[i] && r[j] == q[j];
      } else {
        assert r[i] in multiset(q);
        if r[i] == x {
          if ascending {
            JsLessAsymmetric(Get(x, column), Get(e, column));
          } else {
            JsLessAsymmetric(Get(e, column), Get(x, column));
          }
        } else {
          assert r[i] in multiset(p);
          var k :| 0 <= k < |p| && p[k] == r[i];
          assert (p + [e])[k] == r[i] && (p + [e])[|p|] == e;
        }
      }
    }
  }

  /** x does not sort before the last of the ordered rows: appending it keeps them ordered. */
  lemma SortedAfterLast(s: seq<Row>, x: Row, column: string, ascending: bool)
    requires s != [] && Sorted(s, column, ascending)
    requires UniformKeys(s + [x], column)
    requires !Before(x, s[|s| - 1], column, ascending)
    ensures Sorted(s + [x], column, ascending)
  {
    var r, e := s + [x], s[|s| - 1];
    assert forall y :: y in s ==> y in r;
    assert x in r;
    forall i, j | 0 <= i < j < |r|
      ensures !Before(r[j], r[i], column, ascending)
    {
      if j < |s| {
        assert r[i] == s[i] && r[j] == s[j];
      } else if i < |s| - 1 {
        assert !Before(e, s[i], column, ascending);
        assert r[i] == s[i] && r[j] == x;
        if ascending {
          NotLessTransitive(Get(s[i], column), Get(e, column), Get(x, column));
        } else {
          NotLessTransitive(Get(x, column), Get(e, column), Get(s[i], column));
        }
      }
    }
  }

  /** With same-kind keys, the ordering step leaves no row behind one it sorts before. */
  lemma {:induction false} SortRowsSorted(rows: seq<Row>, column: string, ascending: bool)
    requires UniformKeys(rows, column)
    ensures Sorted(SortRows(rows, column, ascending), column, ascending)
  {
    if rows != [] {
      var p, x := rows[..|rows| - 1], rows[|rows| - 1];
      assert forall y :: y in p ==> y in rows;
      SortRowsSorted(p, column, ascending);
      var sp := SortRows(p, column, ascending);
      forall y | y in sp + [x] ensures y in rows {
        assert y in multiset(sp) || y == x;
      }
      InsertSortedSorted(sp, x, column, ascending);
    }
  }

  /** Rows that are already in order are left exactly as they are (the sort is stable). */
  lemma {:induction false} SortRowsKeepsSorted(rows: seq<Row>, column: string, ascending: bool)
    requires Sorted(rows, column, ascending)
    ensures SortRows(rows, column, ascending) == rows
  {
    if rows != [] {
      var p, x := rows[..|rows| - 1], rows[|rows| - 1];
      SortRowsKeepsSorted(p, column, ascending);
      if |p| > 0 {
        assert !Before(x, p[|p| - 1], column, ascending);
      }
      SplitLast(rows);
    }
  }

  // ---------------------------------------------------------------------
  // Limit (client.ts:254-257)
  // ---------------------------------------------------------------------

  /** `result.slice(0, n)`: a negative n counts from the end. */
  function SliceTo(s: seq<Row>, n: int): (r: seq<Row>)
    ensures n >= 0 ==> r == s[..if n < |s| then n else |s|]
    ensures n < 0 ==> r == s[..if |s| + n > 0 then |s| + n else 0]
  {
    if n >= 0 then s[..if n < |s| then n else |s|]
    else s[..if |s| + n > 0 then |s| + n else 0]
  }

  // ---------------------------------------------------------------------
  // A whole query
  // ---------------------------------------------------------------------

  /** What the builder has accumulated when it is awaited. */
  datatype Query = Query(
    table: Table,
    filters: seq<Filter>,
    columns: string,
    orderBy: Option<string>,
    ascending: bool,
    limit: Option<int>,
    single: bool,
    count: bool,
    head: bool,
    pendingInsert: Option<seq<Row>>,
    pendingUpdate: Option<Row>,
    pendingDelete: bool)

  /** The state of a builder fresh from `supabase.from(table)`. */
  function NewQuery(t: Table): Query {
    Query(t, [], "*", None, true, None, false, false, false, None, None, false)
  }

  datatype Payload = NoData | One(row: Row) | Many(rows: seq<Row>)
  datatype Response = Response(data: Payload, error: bool, count: Option<int>)

  /** The `{ data: null, error }` that a throwing save produces. */
  const Failed := Response(NoData, true, None)

  /**
   * How `then(resolve, reject)` settles: with a response passed to `resolve`,
   * or by calling `reject` when the save threw and a `reject` was given.
   */
  datatype Outcome = Resolved(response: Response) | Rejected

  /** Whether the query writes (an insert, an update or a delete is pending). */
  predicate Writes(q: Query) {
    q.pendingInsert.Some? || q.pendingUpdate.Some? || q.pendingDelete
  }

  /** Filter, embed relations, order, then limit. */
  function SelectRows(q: Query, db: Db): (r: seq<Row>)
    requires Complete(db)
  {
    var filtered := FilterRows(db[q.table], q.filters);
    var embedded := EmbedAll(filtered, RelationNames(q.columns, 0), db);
    var ordered := if q.orderBy.Some? && q.orderBy.value != "" then SortRows(embedded, q.orderBy.value, q.ascending) else embedded;
    if q.limit.Some? then SliceTo(ordered, q.limit.value) else ordered
  }

  function SelectResponse(q: Query, db: Db): (res: Response)
    requires Complete(db)
    ensures !res.error
  {
    var rows := SelectRows(q, db);
    if q.count || q.head then Response(NoData, false, Some(|rows|))
    else if q.single then Response(if |rows| > 0 then One(rows[0]) else NoData, false, None)
    else Response(Many(rows), false, None)
  }

  /** The number of generated ids the query may consume. */
  function IdsNeeded(q: Query): nat {
    if q.pendingInsert.Some? then |q.pendingInsert.value| else 0
  }

  /**
   * The tables after `then`: insert if pending, else update, else delete, else
   * select. A write whose save throws leaves the store as it was.
   */
  function ExecData(q: Query, db: Db, ids: seq<string>, now: string, saveFails: bool): (r: Db)
    requires Complete(db) && |ids| >= IdsNeeded(q)
    ensures Complete(r)
    ensures forall t :: t != q.table ==> r[t] == db[t]
    ensures saveFails ==> r == db
  {
    if saveFails then db
    else if q.pendingInsert.Some? then db[q.table := InsertRows(db[q.table], q.pendingInsert.value, ids, now)]
    else if q.pendingUpdate.Some? then db[q.table := UpdateRows(db[q.table], q.filters, q.pendingUpdate.value)]
    else if q.pendingDelete then db[q.table := Remaining(db[q.table], q.filters)]
    else db
  }

  /** The object `then` resolves with. */
  function ExecResponse(q: Query, db: Db, ids: seq<string>, now: string, saveFails: bool): (res: Response)
    requires Complete(db) && |ids| >= IdsNeeded(q)
    ensures q.pendingInsert.None? && q.pendingUpdate.None? && !q.pendingDelete ==> !res.error
  {
    if Writes(q) && saveFails then Failed
    else if q.pendingInsert.Some? then
      var added := StampAll(q.pendingInsert.value, ids, now);
      if q.single then Response(if |added| > 0 then One(added[0]) else NoData, false, None)
      else Response(Many(added), false, None)
    else if q.pendingUpdate.Some? then
      Response(Many(UpdatedRows(db[q.table], q.filters, q.pendingUpdate.value)), false, None)
    else if q.pendingDelete then
      Response(NoData, false, Some(CountMatching(db[q.table], q.filters)))
    else SelectResponse(q, db)
  }

  /** `.eq("id", v)`: the row with that id. */
  function IdIs(v: Value): seq<Filter> {
    [Filter("id", v, FilterOp.Eq)]
  }

  /** `from(t).select("*").eq(column, v).order(orderColumn)`: the rows belonging to one parent, in order. */
  function ChildQuery(t: Table, column: string, v: Value, orderColumn: string): Query {
    NewQuery(t).(filters := [Filter(column, v, FilterOp.Eq)], orderBy := Some(orderColumn))
  }

  /**
   * Reading back the children of a parent that had none before a batch of
   * rows was appended gives exactly that batch, when the batch is already in
   * order of the sort column.
   */
  lemma ChildQueryReadsAppended(t: Table, column: string, v: Value, orderColumn: string, db: Db, base: seq<Row>, added: seq<Row>)
    requires Complete(db) && db[t] == base + added && orderColumn != ""
    requires forall x :: x in base ==> Get(x, column) != v
    requires forall x :: x in added ==> Get(x, column) == v
    requires Sorted(added, orderColumn, true)
    ensures SelectRows(ChildQuery(t, column, v, orderColumn), db) == added
  {
    FilterAppendedChildren(column, v, base, added);
    ChildQueryRows(t, column, v, orderColumn, true, db);
    SortRowsKeepsSorted(added, orderColumn, true);
  }

  lemma FilterAppendedChildren(column: string, v: Value, base: seq<Row>, added: seq<Row>)
    requires forall x :: x in base ==> Get(x, column) != v
    requires forall x :: x in added ==> Get(x, column) == v
    ensures FilterRows(base + added, [Filter(column, v, FilterOp.Eq)]) == added
  {
    var f := [Filter(column, v, FilterOp.Eq)];
    MatchesEq(column, v);
    FilterRowsNoMatch(base, f);
    FilterRowsAllMatch(added, f);
    FilterRowsAppend(base, added, f);
    assert [] + added == added;
  }

  /** A child query sorts the rows of the table that match its one filter. */
  lemma ChildQueryRows(t: Table, column: string, v: Value, orderColumn: string, ascending: bool, db: Db)
    requires Complete(db) && orderColumn != ""
    ensures SelectRows(ChildQuery(t, column, v, orderColumn).(ascending := ascending), db) ==
      SortRows(FilterRows(db[t], [Filter(column, v, FilterOp.Eq)]), orderColumn, ascending)
  {
    StarHasNoRelations();
  }

  /** Sorting keeps exactly the rows it is given. */
  lemma SortRowsMembers(rows: seq<Row>, column: string, ascending: bool)
    ensures forall x :: x in SortRows(rows, column, ascending) <==> x in rows
  {
    var r := SortRows(rows, column, ascending);
    forall x ensures x in r <==> x in rows {
      assert x in r <==> x in multiset(r);
      assert x in rows <==> x in multiset(rows);
    }
  }

  /** Sorting keeps the number of rows. */
  lemma SortRowsLength(rows: seq<Row>, column: string, ascending: bool)
    ensures |SortRows(rows, column, ascending)| == |rows|
  {
    assert |multiset(SortRows(rows, column, ascending))| == |multiset(rows)|;
  }

  /** `select("*")` embeds nothing. */
  lemma StarHasNoRelations()
    ensures RelationNames("*", 0) == []
  {
    assert !IsWordChar('*');
  }

  /** A column list without '(' embeds nothing. */
  lemma {:induction false} NoParenNoRelations(s: string, i: nat)
    requires i <= |s|
    requires forall k :: i <= k < |s| ==> s[k] != '('
    ensures RelationNames(s, i) == []
    decreases |s| - i
  {
    if i < |s| {
      NoParenNoRelations(s, i + 1);
    }
  }

  /** A select that embeds nothing reads only its own table. */
  lemma SelectReadsOwnTable(q: Query, db: Db, db': Db)
    requires Complete(db) && Complete(db') && db[q.table] == db'[q.table]
    requires RelationNames(q.columns, 0) == []
    ensures SelectRows(q, db) == SelectRows(q, db')
  {
  }

  /** A count/head select with no filter and no limit counts the whole table. */
  lemma CountQueryCountsTable(t: Table, db: Db)
    requires Complete(db)
    ensures SelectResponse(NewQuery(t).(columns := "id", count := true, head := true), db).count == Some(|db[t]|)
  {
    var q := NewQuery(t).(columns := "id", count := true, head := true);
    forall x | x in db[t] ensures Matches(x, []) { }
    FilterRowsAllMatch(db[t], []);
    assert RelationNames("id", 0) == [];
  }

  /** Deleting reports exactly how many rows it removed. */
  lemma DeleteCountsRemoved(q: Query, db: Db, now: string)
    requires Complete(db) && q.pendingInsert.None? && q.pendingUpdate.None? && q.pendingDelete
    ensures |ExecData(q, db, [], now, false)[q.table]| + ExecResponse(q, db, [], now, false).count.value == |db[q.table]|
  {
  }

  // ---------------------------------------------------------------------
  // Loading the stored tables (client.ts:19-58)
  // ---------------------------------------------------------------------

  /** The seed rows of one table, stamped with the time the module was loaded. */
  function DefaultRows(t: Table, loadedAt: string): seq<Row> {
    var at := Str(loadedAt);
    match t
    case Clients => [
      map["id" := Str("1"), "name" := Str("Acme Corporation"), "email" := Str("contact@acme.com"), "phone" := Str("9876543210"), "address" := Str("123 Business St"), "created_at" := at],
      map["id" := Str("2"), "name" := Str("Wedding Planners Inc"), "email" := Str("info@weddingplanners.com"), "phone" := Str("9876543211"), "address" := Str("456 Event Ave"), "created_at" := at],
      map["id" := Str("3"), "name" := Str("Corporate Events Ltd"), "email" := Str("hello@corpevents.com"), "phone" := Str("9876543212"), "address" := Str("789 Conference Blvd"), "created_at" := at]
    ]
    case Events => [
      map["id" := Str("1"), "name" := Str("Annual Gala 2026"), "date" := Str("2026-03-15"), "venue" := Str("Grand Ballroom"), "client_id" := Str("1"), "status" := Str("upcoming"), "created_at" := at],
      map["id" := Str("2"), "name" := Str("Smith Wedding"), "date" := Str("2026-04-20"), "venue" := Str("Rose Garden Estate"), "client_id" := Str("2"), "status" := Str("upcoming"), "created_at" := at],
      map["id" := Str("3"), "name" := Str("Tech Conference"), "date" := Str("2026-05-10"), "venue" := Str("Convention Center"), "client_id" := Str("3"), "status" := Str("planning"), "created_at" := at]
    ]
    case _ => []
  }

  /** `DEFAULT_DATA`: three clients, three events, every other table empty. */
  function DefaultData(loadedAt: string): (db: Db)
    ensures Complete(db)
    ensures forall t :: t != Clients && t != Events ==> db[t] == []
    ensures |db[Clients]| == 3 && |db[Events]| == 3
  {
    EveryTableListed();
    map t: Table | t in AllTables :: DefaultRows(t, loadedAt)
  }

  /** An array element read as a row; a non-object element has no fields. */
  function AsRow(v: Value): Row {
    if v.Obj? then v.fields else map[]
  }

  /** One table of the merged object: stored arrays are kept, anything else becomes []. */
  function LoadTable(stored: map<string, Value>, t: Table, loadedAt: string): (rows: seq<Row>)
    ensures TableName(t) !in stored ==> rows == DefaultData(loadedAt)[t]
    ensures TableName(t) in stored && !stored[TableName(t)].Arr? ==> rows == []
    ensures TableName(t) in stored && stored[TableName(t)].Arr? ==> |rows| == |stored[TableName(t)].elems|
  {
    var k := TableName(t);
    if k !in stored then DefaultData(loadedAt)[t]
    else match stored[k]
      case Arr(elems) => seq(|elems|, i requires 0 <= i < |elems| => AsRow(elems[i]))
      case _ => []
  }

  /**
   * `getData()`: nothing stored (or unparsable) gives the seed data; a stored
   * object is merged over the seed data with every table forced to an array.
   */
  function GetData(stored: Option<Value>, loadedAt: string): (db: Db)
    ensures Complete(db)
  {
    EveryTableListed();
    if stored.Some? && stored.value.Obj? then
      map t: Table | t in AllTables :: LoadTable(stored.value.fields, t, loadedAt)
    else DefaultData(loadedAt)
  }

  // ---------------------------------------------------------------------
  // The objects
  // ---------------------------------------------------------------------

  /** The persisted tables (the localStorage entry, held in memory). */
  class Store {
    var data: Db

    ghost predicate Valid()
      reads this
    {
      Complete(data)
    }

    /** Loads the store, visiting each table key and fixing missing or non-array entries. */
    constructor Load(stored: Option<Value>, loadedAt: string)
      ensures Valid()
      ensures data == GetData(stored, loadedAt)
    {
      if stored.Some? && stored.value.Obj? {
        var fields := stored.value.fields;
        var merged: Db := map[];
        for k := 0 to |AllTables|
          invariant forall t :: t in merged <==> t in AllTables[..k]
          invariant forall t :: t in merged ==> merged[t] == LoadTable(fields, t, loadedAt)
        {
          var t := AllTables[k];
          assert AllTables[..k + 1] == AllTables[..k] + [t];
          merged := merged[t := LoadTable(fields, t, loadedAt)];
        }
        assert AllTables[..|AllTables|] == AllTables;
        EveryTableListed();
        data := merged;
      } else {
        data := DefaultData(loadedAt);
      }
    }
  }

  /** `supabase.from(table)` and its chained calls. */
  class QueryBuilder {
    const store: Store
    const table: Table
    var filters: seq<Filter>
    var selectColumns: string
    var orderByColumn: Option<string>
    var orderAsc: bool
    var limitCount: Option<int>
    var isSingle: bool
    var isCount: bool
    var isHead: bool
    var pendingInsert: Option<seq<Row>>
    var pendingUpdate: Option<Row>
    var pendingDelete: bool

    /** The accumulated query. */
    function Pending(): Query
      reads this
    {
      Query(table, filters, selectColumns, orderByColumn, orderAsc, limitCount,
            isSingle, isCount, isHead, pendingInsert, pendingUpdate, pendingDelete)
    }

    constructor From(store: Store, table: Table)
      ensures this.store == store
      ensures Pending() == NewQuery(table)
    {
      this.store := store;
      this.table := table;
      filters := [];
      selectColumns := "*";
      orderByColumn := None;
      orderAsc := true;
      limitCount := None;
      isSingle := false;
      isCount := false;
      isHead := false;
      pendingInsert := None;
      pendingUpdate := None;
      pendingDelete := false;
    }

    /** `select(columns, { count, head })`: the options only ever switch the flags on. */
    method Select(columns: string, count: bool, head: bool)
      modifies this
      ensures Pending() == old(Pending()).(columns := columns, count := old(isCount) || count, head := old(isHead) || head)
    {
      selectColumns := columns;
      if count {
        isCount := true;
      }
      if head {
        isHead := true;
      }
    }

    method Eq(column: string, value: Value)
      modifies this
      ensures Pending() == old(Pending()).(filters := old(filters) + [Filter(column, value, FilterOp.Eq)])
    {
      filters := filters + [Filter(column, value, FilterOp.Eq)];
    }

    method Neq(column: string, value: Value)
      modifies this
      ensures Pending() == old(Pending()).(filters := old(filters) + [Filter(column, value, FilterOp.Neq)])
    {
      filters := filters + [Filter(column, value, FilterOp.Neq)];
    }

    /** `order(column, { ascending })`: descending only for an explicit `false`. */
    method Order(column: string, ascending: Option<bool>)
      modifies this
      ensures Pending() == old(Pending()).(orderBy := Some(column), ascending := ascending != Some(false))
    {
      orderByColumn := Some(column);
      orderAsc := ascending != Some(false);
    }

    method Limit(count: int)
      modifies this
      ensures Pending() == old(Pending()).(limit := Some(count))
    {
      limitCount := Some(count);
    }

    method Single()
      modifies this
      ensures Pending() == old(Pending()).(single := true)
    {
      isSingle := true;
    }

    /** `insert(record)` and `insert([records])`. */
    method Insert(records: seq<Row>)
      modifies this
      ensures Pending() == old(Pending()).(pendingInsert := Some(records))
    {
      pendingInsert := Some(records);
    }

    method Update(patch: Row)
      modifies this
      ensures Pending() == old(Pending()).(pendingUpdate := Some(patch))
    {
      pendingUpdate := Some(patch);
    }

    method Delete()
      modifies this
      ensures Pending() == old(Pending()).(pendingDelete := true)
    {
      pendingDelete := true;
    }

    method ExecuteDelete(saveFails: bool) returns (res: Response)
      requires store.Valid()
      modifies store
      ensures store.Valid()
      ensures store.data == if saveFails then old(store.data) else old(store.data)[table := Remaining(old(store.data)[table], filters)]
      ensures res == if saveFails then Failed else Response(NoData, false, Some(CountMatching(old(store.data)[table], filters)))
    {
      var before := |store.data[table]|;
      var kept := Remaining(store.data[table], filters);
      if saveFails {
        res := Failed;
      } else {
        store.data := store.data[table := kept];
        res := Response(NoData, false, Some(before - |store.data[table]|));
      }
    }

    method ExecuteInsert(ids: seq<string>, now: string, saveFails: bool) returns (res: Response)
      requires store.Valid() && pendingInsert.Some? && |ids| >= |pendingInsert.value|
      modifies store
      ensures store.Valid()
      ensures store.data == ExecData(Pending(), old(store.data), ids, now, saveFails)
      ensures res == ExecResponse(Pending(), old(store.data), ids, now, saveFails)
    {
      var newItems := StampAll(pendingInsert.value, ids, now);
      if saveFails {
        res := Failed;
      } else {
        store.data := store.data[table := store.data[table] + newItems];
        if isSingle {
          res := Response(if |newItems| > 0 then One(newItems[0]) else NoData, false, None);
        } else {
          res := Response(Many(newItems), false, None);
        }
      }
    }

    /** Walks the table once, merging each matching row and collecting the merged rows. */
    method ExecuteUpdate(saveFails: bool) returns (res: Response)
      requires store.Valid() && pendingUpdate.Some?
      modifies store
      ensures store.Valid()
      ensures store.data == if saveFails then old(store.data) else old(store.data)[table := UpdateRows(old(store.data)[table], filters, pendingUpdate.value)]
      ensures res == if saveFails then Failed else Response(Many(UpdatedRows(old(store.data)[table], filters, pendingUpdate.value)), false, None)
    {
      var rows := store.data[table];
      var patch := pendingUpdate.value;
      var mapped: seq<Row> := [];
      var updated: seq<Row> := [];
      var i := 0;
      while i < |rows|
        invariant 0 <= i <= |rows|
        invariant mapped == UpdateRows(rows[..i], filters, patch)
        invariant updated == UpdatedRows(rows[..i], filters, patch)
      {
        var item := rows[i];
        assert rows[..i + 1] == rows[..i] + [item];
        if Matches(item, filters) {
          var merged := Merge(item, patch);
          updated := updated + [merged];
          mapped := mapped + [merged];
        } else {
          mapped := mapped + [item];
        }
        i := i + 1;
      }
      assert rows[..i] == rows;
      if saveFails {
        res := Failed;
      } else {
        store.data := store.data[table := mapped];
        res := Response(Many(updated), false, None);
      }
    }

    /** Filters, then applies each relation pattern in turn, then orders and limits. */
    method ExecuteSelect() returns (res: Response)
      requires store.Valid()
      ensures res == SelectResponse(Pending(), store.data)
    {
      var db := store.data;
      var result := FilterRows(db[table], filters);
      var filtered := result;
      var names := RelationNames(selectColumns, 0);
      var k := 0;
      while k < |names|
        invariant 0 <= k <= |names|
        invariant result == EmbedAll(filtered, names[..k], db)
      {
        assert names[..k + 1][..k] == names[..k];
        result := EmbedOne(result, names[k], db);
        k := k + 1;
      }
      assert names[..k] == names;
      if orderByColumn.Some? && orderByColumn.value != "" {
        result := SortRows(result, orderByColumn.value, orderAsc);
      }
      if limitCount.Some? {
        result := SliceTo(result, limitCount.value);
      }
      if isCount || isHead {
        res := Response(NoData, false, Some(|result|));
      } else if isSingle {
        res := Response(if |result| > 0 then One(result[0]) else NoData, false, None);
      } else {
        res := Response(Many(result), false, None);
      }
    }

    /**
     * `then(resolve, reject)`: runs insert if one is pending, else update,
     * else delete, else select. `saveFails` stands for the storage write
     * throwing; the `catch` then calls `reject` when the caller gave one
     * (`withReject`, as every `await` does) and otherwise resolves with
     * `{ data: null, error }`.
     */
    method Then(ids: seq<string>, now: string, saveFails: bool, withReject: bool) returns (out: Outcome)
      requires store.Valid() && |ids| >= IdsNeeded(Pending())
      modifies store
      ensures store.Valid()
      ensures store.data == ExecData(Pending(), old(store.data), ids, now, saveFails)
      ensures out.Rejected? <==> withReject && saveFails && Writes(Pending())
      ensures out.Resolved? ==> out.response == ExecResponse(Pending(), old(store.data), ids, now, saveFails)
    {
      var res: Response;
      if pendingInsert.Some? {
        res := ExecuteInsert(ids, now, saveFails);
      } else if pendingUpdate.Some? {
        res := ExecuteUpdate(saveFails);
      } else if pendingDelete {
        res := ExecuteDelete(saveFails);
      } else {
        res := ExecuteSelect();
      }
      if res.error && withReject {
        out := Rejected;
      } else {
        out := Resolved(res);
      }
    }
  }

  // ---------------------------------------------------------------------
  // Awaited calls, chained as the pages chain them
  // ---------------------------------------------------------------------

  /** The first row of a result, as `data` of a `single()` select. */
  function FirstOf(rows: seq<Row>): (r: Option<Row>)
    ensures r.Some? <==> |rows| > 0
    ensures r.Some? ==> r.value == rows[0]
  {
    if |rows| > 0 then Some(rows[0]) else None
  }

  /** `await from(t).select("id", { count: "exact", head: true })`, read as `count || 0`. */
  method CountRows(store: Store, t: Table) returns (count: nat)
    requires store.Valid()
    modifies store
    ensures store.Valid() && store.data == old(store.data)
    ensures count == |store.data[t]|
  {
    var counter := new QueryBuilder.From(store, t);
    counter.Select("id", true, true);
    CountQueryCountsTable(t, store.data);
    var counted := counter.Then([], "", false, true);
    var n := if counted.Resolved? && counted.response.count.Some? then counted.response.count.value else 0;
    count := n;
  }

  /** `await from(t).select(columns).eq(column, v).single()`: the first matching row, if any. */
  method SelectOne(store: Store, t: Table, columns: string, column: string, v: Value) returns (row: Option<Row>)
    requires store.Valid()
    modifies store
    ensures store.Valid() && store.data == old(store.data)
    ensures row == FirstOf(SelectRows(NewQuery(t).(columns := columns, filters := [Filter(column, v, FilterOp.Eq)]), store.data))
  {
    var select := new QueryBuilder.From(store, t);
    select.Select(columns, false, false);
    select.Eq(column, v);
    select.Single();
    assert select.Pending() == NewQuery(t).(columns := columns, filters := [Filter(column, v, FilterOp.Eq)], single := true);
    var out := select.Then([], "", false, true);
    row := if out.Resolved? && out.response.data.One? then Some(out.response.data.row) else None;
  }

  /** `await from(t).select("*").eq(column, v).order(orderColumn, { ascending })`, read as `data || []`. */
  method SelectChildren(store: Store, t: Table, column: string, v: Value, orderColumn: string, ascending: bool) returns (rows: seq<Row>)
    requires store.Valid()
    modifies store
    ensures store.Valid() && store.data == old(store.data)
    ensures rows == SelectRows(ChildQuery(t, column, v, orderColumn).(ascending := ascending), store.data)
  {
    var select := new QueryBuilder.From(store, t);
    select.Select("*", false, false);
    select.Eq(column, v);
    select.Order(orderColumn, Some(ascending));
    assert select.Pending() == ChildQuery(t, column, v, orderColumn).(ascending := ascending);
    var out := select.Then([], "", false, true);
    rows := if out.Resolved? && out.response.data.Many? then out.response.data.rows else [];
  }

  /** `await from(t).select(columns)`, read as `data || []`. */
  method SelectAll(store: Store, t: Table, columns: string) returns (rows: seq<Row>)
    requires store.Valid()
    modifies store
    ensures store.Valid() && store.data == old(store.data)
    ensures rows == SelectRows(NewQuery(t).(columns := columns), store.data)
  {
    var select := new QueryBuilder.From(store, t);
    select.Select(columns, false, false);
    assert select.Pending() == NewQuery(t).(columns := columns);
    var out := select.Then([], "", false, true);
    rows := if out.Resolved? && out.response.data.Many? then out.response.data.rows else [];
  }

  /**
   * `await from(t).insert(records)`: whether the await rejected, which ends
   * the calling page function.
   */
  method InsertAll(store: Store, t: Table, records: seq<Row>, ids: seq<string>, now: string, fails: bool) returns (rejected: bool)
    requires store.Valid() && |ids| >= |records|
    modifies store
    ensures store.Valid()
    ensures rejected == fails
    ensures store.data == if fails then old(store.data) else old(store.data)[t := old(store.data)[t] + StampAll(records, ids, now)]
  {
    var insert := new QueryBuilder.From(store, t);
    insert.Insert(records);
    var out := insert.Then(ids, now, fails, true);
    rejected := out.Rejected?;
  }

  /**
   * `await from(t).insert(record).select(columns).single()`: the stored row,
   * or nothing when the await rejected.
   */
  method InsertOne(store: Store, t: Table, record: Row, columns: string, id: string, now: string, fails: bool) returns (created: Option<Row>)
    requires store.Valid()
    modifies store
    ensures store.Valid()
    ensures fails ==> created == None && store.data == old(store.data)
    ensures !fails ==> created == Some(Stamp(record, id, now))
    ensures !fails ==> store.data == old(store.data)[t := old(store.data)[t] + [Stamp(record, id, now)]]
  {
    var insert := new QueryBuilder.From(store, t);
    insert.Insert([record]);
    insert.Select(columns, false, false);
    insert.Single();
    assert insert.Pending().pendingInsert == Some([record]) && insert.Pending().single;
    assert StampAll([record], [id], now) == [Stamp(record, id, now)];
    var out := insert.Then([id], now, fails, true);
    created := if out.Rejected? then None else Some(out.response.data.row);
  }

  /** `await from(t).update(patch).eq(column, v)`: whether the await rejected. */
  method UpdateEq(store: Store, t: Table, patch: Row, column: string, v: Value, fails: bool) returns (rejected: bool)
    requires store.Valid()
    modifies store
    ensures store.Valid()
    ensures rejected == fails
    ensures store.data == if fails then old(store.data) else old(store.data)[t := UpdateRows(old(store.data)[t], [Filter(column, v, FilterOp.Eq)], patch)]
  {
    var update := new QueryBuilder.From(store, t);
    update.Update(patch);
    update.Eq(column, v);
    assert update.Pending().filters == [Filter(column, v, FilterOp.Eq)];
    var out := update.Then([], "", fails, true);
    rejected := out.Rejected?;
  }

  /** `await from(t).delete().eq(column, v)`: whether the await rejected. */
  method DeleteEq(store: Store, t: Table, column: string, v: Value, fails: bool) returns (rejected: bool)
    requires store.Valid()
    modifies store
    ensures store.Valid()
    ensures rejected == fails
    ensures store.data == if fails then old(store.data) else old(store.data)[t := Remaining(old(store.data)[t], [Filter(column, v, FilterOp.Eq)])]
  {
    var delete := new QueryBuilder.From(store, t);
    delete.Delete();
    delete.Eq(column, v);
    assert delete.Pending().filters == [Filter(column, v, FilterOp.Eq)];
    var out := delete.Then([], "", fails, true);
    rejected := out.Rejected?;
  }
}
