/**
 * Client-side search of a table (the `filtered` value of
 * src/lib/useTableSearch.ts): the query is trimmed and lower-cased, an empty
 * query keeps every row, and otherwise a row stays when its lower-cased
 * haystack contains the query. Lower-casing is modelled for ASCII letters.
 */
module TableSearch {

  /** The characters `String.prototype.trim` removes (white space and line terminators). */
  predicate IsSpace(c: char) {
    c == ' ' || c == '\t' || c == '\n' || c == '\r' || c == '\U{000B}' || c == '\U{000C}' ||
    c == '\U{00A0}' || c == '\U{1680}' || ('\U{2000}' <= c <= '\U{200A}') ||
    c == '\U{2028}' || c == '\U{2029}' || c == '\U{202F}' || c == '\U{205F}' ||
    c == '\U{3000}' || c == '\U{FEFF}'
  }

  predicate AllSpace(s: string) {
    forall i :: 0 <= i < |s| ==> IsSpace(s[i])
  }

  function TrimStart(s: string): (r: string)
    ensures |r| <= |s|
    ensures r == s[|s| - |r|..]
    ensures r == [] || !IsSpace(r[0])
    ensures AllSpace(s[..|s| - |r|])
  {
    if |s| > 0 && IsSpace(s[0]) then TrimStart(s[1..]) else s
  }

  function TrimEnd(s: string): (r: string)
    ensures |r| <= |s|
    ensures r == s[..|r|]
    ensures r == [] || !IsSpace(r[|r| - 1])
    ensures AllSpace(s[|r|..])
  {
    if |s| > 0 && IsSpace(s[|s| - 1]) then
      var r := TrimEnd(s[..|s| - 1]);
      assert s[|r|..] == s[..|s| - 1][|r|..] + [s[|s| - 1]];
      r
    else s
  }

  /** `s.trim()`. */
  function Trim(s: string): string {
    TrimEnd(TrimStart(s))
  }

  function LowerChar(c: char): (d: char)
    ensures IsSpace(c) <==> IsSpace(d)
  {
    if 'A' <= c <= 'Z' then ((c as int) - ('A' as int) + ('a' as int)) as char else c
  }

  /** `s.toLowerCase()` on ASCII letters. */
  function Lower(s: string): (r: string)
    ensures |r| == |s|
    ensures forall i :: 0 <= i < |s| ==> r[i] == LowerChar(s[i])
  {
    seq(|s|, i requires 0 <= i < |s| => LowerChar(s[i]))
  }

  /** `haystack.includes(needle)`. */
  predicate Includes(haystack: string, needle: string) {
    needle <= haystack || (|haystack| > 0 && Includes(haystack[1..], needle))
  }

  /** The normalised query: trimmed, then lower-cased. */
  function NormalQuery(query: string): string {
    Lower(Trim(query))
  }

  predicate Hit<T>(row: T, haystack: T -> string, q: string) {
    Includes(Lower(haystack(row)), q)
  }

  /** `rows.filter(r => getHaystack(r).toLowerCase().includes(q))`. */
  function KeepHits<T>(rows: seq<T>, haystack: T -> string, q: string): (r: seq<T>)
    ensures |r| <= |rows|
  {
    if rows == [] then []
    else (if Hit(rows[0], haystack, q) then [rows[0]] else []) + KeepHits(rows[1..], haystack, q)
  }

  /** The `filtered` memo: an empty normalised query returns the rows themselves. */
  function Filtered<T>(rows: seq<T>, haystack: T -> string, query: string): (r: seq<T>)
    ensures NormalQuery(query) == "" ==> r == rows
  {
    var q := NormalQuery(query);
    if q == "" then rows else KeepHits(rows, haystack, q)
  }

  /** a is b with some elements left out, the rest in their original order. */
  predicate IsSubsequence<T(==)>(a: seq<T>, b: seq<T>) {
    if a == [] then true
    else if b == [] then false
    else if a[0] == b[0] then IsSubsequence(a[1..], b[1..])
    else IsSubsequence(a, b[1..])
  }

  lemma {:induction false} KeepHitsSubsequence<T>(rows: seq<T>, haystack: T -> string, q: string)
    ensures IsSubsequence(KeepHits(rows, haystack, q), rows)
  {
    if rows != [] {
      KeepHitsSubsequence(rows[1..], haystack, q);
      var rest := KeepHits(rows[1..], haystack, q);
      if Hit(rows[0], haystack, q) {
        assert ([rows[0]] + rest)[1..] == rest;
      } else {
        assert [] + rest == rest;
        SubsequenceOfTail(rest, rows);
      }
    }
  }

  /** Dropping the head of b keeps a subsequence of the tail a subsequence of b. */
  lemma {:induction false} SubsequenceOfTail<T>(a: seq<T>, b: seq<T>)
    requires b != [] && IsSubsequence(a, b[1..])
    ensures IsSubsequence(a, b)
    decreases |a| + |b|
  {
    if a != [] && a[0] == b[0] {
      // a[1..] is a subsequence of b[1..] because a is
      SubsequenceDropHead(a, b[1..]);
    }
  }

  lemma {:induction false} SubsequenceDropHead<T>(a: seq<T>, b: seq<T>)
    requires a != [] && IsSubsequence(a, b)
    ensures IsSubsequence(a[1..], b)
    decreases |a| + |b|
  {
    assert b != [];
    if a[0] == b[0] {
      if a[1..] != [] {
        SubsequenceOfTail(a[1..], b);
      }
    } else {
      SubsequenceDropHead(a, b[1..]);
      if a[1..] != [] {
        SubsequenceOfTail(a[1..], b);
      }
    }
  }

  /** The search keeps row order: its result is a subsequence of the rows. */
  lemma FilteredSubsequence<T>(rows: seq<T>, haystack: T -> string, query: string)
    ensures IsSubsequence(Filtered(rows, haystack, query), rows)
  {
    if NormalQuery(query) == "" {
      SubsequenceReflexive(rows);
    } else {
      KeepHitsSubsequence(rows, haystack, NormalQuery(query));
    }
  }

  lemma {:induction false} SubsequenceReflexive<T>(s: seq<T>)
    ensures IsSubsequence(s, s)
  {
    if s != [] {
      SubsequenceReflexive(s[1..]);
    }
  }

  lemma {:induction false} KeepHitsMembers<T>(rows: seq<T>, haystack: T -> string, q: string)
    ensures forall x :: x in KeepHits(rows, haystack, q) <==> x in rows && Hit(x, haystack, q)
  {
    if rows != [] {
      KeepHitsMembers(rows[1..], haystack, q);
      assert forall x :: x in rows <==> x == rows[0] || x in rows[1..];
    }
  }

  /**
   * With a non-empty query, a row is in the result exactly when it is one of
   * the rows and its lower-cased haystack contains the normalised query.
   */
  lemma FilteredMembers<T>(rows: seq<T>, haystack: T -> string, query: string)
    requires NormalQuery(query) != ""
    ensures forall x :: x in Filtered(rows, haystack, query) <==>
      x in rows && Includes(Lower(haystack(x)), NormalQuery(query))
  {
    KeepHitsMembers(rows, haystack, NormalQuery(query));
  }

  lemma {:induction false} KeepHitsAppend<T>(a: seq<T>, b: seq<T>, haystack: T -> string, q: string)
    ensures KeepHits(a + b, haystack, q) == KeepHits(a, haystack, q) + KeepHits(b, haystack, q)
  {
    if a == [] {
      assert a + b == b;
    } else {
      var ab := a + b;
      var head := if Hit(a[0], haystack, q) then [a[0]] else [];
      assert ab[0] == a[0] && ab[1..] == a[1..] + b;
      assert KeepHits(ab, haystack, q) == head + KeepHits(a[1..] + b, haystack, q);
      KeepHitsAppend(a[1..], b, haystack, q);
      assert KeepHits(a, haystack, q) == head + KeepHits(a[1..], haystack, q);
    }
  }

  /**
   * The search works row by row: the result for two runs of rows is the
   * concatenation of their results, and a single row is kept, once, exactly
   * when the query is empty or its haystack contains the query. Together
   * these fix the result, duplicates included.
   */
  lemma FilteredAppend<T>(a: seq<T>, b: seq<T>, haystack: T -> string, query: string)
    ensures Filtered(a + b, haystack, query) == Filtered(a, haystack, query) + Filtered(b, haystack, query)
  {
    if NormalQuery(query) != "" {
      KeepHitsAppend(a, b, haystack, NormalQuery(query));
    }
  }

  lemma FilteredOne<T>(row: T, haystack: T -> string, query: string)
    ensures Filtered([row], haystack, query) ==
      if NormalQuery(query) == "" || Includes(Lower(haystack(row)), NormalQuery(query)) then [row] else []
  {
    assert [row][1..] == [];
  }

  lemma {:induction false} TrimStartSpacePrefix(p: string, s: string)
    requires AllSpace(p)
    ensures TrimStart(p + s) == TrimStart(s)
  {
    if p != [] {
      assert (p + s)[1..] == p[1..] + s;
      TrimStartSpacePrefix(p[1..], s);
    } else {
      assert p + s == s;
    }
  }

  lemma {:induction false} TrimEndSpaceSuffix(s: string, p: string)
    requires AllSpace(p)
    ensures TrimEnd(s + p) == TrimEnd(s)
    decreases |p|
  {
    if p != [] {
      assert (s + p)[..|s + p| - 1] == s + p[..|p| - 1];
      TrimEndSpaceSuffix(s, p[..|p| - 1]);
    } else {
      assert s + p == s;
    }
  }

  /** TrimStart of a string ending in non-space keeps that ending. */
  lemma {:induction false} TrimStartAppend(s: string, p: string)
    requires AllSpace(p)
    requires TrimStart(s) != []
    ensures TrimStart(s + p) == TrimStart(s) + p
  {
    if |s| > 0 && IsSpace(s[0]) {
      assert (s + p)[1..] == s[1..] + p;
      TrimStartAppend(s[1..], p);
    }
  }

  /** Surrounding white space does not change the trimmed query. */
  lemma TrimIgnoresSurroundingSpace(pre: string, s: string, post: string)
    requires AllSpace(pre) && AllSpace(post)
    ensures Trim(pre + s + post) == Trim(s)
  {
    assert pre + s + post == pre + (s + post);
    TrimStartSpacePrefix(pre, s + post);
    if TrimStart(s) == [] {
      assert AllSpace(s);
      TrimStartSpacePrefix(s, post);
      TrimStartSpacePrefix(post, "");
      assert post + "" == post && s + "" == s;
      TrimStartSpacePrefix(s, "");
    } else {
      TrimStartAppend(s, post);
      TrimEndSpaceSuffix(TrimStart(s), post);
    }
  }

  lemma {:induction false} TrimStartLower(s: string)
    ensures TrimStart(Lower(s)) == Lower(TrimStart(s))
  {
    if |s| > 0 {
      assert Lower(s)[1..] == Lower(s[1..]);
      TrimStartLower(s[1..]);
    }
  }

  lemma {:induction false} TrimEndLower(s: string)
    ensures TrimEnd(Lower(s)) == Lower(TrimEnd(s))
    decreases |s|
  {
    if |s| > 0 {
      assert Lower(s)[..|s| - 1] == Lower(s[..|s| - 1]);
      TrimEndLower(s[..|s| - 1]);
    }
  }

  lemma LowerIdempotent(s: string)
    ensures Lower(Lower(s)) == Lower(s)
  {
  }

  /** Queries that differ only in letter case normalise to the same query. */
  lemma NormalQueryIgnoresCase(query: string)
    ensures NormalQuery(Lower(query)) == NormalQuery(query)
  {
    TrimStartLower(query);
    TrimEndLower(TrimStart(query));
    LowerIdempotent(Trim(query));
  }

  /** Queries that differ only in letter case or surrounding white space give the same rows. */
  lemma FilteredIgnoresCaseAndSpace<T>(rows: seq<T>, haystack: T -> string, pre: string, query: string, post: string)
    requires AllSpace(pre) && AllSpace(post)
    ensures Filtered(rows, haystack, Lower(query)) == Filtered(rows, haystack, query)
    ensures Filtered(rows, haystack, pre + query + post) == Filtered(rows, haystack, query)
  {
    NormalQueryIgnoresCase(query);
    TrimIgnoresSurroundingSpace(pre, query, post);
  }
}
