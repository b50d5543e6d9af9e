/**
 * Document numbering and the empty-date guard of src/lib/supabase-helpers.ts.
 *
 * A document number is `PREFIX-YEAR-NNNN`: the year of creation, then the
 * count of existing documents plus one, zero-padded to at least four digits.
 * The calendar year is a parameter.
 */
module Helpers {
  import opened Json

  predicate IsDigit(c: char) {
    '0' <= c <= '9'
  }

  predicate AllDigits(s: string) {
    forall i :: 0 <= i < |s| ==> IsDigit(s[i])
  }

  function DigitChar(d: nat): (c: char)
    requires d < 10
    ensures IsDigit(c) && (c as int) - ('0' as int) == d
  {
    (('0' as int) + d) as char
  }

  /** `String(n)` for a natural number: decimal digits, no leading zero. */
  function DecimalString(n: nat): (s: string)
    ensures |s| >= 1 && AllDigits(s)
    ensures n > 0 ==> s[0] != '0'
    decreases n
  {
    if n < 10 then [DigitChar(n)] else DecimalString(n / 10) + [DigitChar(n % 10)]
  }

  /** The value of a string of decimal digits. */
  function ParseDecimal(s: string): nat
    requires AllDigits(s)
  {
    if s == [] then 0
    else ParseDecimal(s[..|s| - 1]) * 10 + ((s[|s| - 1] as int) - ('0' as int))
  }

  /** Reading the digits back gives the number. */
  lemma {:induction false} ParseDecimalString(n: nat)
    ensures ParseDecimal(DecimalString(n)) == n
    decreases n
  {
    if n >= 10 {
      ParseDecimalString(n / 10);
      var s := DecimalString(n);
      assert s[..|s| - 1] == DecimalString(n / 10);
    }
  }

  function Pow10(k: nat): (p: nat)
    ensures p >= 1
  {
    if k == 0 then 1 else 10 * Pow10(k - 1)
  }

  /** Below 10^k a number has at most k digits. */
  lemma {:induction false} DecimalStringLength(n: nat, k: nat)
    requires 1 <= k && n < Pow10(k)
    ensures |DecimalString(n)| <= k
    decreases n
  {
    if n >= 10 {
      DecimalStringLength(n / 10, k - 1);
    }
  }

  function Zeros(k: nat): (z: string)
    ensures |z| == k && forall i :: 0 <= i < k ==> z[i] == '0'
  {
    if k == 0 then "" else "0" + Zeros(k - 1)
  }

  /** `s.padStart(4, '0')`. */
  function PadStart4(s: string): (r: string)
    ensures |r| == if |s| >= 4 then |s| else 4
    ensures r == Zeros(|r| - |s|) + s
  {
    if |s| >= 4 then s else Zeros(4 - |s|) + s
  }

  function StripLeadingZeros(s: string): (r: string)
    ensures |r| <= |s|
  {
    if |s| > 0 && s[0] == '0' then StripLeadingZeros(s[1..]) else s
  }

  /** Padding only adds zeros in front of a number that has no leading zero. */
  lemma {:induction false} StripZerosPadding(k: nat, s: string)
    requires s == [] || s[0] != '0'
    ensures StripLeadingZeros(Zeros(k) + s) == s
  {
    if k > 0 {
      assert (Zeros(k) + s)[1..] == Zeros(k - 1) + s;
      StripZerosPadding(k - 1, s);
    } else {
      assert Zeros(0) + s == s;
    }
  }

  /** The sequence part of a number: `String(count + 1).padStart(4, '0')`. */
  function Sequence(count: nat): string {
    PadStart4(DecimalString(count + 1))
  }

  /** `${prefix}-${year}-${String(count + 1).padStart(4, '0')}`. */
  function GenerateNumber(prefix: string, year: nat, count: nat): string {
    prefix + "-" + DecimalString(year) + "-" + Sequence(count)
  }

  /** The sequence part is all digits, at least four of them, and exactly four below 10000. */
  lemma SequenceShape(count: nat)
    ensures AllDigits(Sequence(count))
    ensures |Sequence(count)| >= 4
    ensures count + 1 < 10000 ==> |Sequence(count)| == 4
  {
    if count + 1 < 10000 {
      assert Pow10(4) == 10000;
      DecimalStringLength(count + 1, 4);
    }
  }

  /** Stripping the padding zeros and parsing gives back `count + 1`. */
  lemma SequenceParses(count: nat)
    ensures AllDigits(StripLeadingZeros(Sequence(count)))
    ensures ParseDecimal(StripLeadingZeros(Sequence(count))) == count + 1
  {
    var d := DecimalString(count + 1);
    StripZerosPadding(|PadStart4(d)| - |d|, d);
    ParseDecimalString(count + 1);
  }

  /** Occurrences of c in s. */
  function CountChar(c: char, s: string): nat {
    if s == [] then 0 else (if s[0] == c then 1 else 0) + CountChar(c, s[1..])
  }

  lemma {:induction false} CountCharAppend(c: char, a: string, b: string)
    ensures CountChar(c, a + b) == CountChar(c, a) + CountChar(c, b)
  {
    if a == [] {
      assert a + b == b;
    } else {
      assert (a + b)[0] == a[0];
      assert (a + b)[1..] == a[1..] + b;
      CountCharAppend(c, a[1..], b);
    }
  }

  lemma {:induction false} CountCharDigits(s: string)
    requires AllDigits(s)
    ensures CountChar('-', s) == 0
  {
    if s != [] {
      CountCharDigits(s[1..]);
    }
  }

  /** The number adds exactly two hyphens to those of the prefix. */
  lemma GenerateNumberHyphens(prefix: string, year: nat, count: nat)
    ensures CountChar('-', GenerateNumber(prefix, year, count)) == CountChar('-', prefix) + 2
  {
    var y, q := DecimalString(year), Sequence(count);
    SequenceShape(count);
    CountCharDigits(y);
    CountCharDigits(q);
    CountCharAppend('-', prefix, "-");
    CountCharAppend('-', prefix + "-", y);
    CountCharAppend('-', prefix + "-" + y, "-");
    CountCharAppend('-', prefix + "-" + y + "-", q);
    assert CountChar('-', "-") == 1;
  }

  /** Reads the sequence value back out of a number with a known prefix and year. */
  function SequenceOf(number: string, prefix: string, year: nat): Option<nat> {
    var start := |prefix| + |DecimalString(year)| + 2;
    if start <= |number| && AllDigits(StripLeadingZeros(number[start..])) then
      Some(ParseDecimal(StripLeadingZeros(number[start..])))
    else None
  }

  /** Decoding a generated number gives back `count + 1`. */
  lemma SequenceOfGenerated(prefix: string, year: nat, count: nat)
    ensures SequenceOf(GenerateNumber(prefix, year, count), prefix, year) == Some(count + 1)
  {
    var head := prefix + "-" + DecimalString(year) + "-";
    DropHead(head, Sequence(count));
    SequenceParses(count);
  }

  lemma DropHead(head: string, tail: string)
    ensures (head + tail)[|head|..] == tail
  {
  }

  /** For a fixed prefix and year, different counts give different numbers. */
  lemma GenerateNumberInjective(prefix: string, year: nat, c1: nat, c2: nat)
    requires c1 != c2
    ensures GenerateNumber(prefix, year, c1) != GenerateNumber(prefix, year, c2)
  {
    SequenceOfGenerated(prefix, year, c1);
    SequenceOfGenerated(prefix, year, c2);
  }

  /** With four documents already present, the next one is number 0005. */
  lemma FifthNumber()
    ensures Sequence(4) == "0005"
    ensures GenerateNumber("QT", 2026, 4) == "QT-2026-0005"
  {
    assert DecimalString(5) == "5";
    assert DecimalString(2026) == "2026" by {
      assert DecimalString(202) == "202" by {
        assert DecimalString(20) == "20";
      }
    }
  }

  /** `formatDate`: a null or empty date shows as "-"; any other goes to the locale formatter. */
  function FormatDate(date: Option<string>, localeFormat: string -> string): (r: string)
    ensures date == None || date == Some("") ==> r == "-"
    ensures date.Some? && date.value != "" ==> r == localeFormat(date.value)
  {
    if date.None? || date.value == "" then "-" else localeFormat(date.value)
  }
}
