/** String helpers with the meaning of the Python built-ins the pipeline
    uses: `str.split`/`re.split` on one character, the `in` substring test,
    `str(int)`, and the line iteration of a file opened in text mode. */
module Text {

  /** Index of the first occurrence of `c` in `s`, or `|s|` when absent. */
  function IndexOf(s: string, c: char): (i: nat)
    ensures i <= |s|
    ensures i < |s| ==> s[i] == c
    ensures forall k :: 0 <= k < i ==> s[k] != c
  {
    if s == [] then 0
    else if s[0] == c then 0
    else 1 + IndexOf(s[1..], c)
  }

  /** `s.split(sep)` for a one-character separator: the pieces between
      separators, always at least one. */
  function Split(s: string, sep: char): (parts: seq<string>)
    ensures |parts| >= 1
    ensures forall k :: 0 <= k < |parts| ==> sep !in parts[k]
    decreases |s|
  {
    var i := IndexOf(s, sep);
    if i == |s| then [s]
    else [s[..i]] + Split(s[i + 1..], sep)
  }

  /** `sep.join(parts)`. */
  function Join(parts: seq<string>, sep: char): string
  {
    if parts == [] then ""
    else if |parts| == 1 then parts[0]
    else parts[0] + [sep] + Join(parts[1..], sep)
  }

  /** Splitting a string built from separator-free pieces recovers them. */
  lemma {:induction false} SplitJoin(parts: seq<string>, sep: char)
    requires |parts| >= 1
    requires forall k :: 0 <= k < |parts| ==> sep !in parts[k]
    ensures Split(Join(parts, sep), sep) == parts
  {
    if |parts| > 1 {
      SplitAfter(parts[0], Join(parts[1..], sep), sep);
      SplitJoin(parts[1..], sep);
    } else {
      assert IndexOf(parts[0], sep) == |parts[0]|;
    }
  }

  /** A separator-free head becomes the first piece. */
  lemma SplitAfter(a: string, b: string, sep: char)
    requires sep !in a
    ensures Split(a + [sep] + b, sep) == [a] + Split(b, sep)
  {
    var s := a + [sep] + b;
    IndexOfAfter(a, b, sep);
    assert s[..|a|] == a && s[|a| + 1..] == b;
  }

  lemma {:induction false} IndexOfAfter(a: string, b: string, sep: char)
    requires sep !in a
    ensures IndexOf(a + [sep] + b, sep) == |a|
  {
    if a != [] {
      assert (a + [sep] + b)[1..] == a[1..] + [sep] + b;
      IndexOfAfter(a[1..], b, sep);
    }
  }

  /** A string without the separator is a single piece. */
  lemma SplitNone(a: string, sep: char)
    requires forall k :: 0 <= k < |a| ==> a[k] != sep
    ensures Split(a, sep) == [a]
  {
  }

  /** Python's `sub in s` on strings. */
  predicate Contains(s: string, sub: string)
  {
    exists i | 0 <= i <= |s| - |sub| :: OccursAt(s, sub, i)
  }

  predicate OccursAt(s: string, sub: string, i: nat)
  {
    i + |sub| <= |s| && s[i..i + |sub|] == sub
  }

  /** The character of a decimal digit. */
  function DigitChar(d: nat): (c: char)
    requires d < 10
    ensures '0' <= c <= '9'
  {
    "0123456789"[d]
  }

  /** The value of a decimal digit character. */
  function DigitValue(c: char): nat
  {
    if '0' <= c <= '9' then (c - '0') as nat else 0
  }

  /** The decimal digits of a natural number, most significant first. */
  function Digits(n: nat): (s: string)
    ensures |s| >= 1
    ensures forall k :: 0 <= k < |s| ==> '0' <= s[k] <= '9'
  {
    if n < 10 then [DigitChar(n)]
    else Digits(n / 10) + [DigitChar(n % 10)]
  }

  /** `str(n)` for an int. */
  function DecimalString(n: int): string
  {
    if n < 0 then "-" + Digits(-n) else Digits(n)
  }

  /** The number a string of decimal digits denotes. */
  function DigitsValue(s: string): nat
  {
    if s == [] then 0
    else DigitsValue(s[..|s| - 1]) * 10 + DigitValue(s[|s| - 1])
  }

  /** `str` writes a number that reads back as itself, so distinct cluster
      numbers give distinct search keys. */
  lemma {:induction false} DigitsRoundTrip(n: nat)
    ensures DigitsValue(Digits(n)) == n
  {
    if n >= 10 {
      var q, r := n / 10, n % 10;
      DigitsRoundTrip(q);
      var s := Digits(n);
      assert s == Digits(q) + [DigitChar(r)];
      assert s[..|s| - 1] == Digits(q) && s[|s| - 1] == DigitChar(r);
      DigitValueOfChar(r);
      assert n == q * 10 + r;
    } else {
      DigitValueOfChar(n);
    }
  }

  /** Distinct cluster numbers are written as distinct strings. */
  lemma DecimalStringInjective(a: int, b: int)
    requires DecimalString(a) == DecimalString(b)
    ensures a == b
  {
    var sa, sb := DecimalString(a), DecimalString(b);
    if a < 0 && b < 0 {
      assert Digits(-a) == sa[1..] == sb[1..] == Digits(-b);
      DigitsInjective(-a, -b);
    } else if a >= 0 && b >= 0 {
      DigitsInjective(a, b);
    } else {
      DecimalStringSign(a);
      DecimalStringSign(b);
      assert false;
    }
  }

  /** `str` of an int starts with a minus sign exactly for a negative one. */
  lemma DecimalStringSign(n: int)
    ensures |DecimalString(n)| >= 1
    ensures DecimalString(n)[0] == '-' <==> n < 0
  {
  }

  lemma DigitsInjective(x: nat, y: nat)
    requires Digits(x) == Digits(y)
    ensures x == y
  {
    DigitsRoundTrip(x);
    DigitsRoundTrip(y);
  }

  lemma DigitValueOfChar(d: nat)
    requires d < 10
    ensures DigitValue(DigitChar(d)) == d
  {
    var digits := "0123456789";
    assert digits[d] == '0' + d as char by {
      if d == 0 {} else if d == 1 {} else if d == 2 {} else if d == 3 {} else if d == 4 {}
      else if d == 5 {} else if d == 6 {} else if d == 7 {} else if d == 8 {} else {}
    }
  }

  predicate IsLineBreak(c: char)
  {
    c == '\n' || c == '\r'
  }

  /** Index of the first line-break character, or `|s|`. */
  function FirstBreak(s: string): (i: nat)
    ensures i <= |s|
    ensures i < |s| ==> IsLineBreak(s[i])
    ensures forall k :: 0 <= k < i ==> !IsLineBreak(s[k])
  {
    if s == [] then 0
    else if IsLineBreak(s[0]) then 0
    else 1 + FirstBreak(s[1..])
  }

  /** The lines Python yields when iterating over a file opened in text
      mode (universal newlines: `\n`, `\r\n` and `\r` each end a line), with
      the terminators removed. A final line without a terminator counts. */
  function TextLines(s: string): seq<string>
    decreases |s|
  {
    if s == [] then []
    else
      var i := FirstBreak(s);
      if i == |s| then [s]
      else
        var next := if s[i] == '\r' && i + 1 < |s| && s[i + 1] == '\n' then i + 2 else i + 1;
        [s[..i]] + TextLines(s[next..])
  }

  /** Records written one after the other, each ended by CRLF, as the csv
      writer with `lineterminator='\r\n'` lays them out. */
  function CrlfText(records: seq<string>): string
  {
    if records == [] then ""
    else records[0] + "\r\n" + CrlfText(records[1..])
  }

  predicate NoLineBreak(s: string)
  {
    forall k :: 0 <= k < |s| ==> !IsLineBreak(s[k])
  }

  /** Reading a CRLF-terminated text back line by line yields the records,
      provided no record holds a line break of its own. */
  lemma {:induction false} TextLinesOfCrlf(records: seq<string>)
    requires forall k :: 0 <= k < |records| ==> NoLineBreak(records[k])
    ensures TextLines(CrlfText(records)) == records
  {
    if records != [] {
      TextLinesCrlfHead(records[0], CrlfText(records[1..]));
      TextLinesOfCrlf(records[1..]);
      assert [records[0]] + records[1..] == records;
    }
  }

  /** A line without breaks, ended by CRLF, is read as one line. */
  lemma TextLinesCrlfHead(r: string, rest: string)
    requires NoLineBreak(r)
    ensures TextLines(r + "\r\n" + rest) == [r] + TextLines(rest)
  {
    var s := r + "\r\n" + rest;
    FirstBreakAfter(r, "\r\n" + rest);
    assert s[|r|] == '\r' && s[|r| + 1] == '\n';
    assert s[..|r|] == r;
    assert s[|r| + 2..] == rest;
  }

  lemma {:induction false} FirstBreakAfter(a: string, b: string)
    requires NoLineBreak(a)
    requires b != [] && IsLineBreak(b[0])
    ensures FirstBreak(a + b) == |a|
  {
    if a != [] {
      assert (a + b)[1..] == a[1..] + b;
      FirstBreakAfter(a[1..], b);
    }
  }
}
