/** The batch file-name pattern `['phising']+['\_'']+[\d_]+[\d]+\.csv`
    returned by `manualRegexCreation` (identical in both pipelines) and
    applied with `re.match`, so it is anchored at the start only and any
    text may follow `.csv`.

    Read as a regular expression the pattern is four runs followed by
    `.csv`:
      - a non-empty run over the class {p, h, i, s, n, g, '}
        (`['phising']`, where the repeated letters add nothing),
      - a non-empty run over {_, '} (`['\_'']`: `\_` is an escaped
        underscore),
      - a non-empty run over digits and `_` (`[\d_]+`),
      - a non-empty run of digits (`[\d]+`).
    The last two runs together are exactly a string over digits and `_` of
    length at least two whose last character is a digit.

    `FollowsPattern` states that reading with explicit split points, and
    `Matches` is a matcher that walks the four runs the way a
    backtracking regex engine does; `MatchesCorrect` proves the two agree
    on every string. */
module NamePattern {

  predicate IsNameChar(c: char)
  {
    c == 'p' || c == 'h' || c == 'i' || c == 's' || c == 'n' || c == 'g' || c == '\''
  }

  predicate IsSepChar(c: char)
  {
    c == '_' || c == '\''
  }

  predicate IsDigit(c: char)
  {
    '0' <= c <= '9'
  }

  predicate IsDigitOrUnderscore(c: char)
  {
    IsDigit(c) || c == '_'
  }

  /** `s` continues with `.csv` at index `k`. */
  predicate CsvAt(s: string, k: int)
  {
    0 <= k && k + 4 <= |s| && s[k..k + 4] == ".csv"
  }

  ghost predicate AllName(s: string, lo: int, hi: int)
    requires 0 <= lo <= hi <= |s|
  {
    forall m | lo <= m < hi :: IsNameChar(s[m])
  }

  ghost predicate AllSep(s: string, lo: int, hi: int)
    requires 0 <= lo <= hi <= |s|
  {
    forall m | lo <= m < hi :: IsSepChar(s[m])
  }

  ghost predicate AllDigitOrUnderscore(s: string, lo: int, hi: int)
    requires 0 <= lo <= hi <= |s|
  {
    forall m | lo <= m < hi :: IsDigitOrUnderscore(s[m])
  }

  ghost predicate AllDigit(s: string, lo: int, hi: int)
    requires 0 <= lo <= hi <= |s|
  {
    forall m | lo <= m < hi :: IsDigit(s[m])
  }

  /** `s[..i]` is the name run, `s[i..j]` the separator run, `s[j..k]` the
      digits-and-underscores run (at least two long, ending in a digit), and
      `.csv` follows at `k`. */
  ghost predicate MatchesWith(s: string, i: int, j: int, k: int)
  {
    && 0 < i < j && j + 2 <= k && k + 4 <= |s|
    && AllName(s, 0, i)
    && AllSep(s, i, j)
    && AllDigitOrUnderscore(s, j, k)
    && IsDigit(s[k - 1])
    && CsvAt(s, k)
  }

  /** `re.match(pattern, s)` succeeds. */
  ghost predicate FollowsPattern(s: string)
  {
    exists i, j, k :: MatchesWith(s, i, j, k)
  }

  // The matcher. Each function is named after the part of the pattern it is
  // inside of, having consumed at least one character of that run, and
  // decides whether the rest of the pattern matches from index `p`.

  /** Inside `[\d]+`: more digits, or `.csv`. */
  function InDigits(s: string, p: nat): bool
    requires p <= |s|
    decreases |s| - p
  {
    CsvAt(s, p) || (p < |s| && IsDigit(s[p]) && InDigits(s, p + 1))
  }

  /** Inside `[\d_]+`: more of the run, or the first digit of `[\d]+`. */
  function InDigitsOrUnderscores(s: string, p: nat): bool
    requires p <= |s|
    decreases |s| - p
  {
    p < |s| &&
    ((IsDigitOrUnderscore(s[p]) && InDigitsOrUnderscores(s, p + 1)) ||
     (IsDigit(s[p]) && InDigits(s, p + 1)))
  }

  /** Inside `['\_'']+`: more of the run, or the first character of `[\d_]+`. */
  function InSeparators(s: string, p: nat): bool
    requires p <= |s|
    decreases |s| - p
  {
    p < |s| &&
    ((IsSepChar(s[p]) && InSeparators(s, p + 1)) ||
     (IsDigitOrUnderscore(s[p]) && InDigitsOrUnderscores(s, p + 1)))
  }

  /** Inside `['phising']+`: more of the run, or the first separator. */
  function InName(s: string, p: nat): bool
    requires p <= |s|
    decreases |s| - p
  {
    p < |s| &&
    ((IsNameChar(s[p]) && InName(s, p + 1)) ||
     (IsSepChar(s[p]) && InSeparators(s, p + 1)))
  }

  /** `re.match(pattern, s) is not None`. */
  function Matches(s: string): bool
  {
    |s| > 0 && IsNameChar(s[0]) && InName(s, 1)
  }

  ghost predicate DigitsTail(s: string, p: int, k: int)
  {
    0 <= p <= k && k + 4 <= |s| && AllDigit(s, p, k) && CsvAt(s, k)
  }

  lemma {:induction false} InDigitsCorrect(s: string, p: nat)
    requires p <= |s|
    ensures InDigits(s, p) <==> exists k :: DigitsTail(s, p, k)
    decreases |s| - p
  {
    if InDigits(s, p) {
      if CsvAt(s, p) {
        assert DigitsTail(s, p, p);
      } else {
        InDigitsCorrect(s, p + 1);
        var k :| DigitsTail(s, p + 1, k);
        assert DigitsTail(s, p, k);
      }
    }
    if exists k :: DigitsTail(s, p, k) {
      var k :| DigitsTail(s, p, k);
      if k > p {
        assert DigitsTail(s, p + 1, k);
        InDigitsCorrect(s, p + 1);
      }
    }
  }

  ghost predicate DigitsOrUnderscoresTail(s: string, p: int, k: int)
  {
    0 <= p < k && k + 4 <= |s| && AllDigitOrUnderscore(s, p, k) && IsDigit(s[k - 1]) && CsvAt(s, k)
  }

  lemma {:induction false} InDigitsOrUnderscoresCorrect(s: string, p: nat)
    requires p <= |s|
    ensures InDigitsOrUnderscores(s, p) <==> exists k :: DigitsOrUnderscoresTail(s, p, k)
    decreases |s| - p
  {
    if InDigitsOrUnderscores(s, p) {
      if IsDigitOrUnderscore(s[p]) && InDigitsOrUnderscores(s, p + 1) {
        InDigitsOrUnderscoresCorrect(s, p + 1);
        var k :| DigitsOrUnderscoresTail(s, p + 1, k);
        assert DigitsOrUnderscoresTail(s, p, k);
      } else {
        InDigitsCorrect(s, p + 1);
        var k :| DigitsTail(s, p + 1, k);
        assert DigitsOrUnderscoresTail(s, p, k);
      }
    }
    if exists k :: DigitsOrUnderscoresTail(s, p, k) {
      var k :| DigitsOrUnderscoresTail(s, p, k);
      if k == p + 1 {
        assert DigitsTail(s, p + 1, p + 1);
        InDigitsCorrect(s, p + 1);
      } else {
        assert DigitsOrUnderscoresTail(s, p + 1, k);
        InDigitsOrUnderscoresCorrect(s, p + 1);
      }
    }
  }

  ghost predicate SeparatorsTail(s: string, p: int, j: int, k: int)
  {
    && 0 <= p <= j && j + 2 <= k && k + 4 <= |s|
    && AllSep(s, p, j) && AllDigitOrUnderscore(s, j, k) && IsDigit(s[k - 1]) && CsvAt(s, k)
  }

  lemma {:induction false} InSeparatorsCorrect(s: string, p: nat)
    requires p <= |s|
    ensures InSeparators(s, p) <==> exists j, k :: SeparatorsTail(s, p, j, k)
    decreases |s| - p
  {
    if InSeparators(s, p) {
      if IsSepChar(s[p]) && InSeparators(s, p + 1) {
        InSeparatorsCorrect(s, p + 1);
        var j, k :| SeparatorsTail(s, p + 1, j, k);
        assert SeparatorsTail(s, p, j, k);
      } else {
        InDigitsOrUnderscoresCorrect(s, p + 1);
        var k :| DigitsOrUnderscoresTail(s, p + 1, k);
        assert SeparatorsTail(s, p, p, k);
      }
    }
    if exists j, k :: SeparatorsTail(s, p, j, k) {
      var j, k :| SeparatorsTail(s, p, j, k);
      if j == p {
        assert DigitsOrUnderscoresTail(s, p + 1, k);
        InDigitsOrUnderscoresCorrect(s, p + 1);
      } else {
        assert SeparatorsTail(s, p + 1, j, k);
        InSeparatorsCorrect(s, p + 1);
      }
    }
  }

  ghost predicate NameTail(s: string, p: int, i: int, j: int, k: int)
  {
    && 0 <= p <= i < j && j + 2 <= k && k + 4 <= |s|
    && AllName(s, p, i) && AllSep(s, i, j) && AllDigitOrUnderscore(s, j, k)
    && IsDigit(s[k - 1]) && CsvAt(s, k)
  }

  lemma {:induction false} InNameCorrect(s: string, p: nat)
    requires p <= |s|
    ensures InName(s, p) <==> exists i, j, k :: NameTail(s, p, i, j, k)
    decreases |s| - p
  {
    if InName(s, p) {
      if IsNameChar(s[p]) && InName(s, p + 1) {
        InNameCorrect(s, p + 1);
        var i, j, k :| NameTail(s, p + 1, i, j, k);
        assert NameTail(s, p, i, j, k);
      } else {
        InSeparatorsCorrect(s, p + 1);
        var j, k :| SeparatorsTail(s, p + 1, j, k);
        assert NameTail(s, p, p, j, k);
      }
    }
    if exists i, j, k :: NameTail(s, p, i, j, k) {
      var i, j, k :| NameTail(s, p, i, j, k);
      if i == p {
        assert SeparatorsTail(s, p + 1, j, k);
        InSeparatorsCorrect(s, p + 1);
      } else {
        assert NameTail(s, p + 1, i, j, k);
        InNameCorrect(s, p + 1);
      }
    }
  }

  /** The matcher accepts exactly the names the pattern describes. */
  lemma MatchesCorrect(s: string)
    ensures Matches(s) <==> FollowsPattern(s)
  {
    if Matches(s) {
      InNameCorrect(s, 1);
      var i, j, k :| NameTail(s, 1, i, j, k);
      assert MatchesWith(s, i, j, k);
    }
    if FollowsPattern(s) {
      var i, j, k :| MatchesWith(s, i, j, k);
      assert NameTail(s, 1, i, j, k);
      InNameCorrect(s, 1);
    }
  }

  /** The regex `.csv` (any character except a newline, then `csv`) matches
      at index `q`. */
  predicate CsvRegexAt(s: string, q: int)
  {
    0 <= q && q + 4 <= |s| && s[q] != '\n' && s[q + 1..q + 4] == "csv"
  }

  /** Start of the leftmost match of the regex `.csv`, or `|s|` if none:
      `re.split('.csv', s)[0]` is `s[..CsvSplitPoint(s)]`. */
  function CsvSplitPoint(s: string): (p: nat)
    ensures p <= |s|
    ensures p < |s| ==> CsvRegexAt(s, p)
    ensures forall q :: 0 <= q < p ==> !CsvRegexAt(s, q)
  {
    if |s| < 4 then |s|
    else if s[0] != '\n' && s[1..4] == "csv" then 0
    else
      var p := 1 + CsvSplitPoint(s[1..]);
      assert forall q :: 1 <= q < p ==> CsvRegexAt(s, q) == CsvRegexAt(s[1..], q - 1);
      p
  }

  /** The text before `.csv` that the validator splits on `_`. */
  function Stem(s: string): string
  {
    s[..CsvSplitPoint(s)]
  }

  /** For a name that matches, the split on `.csv` cuts exactly where the
      pattern's `.csv` starts: no character of the four runs is a `c`. */
  lemma StemOfMatch(s: string, i: int, j: int, k: int)
    requires MatchesWith(s, i, j, k)
    ensures CsvSplitPoint(s) == k && Stem(s) == s[..k]
  {
    assert s[k] == '.' && s[k + 1..k + 4] == "csv" by {
      assert s[k..k + 4] == ".csv";
    }
    assert CsvRegexAt(s, k);
    forall q | 0 <= q < k
      ensures !CsvRegexAt(s, q)
    {
      assert s[q + 1] != 'c' by {
        if q + 1 < i {
          assert IsNameChar(s[q + 1]);
        } else if q + 1 < j {
          assert IsSepChar(s[q + 1]);
        } else if q + 1 < k {
          assert IsDigitOrUnderscore(s[q + 1]);
        }
      }
    }
  }
}
