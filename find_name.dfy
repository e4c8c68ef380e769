/**
 The name-detection heuristic of the PII scanner: `find_name(text)` runs an
 unanchored search for `[a-zA-Z]{2,25}\s[a-zA-Z]{2,25}` and answers whether
 any match exists.

 `RegexSearch` transcribes that pattern under search semantics;
 `FindName` and `ScanForName` are executable versions proved equal to it,
 and the lemmas state what the heuristic does and does not accept.
 */
module Team1Pii {

  /** Shortest and longest letter run accepted by `{2,25}`. */
  const MinRun: nat := 2
  const MaxRun: nat := 25

  /** `[a-zA-Z]`: ASCII letters only. */
  predicate IsAsciiLetter(c: char) {
    ('a' <= c <= 'z') || ('A' <= c <= 'Z')
  }

  /** `\s` in a Python 3 str pattern: every character that str.isspace() accepts. */
  predicate IsSpace(c: char) {
    || ('\t' <= c <= '\r')          // tab, line feed, vertical tab, form feed, carriage return
    || ('\U{1C}' <= c <= ' ')       // file, group, record and unit separators, space
    || c == '\U{85}' || c == '\U{A0}' || c == '\U{1680}'
    || ('\U{2000}' <= c <= '\U{200A}')
    || c == '\U{2028}' || c == '\U{2029}' || c == '\U{202F}' || c == '\U{205F}' || c == '\U{3000}'
  }

  /** text[lo..hi] is a run of ASCII letters. */
  ghost predicate Letters(text: string, lo: int, hi: int) {
    0 <= lo && hi <= |text| && forall k :: lo <= k < hi ==> IsAsciiLetter(text[k])
  }

  /**
   The pattern matches text[p .. p + m + 1 + n]: a first run of m letters,
   one whitespace character, and a second run of n letters, both runs of
   2 to 25 letters.
   */
  ghost predicate MatchAt(text: string, p: int, m: int, n: int) {
    && 0 <= p
    && MinRun <= m <= MaxRun
    && MinRun <= n <= MaxRun
    && p + m + 1 + n <= |text|
    && Letters(text, p, p + m)
    && IsSpace(text[p + m])
    && Letters(text, p + m + 1, p + m + 1 + n)
  }

  /** `re.search` finds a match somewhere in text (the search is not anchored). */
  ghost predicate RegexSearch(text: string) {
    exists p, m, n :: MatchAt(text, p, m, n)
  }

  /** The same pattern with the `{2,25}` bounds relaxed to `{2,}`. */
  ghost predicate UnboundedMatchAt(text: string, p: int, m: int, n: int) {
    && 0 <= p
    && MinRun <= m
    && MinRun <= n
    && p + m + 1 + n <= |text|
    && Letters(text, p, p + m)
    && IsSpace(text[p + m])
    && Letters(text, p + m + 1, p + m + 1 + n)
  }

  ghost predicate UnboundedSearch(text: string) {
    exists p, m, n :: UnboundedMatchAt(text, p, m, n)
  }

  /**
   text[i] is whitespace with two ASCII letters immediately before it and
   two immediately after it.
   */
  predicate SeparatorAt(text: string, i: int) {
    && 2 <= i
    && i + 2 < |text|
    && IsAsciiLetter(text[i - 2])
    && IsAsciiLetter(text[i - 1])
    && IsSpace(text[i])
    && IsAsciiLetter(text[i + 1])
    && IsAsciiLetter(text[i + 2])
  }

  lemma MatchGivesSeparator(text: string, p: int, m: int, n: int)
    requires MatchAt(text, p, m, n)
    ensures SeparatorAt(text, p + m)
  {
  }

  lemma SeparatorGivesMatch(text: string, i: int)
    requires SeparatorAt(text, i)
    ensures MatchAt(text, i - 2, 2, 2)
  {
  }

  /**
   A match of the pattern exists exactly when some whitespace character has
   two ASCII letters on each side of it.
   */
  lemma SearchIffSeparator(text: string)
    ensures RegexSearch(text) <==> exists i :: SeparatorAt(text, i)
  {
    if RegexSearch(text) {
      var p, m, n :| MatchAt(text, p, m, n);
      MatchGivesSeparator(text, p, m, n);
    }
    if i :| SeparatorAt(text, i) {
      SeparatorGivesMatch(text, i);
    }
  }

  /** `find_name`: true exactly when the unanchored search finds a match. */
  function FindName(text: string): (found: bool)
    ensures found <==> RegexSearch(text)
  {
    SearchIffSeparator(text);
    exists i | 2 <= i < |text| - 2 :: SeparatorAt(text, i)
  }

  /** `find_name` as a left-to-right scan over the candidate separators. */
  method ScanForName(text: string) returns (found: bool)
    ensures found == FindName(text)
    ensures found <==> RegexSearch(text)
  {
    var i := 2;
    while i + 2 < |text|
      invariant 2 <= i
      invariant forall j :: 2 <= j < i ==> !SeparatorAt(text, j)
    {
      if SeparatorAt(text, i) {
        return true;
      }
      i := i + 1;
    }
    assert !FindName(text);
    return false;
  }

  /**
   The `{2,25}` upper bound never changes the answer: a longer letter run
   next to the whitespace still contains a run of two letters adjacent to it.
   */
  lemma UpperBoundNeverRestricts(text: string)
    ensures RegexSearch(text) <==> UnboundedSearch(text)
  {
    if RegexSearch(text) {
      var p, m, n :| MatchAt(text, p, m, n);
      assert UnboundedMatchAt(text, p, m, n);
    }
    if UnboundedSearch(text) {
      var p, m, n :| UnboundedMatchAt(text, p, m, n);
      assert MatchAt(text, p + m - 2, 2, 2);
    }
  }

  /**
   A first name of any length (30 letters, say) followed by one whitespace
   character and a last name of two or more letters is detected.
   */
  lemma LongTokenDetected(first: string, sep: char, last: string)
    requires |first| >= MinRun && |last| >= MinRun
    requires forall k :: 0 <= k < |first| ==> IsAsciiLetter(first[k])
    requires forall k :: 0 <= k < |last| ==> IsAsciiLetter(last[k])
    requires IsSpace(sep)
    ensures FindName(first + [sep] + last)
  {
    var text := first + [sep] + last;
    assert SeparatorAt(text, |first|);
  }

  /** The search is unanchored: surrounding text never hides a match. */
  lemma ExtensionPreservesName(a: string, s: string, b: string)
    requires FindName(s)
    ensures FindName(a + s + b)
  {
    var i :| 2 <= i < |s| - 2 && SeparatorAt(s, i);
    var t := a + s + b;
    assert forall k :: 0 <= k < |s| ==> t[|a| + k] == s[k];
    assert SeparatorAt(t, |a| + i);
  }

  /** Text with no whitespace character, or shorter than five characters, is never a name. */
  lemma NoSeparatorNoName(text: string)
    requires |text| < 5 || forall k :: 0 <= k < |text| ==> !IsSpace(text[k])
    ensures !FindName(text)
  {
  }

  /**
   Every match needs a letter on both sides of its whitespace character, so
   two whitespace characters in a row never form the separator.
   */
  lemma SeparatorFlankedByLetters(text: string, i: int)
    requires 0 < i < |text| - 1 && IsSpace(text[i])
    requires IsSpace(text[i - 1]) || IsSpace(text[i + 1])
    ensures !SeparatorAt(text, i)
  {
  }

  /** Maps an ASCII capital letter to its lower-case form; every other character to itself. */
  function FoldCase(c: char): char {
    if 'A' <= c <= 'Z' then (c as int - 'A' as int + 'a' as int) as char else c
  }

  /** s and t differ at most in the case of ASCII letters. */
  ghost predicate SameIgnoringCase(s: string, t: string) {
    |s| == |t| && forall k :: 0 <= k < |s| ==> FoldCase(s[k]) == FoldCase(t[k])
  }

  lemma SeparatorIgnoresCase(s: string, t: string, i: int)
    requires SameIgnoringCase(s, t)
    requires SeparatorAt(s, i)
    ensures SeparatorAt(t, i)
  {
  }

  /** `[a-zA-Z]` accepts both cases: changing the case of letters never changes the answer. */
  lemma CaseInsensitive(s: string, t: string)
    requires SameIgnoringCase(s, t)
    ensures FindName(s) == FindName(t)
  {
    if i :| 2 <= i < |s| - 2 && SeparatorAt(s, i) {
      SeparatorIgnoresCase(s, t, i);
    }
    if i :| 2 <= i < |t| - 2 && SeparatorAt(t, i) {
      SeparatorIgnoresCase(t, s, i);
    }
  }

  /** Changing the case of the one ASCII letter at index k never changes the answer. */
  lemma ChangeCaseAt(text: string, k: nat, c: char)
    requires k < |text| && IsAsciiLetter(text[k]) && FoldCase(c) == FoldCase(text[k])
    ensures FindName(text[k := c]) == FindName(text)
  {
    CaseInsensitive(text, text[k := c]);
  }

  /** "John Smith" is a name. */
  lemma JohnSmithIsName()
    ensures FindName("John Smith")
  {
    assert SeparatorAt("John Smith", 4);
  }

  /** "Dear Sir" is accepted as well: the heuristic has no list of non-names. */
  lemma DearSirIsName()
    ensures FindName("Dear Sir")
  {
    assert SeparatorAt("Dear Sir", 4);
  }

  /** Two spaces between the words: no single whitespace separates two runs. */
  lemma DoubleSpaceIsNotName()
    ensures !FindName("John  Smith")
  {
  }

  /** A one-letter first token is too short. */
  lemma InitialIsNotName()
    ensures !FindName("J Smith")
  {
  }

  /** Digits next to the separator break the first run. */
  lemma DigitsAreNotName()
    ensures !FindName("John123 Smith")
  {
  }

  /** A 30-letter first token followed by " Smith" is still a name. */
  lemma ThirtyLetterTokenIsName()
    ensures FindName("Abcdefghijklmnopqrstuvwxyzabcd Smith")
  {
    var first := "Abcdefghijklmnopqrstuvwxyzabcd";
    assert |first| == 30;
    LongTokenDetected(first, ' ', "Smith");
    assert first + [' '] + "Smith" == "Abcdefghijklmnopqrstuvwxyzabcd Smith";
  }
}
