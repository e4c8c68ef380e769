# Name detection in the PII scanner

This project models `find_name`, the name-detection heuristic of a small
PII (personally identifiable information) scanner. `find_name(text)` runs
an unanchored `re.search` for the pattern
`([a-zA-Z]{2,25}\s([a-zA-Z]{2,25}))`. It returns `True` when a match exists
and `False` otherwise. This is a coarse "First Last" test: two runs of 2 to
25 ASCII letters separated by exactly one whitespace character.

Everything is in module `Team1Pii` (`find_name.dfy`):

- `IsAsciiLetter` is `[a-zA-Z]`. `IsSpace` is `\s` as a Python 3 `str`
  pattern reads it: every character `str.isspace()` accepts, namely
  U+0009–U+000D, U+001C–U+0020, U+0085, U+00A0, U+1680, U+2000–U+200A,
  U+2028, U+2029, U+202F, U+205F and U+3000.
- `MatchAt` / `RegexSearch` transcribe the pattern under search semantics.
  `RegexSearch(text)` holds when some start `p` and run lengths `m`, `n` in
  `[2, 25]` give `m` letters, one whitespace character, then `n` letters.
- `FindName` is the executable predicate. It looks for a whitespace index
  with two letters on each side. `ScanForName` performs the same search as
  a left-to-right loop. Both are proved equal to `RegexSearch`.
- The lemmas state the heuristic's behaviour. The `{2,25}` upper bound
  never matters, matches survive surrounding text, letter case is ignored,
  and some inputs are rejected: no whitespace, fewer than five characters,
  a doubled space, a one-letter token, or digits beside the separator.

## Model

| member | source | states |
|---|---|---|
| `Team1Pii.FindName` | team1_pii.py:8-12 | the result is true exactly when the unanchored search for the pattern finds a match somewhere in the text, and false otherwise |
| `Team1Pii.ScanForName` | team1_pii.py:8-12 | a left-to-right scan of the text returns the same answer as `FindName`, which is true exactly when the pattern matches somewhere |
| `Team1Pii.SearchIffSeparator` | team1_pii.py:9 | the pattern matches somewhere exactly when some whitespace character has two ASCII letters immediately before it and two immediately after it |
| `Team1Pii.UpperBoundNeverRestricts` | team1_pii.py:9 | the search with the `{2,25}` bounds finds a match exactly when the same search with `{2,}` does |
| `Team1Pii.LongTokenDetected` | team1_pii.py:9 | a letter token of any length of at least two, followed by one whitespace character and a second token of at least two letters, is detected |
| `Team1Pii.ThirtyLetterTokenIsName` | team1_pii.py:9 | a 30-letter word followed by " Smith" is detected despite the 25-letter bound |
| `Team1Pii.ExtensionPreservesName` | team1_pii.py:9 | if the text is detected, then it is still detected with any text added before and after it |
| `Team1Pii.NoSeparatorNoName` | team1_pii.py:9 | text with no whitespace character, or shorter than five characters, is never detected |
| `Team1Pii.SeparatorFlankedByLetters` | team1_pii.py:9 | a whitespace character next to another whitespace character is never the separator of a match |
| `Team1Pii.CaseInsensitive` | team1_pii.py:9 | two texts that differ only in the case of ASCII letters get the same answer |
| `Team1Pii.ChangeCaseAt` | team1_pii.py:9 | changing the case of one ASCII letter of the text leaves the answer unchanged |
| `Team1Pii.JohnSmithIsName` | team1_pii.py:9-11 | "John Smith" is detected |
| `Team1Pii.DearSirIsName` | team1_pii.py:9-11 | "Dear Sir" is detected too, because no list of common non-name phrases is consulted |
| `Team1Pii.DoubleSpaceIsNotName` | team1_pii.py:9-12 | "John  Smith", with two spaces, is not detected |
| `Team1Pii.InitialIsNotName` | team1_pii.py:9-12 | "J Smith" is not detected because the first token has one letter |
| `Team1Pii.DigitsAreNotName` | team1_pii.py:9-12 | "John123 Smith" is not detected because digits break the first run |

## Left out

- `scan_files`, `get_file_text` and `show_aggie_pride` are imported from `scan.py`. That file is not part of this model. It covers directory walking, PDF/DOCX/XLSX text extraction, the `RuntimeError` raised for unsupported extensions and the empty list returned for an empty file. All of that is file I/O or relies on third-party parsers.
- The unused `scan` import in `team1_pii.py` has no behaviour to model.
- Python's `re` engine in general is not modelled. The model describes this one pattern directly.
- The match object that `re.search` returns is not modelled: its span, its two capture groups and leftmost-greedy choice of match. `find_name` only checks whether a match exists, and a match object is always truthy.
- A non-`str` argument makes `re.search` raise `TypeError`. The model's argument is always a string (`seq<char>`), so this case does not arise.
- "Input not modified" needs no statement: `FindName` is a pure function and `ScanForName` takes an immutable sequence.
