# Question-ID list parsing of the exam question-bank CLI

The command-line tool builds tests from question IDs typed on one line:
`parse_id_list` in `cli_ui.py` takes that line and returns the IDs it names.
Commas count as separators, like whitespace. The line is split into tokens.
Only tokens made entirely of digits are kept, each converted to an integer.
Repeated values are then dropped, keeping the first occurrence and its
position.

The model follows the source's two passes:

- `Text` models `raw.replace(",", " ")` (`ReplaceCommas`) and the argument-less
  `str.split()` (`Tokens`). It proves that tokenising keeps every
  non-whitespace character, and that joining words and splitting them again
  gives the words back. It also proves that which whitespace character
  separates two words does not matter, and that a whitespace character cuts
  the input into two independently tokenised halves.
- `Decimal` models `str.isdigit` (`IsNumeral`) and `int` (`Value`) for ASCII
  digits. It proves that reading back a canonical numeral gives the number,
  that leading zeros do not change the value, and that every numeral is zeros
  in front of the canonical numeral of its value.
- `Dedup` models the second pass as a function, `Unique`. It proves that the
  result has no duplicates, holds exactly the input's values, and lists them
  in first-occurrence order. It also proves that these three properties
  determine the result uniquely.
- `CliUi` gives `IdList`, the function that says what `parse_id_list` returns.
  `ParseIdList` is the method with the source's two loops and its `seen` set.
  It returns either the list, proved equal to `IdList`, or the `ValueError`
  that `int` raises on a digit token longer than CPython's default limit of
  4300 digits. The lemmas state the promises of the docstring and of the code.

Whitespace is the fixed set of characters Python's `str.isspace` accepts,
written out in `Text.IsSpace`. Digits are ASCII `'0'..'9'`.

## Model

| member | source | states |
|---|---|---|
| `CliUi.ParseIdList` | cli_ui.py:16-33 | the call raises `ValueError` iff some all-digit token has more than 4300 digits, naming the first such token; otherwise the two loops return `IdList(raw)`: no value twice, exactly the values of the all-digit tokens, in the order of their first occurrence |
| `CliUi.Parts` | cli_ui.py:21-23 | the tokens the first loop visits are non-empty and hold neither whitespace nor a comma |
| `CliUi.IdList` | cli_ui.py:21-33 | the result has no duplicates, holds no negative value, and is no longer than the list of tokens |
| `CliUi.DigitValues` | cli_ui.py:22-25 | the first pass yields at most one value per token, none of them negative |
| `CliUi.DigitValuesMembers` | cli_ui.py:22-25 | a value is collected by the first pass iff some all-digit token has that value |
| `CliUi.IdListMembers` | cli_ui.py:21-32 | soundness and completeness: `x` is in the result iff `x` is the value of some all-digit token of the comma-replaced input |
| `CliUi.IdListFirstOccurrenceOrder` | cli_ui.py:27-32 | output values appear in the order of their first occurrence among the digit values |
| `CliUi.CommasAreSeparators` | cli_ui.py:21-23 | two inputs that differ only in which separator (comma or whitespace) stands at some positions give the same result |
| `CliUi.CommasAsSpaces` | cli_ui.py:21 | parsing a line and parsing it with every comma replaced by a space give the same result |
| `CliUi.CommaListIsSpaceList` | cli_ui.py:18 | the docstring's two spellings "1,3,5" and "1 3 5" give the same result |
| `CliUi.OtherTokensIgnored` | cli_ui.py:23-25 | a token with a character that is not a digit (such as "-1", "3a", "+2") contributes nothing: removing it from the line leaves the result unchanged |
| `CliUi.SameValueOnce` | cli_ui.py:24-32 | two all-digit tokens with equal value but different spelling give a single ID, because conversion happens before de-duplication |
| `CliUi.LeadingZerosDoNotMatter` | cli_ui.py:25-32 | "7 007" gives `[7]` |
| `CliUi.NoNumeralsNoIds` | cli_ui.py:22-33 | the result is empty iff no token is all digits, so the empty line gives `[]` |
| `Text.IsSpace` | cli_ui.py:23 | the separators of `split()` are Python's whitespace characters, none of which is a comma or a digit |
| `Text.ReplaceCommas` | cli_ui.py:21 | same length, no comma left, every comma replaced by whitespace, every other character kept |
| `Text.Tokens` | cli_ui.py:23 | every token is non-empty, holds no whitespace, and is made of characters of the input |
| `Text.TokensKeepText` | cli_ui.py:23 | the tokens laid end to end are exactly the non-whitespace characters of the input |
| `Text.TokensOfJoin` | cli_ui.py:23 | joining words with single spaces and splitting again returns the words |
| `Text.TokensIgnoreSpaceKind` | cli_ui.py:23 | inputs that differ only in which whitespace character stands where have the same tokens |
| `Text.TokensSplitAtSpace` | cli_ui.py:23 | the tokens of `a + c + b` with `c` whitespace are the tokens of `a` followed by those of `b` |
| `Decimal.IsNumeral` | cli_ui.py:24 | `part.isdigit()` restricted to ASCII digits: a non-empty run of `'0'..'9'`, which is always a single whitespace-free, comma-free token |
| `Decimal.Value` | cli_ui.py:25 | the value of a k-digit string is below 10^k |
| `Decimal.ValueOfNumeral` | cli_ui.py:25 | reading the canonical decimal numeral of `n` gives `n` |
| `Decimal.ValueIgnoresLeadingZeros` | cli_ui.py:25 | any number of leading zeros leaves the value unchanged |
| `Decimal.NumeralOfValue` | cli_ui.py:24-25 | every all-digit token is some zeros followed by the canonical numeral of its value |
| `Dedup.Unique` | cli_ui.py:27-32 | the result has no duplicates, holds exactly the values of the input, and is no longer than it |
| `Dedup.UniqueKeepsFirstOccurrenceOrder` | cli_ui.py:29-32 | kept values appear in the order of their first occurrence in the input |
| `Dedup.UniqueIsTheOnlySuch` | cli_ui.py:19 | any duplicate-free sequence with exactly the input's values, in first-occurrence order, equals `Unique` of the input |

## Left out

- `prompt` and `prompt_int` in `cli_ui.py` are console input with a retry loop, so they are not modelled.
- Unicode digits are not modelled. `str.isdigit` also accepts them, and `int` accepts the decimal ones but raises `ValueError` on others such as superscript two. The model treats every token that is not all ASCII digits as ignored.
- Decimal.Value: gives a value for any number of digits. The 4300-digit limit of `int` is applied where `int` is called, in `CliUi.ParseIdList`.
- CliUi.IdList: describes the result only when no digit token exceeds the 4300-digit limit. When one does, `CliUi.ParseIdList` returns the error instead.
- The limit is fixed at CPython's default of 4300. Changing it with `sys.set_int_max_str_digits` or `PYTHONINTMAXSTRDIGITS` is not modelled, and neither are Python versions without the limit.
- Python's own integer conversion, `str.split` and `str.replace` are library calls. They are modelled as specification functions, not as loops.
- `db.py` is SQLite connection handling, PRAGMA and commit/rollback, and an environment-variable lookup. It is foreign-library I/O and is not part of this model.
- The store operations that `actions.py` imports from `db` (`add_category`, `get_or_create_test`, `add_question_to_test`, and the rest) are not in the shown `db.py`. Their get-or-create de-duplication therefore has no code to model against, and it is not modelled.
- `actions.py` and `main.py` are interactive handlers and the menu loop: prompting, printing and dispatch. They are not modelled.
