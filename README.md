# Levenshtein distance of the speech-recognition scorer

The speech-recognition application scores a recognized utterance against a
reference text with `levenshtein_distance(s1, s2)` (app.py). This function is
the two-row Wagner–Fischer algorithm for the Levenshtein edit distance. It
first swaps the arguments so that `s2` is the shorter one. It returns
`len(s1)` when `s2` is empty. Otherwise it starts from the row
`0, 1, …, len(s2)` and builds one new row per token of `s1`. Each new row
starts with `i + 1`, and each new cell is the smallest of three costs: the cell
above plus one, the cell to the left plus one, and the diagonal cell plus
`c1 != c2` (0 or 1). The answer is the last cell of the last row.

This project models that function for token sequences `seq<T>` over any type
with equality. A Python `str` is a sequence of code points compared with `!=`,
so this is the same thing for strings.

- `lev_spec.dfy`, module `LevenshteinSpec`: the distance `Lev(a, b)` defined
  recursively over prefixes. It recurses on the last token of each argument,
  so `Lev(a[..i], b[..j])` is exactly cell `(i, j)` of the table the algorithm
  fills. The module also holds its properties: the cell recurrence, the empty
  cases, symmetry, "zero exactly when equal", and the lower and upper bounds.
- `edit_scripts.dfy`, module `EditScripts`: an independent definition of edit
  distance. An edit script is a list of keep / substitute / insert / delete
  steps. The module proves that `Lev(a, b)` is the least cost of a script
  that turns `a` into `b`. Some script attains it, and every script costs at
  least that much.
- `app.dfy`, module `App`: the imperative algorithm. It has the same swap, the
  same early return, the same nested loops and the same cell formula. Its two
  rows are sequences that the loops rebuild. The inner loop is written as a
  method of its own, `NextRow`, called once per pass of the outer loop. The
  loops are specified by `TableCell(a, b, i, j)`, the table entry computed
  on positions, and `TableCellIsLev` proves each entry is `Lev` of the two
  prefixes. The method is proved to return `Lev(s1, s2)`.
- `worked_examples.dfy`, module `WorkedExamples`: the standard examples
  ("flaw"/"lawn", "kitten"/"sitting", the empty string against "abc", and
  "你好"/"你好吗"), each proved by filling in its table. For three of them a
  method also runs `App.LevenshteinDistance` and is proved to return the
  expected value.

The source swaps the arguments by calling itself once (app.py:10-11). The
model does this with a conditional swap before the loops. The result is the
same, and the symmetry lemma justifies it.

Python names the two neighbour costs the other way round from the usual
convention. `insertions` is `previous_row[j + 1] + 1`, the cell above, and
`deletions` is `current_row[j] + 1`, the cell to the left. The model keeps
the code's names and the code's order of the three arguments to `min`. The
order does not change the minimum.

## Model

| member | source | states |
|---|---|---|
| `App.LevenshteinDistance` | app.py:9-26 | For all token sequences, with no precondition, the result is `Lev(s1, s2)`: the recursive Levenshtein distance, which `EditScripts.LevIsMinimalEditCost` shows is the least number of unit-cost edits. The loop invariant says that before token `i` of the longer argument is processed, `previous` has `len(s2) + 1` cells and `previous[j]` is table cell `(i, j)`, the distance between the first `i` tokens of one argument and the first `j` of the other. It starts as `0..len(s2)`. |
| `App.NextRow` | app.py:18-23 | Given row `i` of the table, the inner loop builds row `i + 1`. It has exactly `len(s2) + 1` cells, starts with `i + 1`, and every cell equals table cell `(i + 1, j)`. |
| `LevenshteinSpec.TableCellIsLev` | app.py:16-24 | Table cell `(i, j)`, computed by the row recurrence, is the distance between the first `i` tokens of `a` and the first `j` tokens of `b`. |
| `LevenshteinSpec.TableCellStep` | app.py:20-23 | If the three neighbours of an inner table cell equal the distances of their prefixes, the cell equals the distance of its own prefixes. |
| `LevenshteinSpec.LevIsLastCell` | app.py:26 | The distance of the whole sequences is the last cell of the full table, the value the source returns as `previous_row[-1]`. |
| `LevenshteinSpec.LevStep` | app.py:20-23 | A table cell equals the minimum of the cell above plus one, the cell to the left plus one, and the diagonal plus the mismatch cost of the two tokens. |
| `LevenshteinSpec.LevEmpty` | app.py:13-16 | Against an empty sequence the distance is the other sequence's length. This holds by the two base cases of `Lev`. `App.LevenshteinDistance` uses it for its early return. The initial row `0..len(s2)` is the same base case of `TableCell`. |
| `LevenshteinSpec.Min3` | app.py:23 | The result is at most each of its three arguments and equal to one of them. |
| `LevenshteinSpec.MismatchCost` | app.py:22 | The cost is 0 or 1, and it is 0 exactly when the two tokens are equal. |
| `LevenshteinSpec.LevSymmetric` | app.py:10-11 | `Lev(a, b) == Lev(b, a)`. So swapping the arguments when `len(s1) < len(s2)` does not change the result. |
| `LevenshteinSpec.LevZeroIffEqual` | app.py:9-26 | The distance is 0 if and only if the two sequences are equal. |
| `LevenshteinSpec.LevSelf` | app.py:22 | Identical inputs have distance 0. |
| `LevenshteinSpec.LevLowerBound` | app.py:9-26 | The distance is at least the absolute difference of the lengths. |
| `LevenshteinSpec.LevUpperBound` | app.py:9-26 | The distance is at most the larger of the two lengths. |
| `EditScripts.OptimalScript` | app.py:9-26 | For all `a` and `b`, the returned script turns `a` into `b` and costs exactly `Lev(a, b)`. |
| `EditScripts.CostAtLeastLev` | app.py:9-26 | Every script that turns `a` into `b` costs at least `Lev(a, b)`. |
| `EditScripts.LevIsMinimalEditCost` | app.py:9-26 | `Lev(a, b)` is the minimum cost over all edit scripts from `a` to `b`. Some script attains it, and none is cheaper. |
| `WorkedExamples.FlawLawn` | app.py:9-26 | The distance between "flaw" and "lawn" is 2. |
| `WorkedExamples.NonAscii` | app.py:9-26 | The distance between "你好" and "你好吗" is 1. Tokens are code points. |
| `WorkedExamples.KittenSitting` | app.py:9-26 | The distance between "kitten" and "sitting" is 3. |
| `WorkedExamples.EmptyAgainstAbc` | app.py:13-14 | The distance between "" and "abc" is 3 in either order. |
| `WorkedExamples.FlawLawnScore` | app.py:9-26 | The algorithm run on "flaw" and "lawn" returns 2. |
| `WorkedExamples.NonAsciiScore` | app.py:10-11 | The algorithm run on "你好" and "你好吗" returns 1. The shorter argument comes first here, so this run takes the swap. |
| `WorkedExamples.KittenSittingScore` | app.py:9-26 | The algorithm run on "kitten" and "sitting" returns 3. |

## Left out

- The `SpeechRecognizerApp` class, its Tk widgets and the Tk main loop (app.py:29-84). They are user interface, not computation.
- Microphone capture and the call to the external speech-recognition service, with its `RequestError` and `UnknownValueError` handling. They are audio I/O and a network call.
- Running recognition on a background thread. That is only about concurrency.
- The unused plotting imports.
- Unicode normalisation and case folding. The source does neither and compares raw characters with `!=`, so the model uses plain token equality.
- Python's list and `range` objects become Dafny sequences. The model does not capture memory use or list aliasing. After `previous_row = current_row` both names refer to the same list until the next pass binds `current_row` to a fresh list. No list is changed while it is shared, so this does not affect the result.
- The triangle inequality of the distance is not proved.
