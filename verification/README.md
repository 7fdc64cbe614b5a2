# Simple CLI Calculator — a Dafny model

This project models the core of a small interactive calculator. The
program shows a menu. It reads a choice, then reads two operands with a
reader that retries on bad input and accepts `q`/`quit` as cancellation.
It applies one of four operations (`+`, `-`, `*`, `/`) and keeps a session
history of the successful computations.

The model is functional:

- `Numbers` — a number is `Int(int)` or `Frac(real)`: Python's `int` or
  `float`, where a float is an exact real. `Normalize` turns a whole-valued
  float into the equal `int`.
- `Arithmetic` — `Add`, `Subtract`, `Multiply` and `Divide` follow
  Python's mixed typing: `int` with `int` gives `int`, any float gives a
  float, and true division always gives a float. `Divide` fails with
  `DivisionByZero`. `Operations` is the choice table.
- `Text` — `str.strip()` with Python's full white-space set, and
  `str.lower()` for ASCII letters.
- `Reader` — `get_number`. `Classify` decides what one line is: a
  cancellation, a number, or invalid input. `ReadNumber` is the retry loop
  over input lines. `float()` is a parameter `parse` applied to the
  stripped text.
- `Calculator` — the main loop. A `Session` holds the history of `Entry`
  records and a running flag. `Step` is one loop iteration over an `Event`:
  the stripped choice plus the operands the reader returned. `Steps` runs a
  sequence of events. `NextEvent` and `Run` consume raw input lines lazily,
  as `main` does.
- `Scenarios` — concrete sessions: `1 2 3`, `4 5 0`, `5`, `3 2.5 4`, a
  cancellation after a retry, and exit.

The choice line is stripped before it is compared (line 72), so ` 1 `
selects addition and `01` is an invalid option. The model follows the code
here.

## Model

| member | source | states |
|---|---|---|
| Numbers.Normalize | Calculator_project/Calculator_project/calculator.py:103-105 | the result has the same value as the input; it is never a whole-valued float; an `int` is left alone; a non-whole float is returned unchanged |
| Numbers.NormalUnique | Calculator_project/Calculator_project/calculator.py:103-105 | two normal-form numbers with equal values are the same number, so normalisation picks the one normal form of a value |
| Numbers.NormalizeFixpoint | Calculator_project/Calculator_project/calculator.py:103-105 | normalising is idempotent, and it leaves a number alone exactly when the number is already normal |
| Arithmetic.Add | Calculator_project/Calculator_project/calculator.py:14-15 | the value is the sum of the operand values; the result is an `int` iff both operands are |
| Arithmetic.Subtract | Calculator_project/Calculator_project/calculator.py:18-19 | the value is the difference; the result is an `int` iff both operands are |
| Arithmetic.Multiply | Calculator_project/Calculator_project/calculator.py:22-23 | the value is the product; the result is an `int` iff both operands are |
| Arithmetic.Divide | Calculator_project/Calculator_project/calculator.py:26-29 | fails iff the divisor's value is zero (`0` or `0.0`); otherwise it returns a float `q` with `q * b == a` |
| Arithmetic.Apply | Calculator_project/Calculator_project/calculator.py:102 | calling a table operation fails iff it is division with a zero divisor; the other three never fail |
| Arithmetic.ApplyMeansSymbol | Calculator_project/Calculator_project/calculator.py:63-68 | each operation computes exactly what its symbol means over exact values (sum, difference, product, quotient), and fails exactly where the symbol is undefined |
| Arithmetic.Operations | Calculator_project/Calculator_project/calculator.py:63-68 | exactly the selectors `1`..`4` are keys; each entry's symbol is its operation's symbol, and its operation is the one whose selector was looked up |
| Arithmetic.ChoiceRoundTrip | Calculator_project/Calculator_project/calculator.py:63-68 | every operation is found under its own selector with its own symbol, and under no other selector |
| Text.Trim | Calculator_project/Calculator_project/calculator.py:35 | the stripped line neither starts nor ends with white space, and it is empty iff the input is all white space |
| Text.Lower | Calculator_project/Calculator_project/calculator.py:36 | lower-casing keeps the length, leaves no upper-case ASCII letter, and changes a character only by replacing an upper-case letter with its lower-case form |
| Text.TrimLeftKeepsSuffix | Calculator_project/Calculator_project/calculator.py:35 | removing leading white space keeps a suffix that does not start with white space, and drops only white space |
| Text.TrimRightKeepsPrefix | Calculator_project/Calculator_project/calculator.py:35 | removing trailing white space keeps a prefix that does not end with white space, and drops only white space |
| Text.TrimIsInnerPiece | Calculator_project/Calculator_project/calculator.py:35 | a stripped line is a contiguous piece of the input, surrounded only by white space |
| Text.TrimPadded | Calculator_project/Calculator_project/calculator.py:35 | stripping undoes any white-space padding of a stripped string |
| Text.TrimIdempotent | Calculator_project/Calculator_project/calculator.py:35 | stripping twice is stripping once |
| Reader.IsCancel | Calculator_project/Calculator_project/calculator.py:35-37 | a line cancels iff, once stripped, it spells `q` or `quit` with each letter in either case |
| Reader.FromParsed | Calculator_project/Calculator_project/calculator.py:40-43 | a parsed value keeps its numeric value; it is returned as an `int` iff it has no fractional part |
| Reader.Classify | Calculator_project/Calculator_project/calculator.py:35-45 | a line is a cancellation iff it is a cancel token; it is a number iff it is not a cancel token and parses; a number is normal and equal to the parsed value |
| Reader.ReadNumber | Calculator_project/Calculator_project/calculator.py:34-45 | a read leaves a strict suffix of the input unread: exactly the lines after the one that decided |
| Reader.ReadNumberStopsAtFirstAccepted | Calculator_project/Calculator_project/calculator.py:34-45 | the input runs out iff every line is invalid; otherwise every line before the deciding one is invalid, and the result is what the deciding line holds |
| Reader.ReadNumberEnds | Calculator_project/Calculator_project/calculator.py:34-45 | the reader runs out of input iff every line it sees is invalid |
| Reader.ReadNumberDecides | Calculator_project/Calculator_project/calculator.py:34-45 | a read stops at the first line that is not invalid: every line before it is invalid, and the result is what that line holds |
| Reader.ReadSkipsInvalid | Calculator_project/Calculator_project/calculator.py:44-45 | invalid lines before an accepted line change nothing: the result and the unread rest are those of that line |
| Calculator.Step | Calculator_project/Calculator_project/calculator.py:74-112 | the loop keeps running iff the choice is not `0`; `5` shows the current history; unknown choices report invalid; cancelling an operand reports cancellation; failure happens iff it is a division by zero; success appends exactly one entry, holding the operands, the table's symbol and an exact, normalised result; all other outcomes leave history unchanged |
| Calculator.Steps | Calculator_project/Calculator_project/calculator.py:70-112 | after any event sequence, history is the old history followed by the computed entries, in order |
| Calculator.StepsStopOnlyAtExit | Calculator_project/Calculator_project/calculator.py:74-76 | a running loop has stopped iff it reported an exit, and the exit is the last thing it reported |
| Calculator.StepsKeepHistoryCorrect | Calculator_project/Calculator_project/calculator.py:101-109 | every recorded entry stays arithmetically exact and in normal form |
| Calculator.NextEvent | Calculator_project/Calculator_project/calculator.py:72-98 | an iteration that does not run out of input consumes at least one line from the front of the input, and what it leaves is exactly the remaining suffix |
| Calculator.Operands | Calculator_project/Calculator_project/calculator.py:93-98 | reading the operands consumes at least one line from the front, and what it leaves is exactly the remaining suffix |
| Calculator.OperandsCancelFirst | Calculator_project/Calculator_project/calculator.py:93-95 | a cancelled first operand, after rejected lines, ends the reading there, with no operands, and the second operand is not read |
| Calculator.OperandsReadsBoth | Calculator_project/Calculator_project/calculator.py:93-98 | with a number as first operand, the second operand is read next; rejected lines before each are skipped; the event holds the first number and what the second line gave, and exactly the lines after it are left |
| Calculator.NextEventOtherChoice | Calculator_project/Calculator_project/calculator.py:72-89 | `0`, `5` and any choice not in the table take their own line only, with no operands |
| Calculator.NextEventArithmetic | Calculator_project/Calculator_project/calculator.py:87-98 | after a choice in the table, the iteration is the operand reading of the lines that follow |
| Calculator.NextEventCancelFirst | Calculator_project/Calculator_project/calculator.py:72-95 | an arithmetic choice, rejected lines and a cancel line make one event without operands; the lines after the cancel are left for the next iteration |
| Calculator.NextEventReadsBoth | Calculator_project/Calculator_project/calculator.py:72-98 | an arithmetic choice, rejected lines, a number, rejected lines and a deciding line make one event with the number and what the deciding line gave; exactly the lines after it are left |
| Calculator.Events | Calculator_project/Calculator_project/calculator.py:70-98 | splitting the input into iterations yields at most one event per line |
| Calculator.Run | Calculator_project/Calculator_project/calculator.py:60-112 | a whole run's history is the old history followed by the computed entries of its log, and it reports at most one outcome per input line |
| Calculator.RunIsSteps | Calculator_project/Calculator_project/calculator.py:70-99 | reading operands lazily, as the loop does, gives the same run as splitting the input into events first |
| Calculator.RecordedCountsSuccesses | Calculator_project/Calculator_project/calculator.py:109 | the number of recorded entries equals the number of successful computations in the log |
| Calculator.RunHistory | Calculator_project/Calculator_project/calculator.py:60-112 | from the start state, history is exactly the computed entries in order; its length is their number; all entries are exact and normalised |
| Calculator.RunStopsOnlyAtExit | Calculator_project/Calculator_project/calculator.py:70-76 | a whole run has stopped iff it reported an exit on `0`, and that exit was its last report |
| Scenarios.AddTwoThree | Calculator_project/Calculator_project/calculator.py:91-109 | input `1`, `2`, `3` records the one entry `2 + 3 = 5` and keeps running |
| Scenarios.DivideByZero | Calculator_project/Calculator_project/calculator.py:111-112 | input `4`, `5`, `0` reports division by zero and leaves history empty |
| Scenarios.EmptyHistory | Calculator_project/Calculator_project/calculator.py:78-80 | input `5` on a fresh session shows an empty history |
| Scenarios.MultiplyNormalises | Calculator_project/Calculator_project/calculator.py:103-105 | input `3`, `2.5`, `4` records `2.5 * 4 = 10` with the result as the `int` 10 |
| Scenarios.CancelAfterRetry | Calculator_project/Calculator_project/calculator.py:93-95 | after a rejected line, ` QuIt ` cancels the first operand and nothing is computed |
| Scenarios.ExitStops | Calculator_project/Calculator_project/calculator.py:74-76 | input `0` exits at once, and the lines after it are not read |

## Left out

- Console output (`print`) and the menu text of `print_menu` (lines 48-57) are not modelled. Each iteration instead reports an `Outcome`: exited, shown history, invalid option, cancelled, computed entry or failure.
- `float()` parsing (line 40) is the parameter `parse`, applied to the stripped text. It also accepts `inf`, `nan`, exponents and underscores. The model only decides cancellation, retry and normalisation around it.
- IEEE-754 behaviour is not modelled: rounding, `-0.0`, infinities, NaN, overflow, and precision loss in `int(float)`. Floats are exact reals.
- History entries are `Entry(a, symbol, b, result)` records, not the f-string of line 107. That string depends on Python's float `repr`.
- The generic `except Exception` (line 111) is modelled only for division by zero. With exact arithmetic, no other exception is reachable.
- Reaching the end of input makes `input()` raise `EOFError`, which ends the Python program with a traceback. `Run` and `ReadNumber` simply stop there.
- `str.lower()` is modelled for ASCII letters only. No non-ASCII character lowers to exactly `q`, `u`, `i` or `t`. U+0130 (`İ`) lowers to `i` followed by the combining dot U+0307, but that extra mark means a line holding it can never lower to exactly `q` or `quit`. So the cancel decision is the same.
- An exited session takes no steps: `Step` requires a running session, because the loop body never runs after `break`.
