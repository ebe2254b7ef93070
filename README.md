# Process factory fakes and recording, in Dafny

This project models the test-support bookkeeping of the console process
factory `Illuminate\Console\Process\Factory`. A factory holds four pieces of
state:

- a `recording` flag;
- the `recorded` log of (process, result) pairs;
- the `fakeHandlers` table, which maps command patterns to fake handlers (`*` catches every command);
- the `preventStrayProcesses` flag.

`fake` installs or merges handlers and turns recording on. `record` and
`recordIfRecording` append to the log. The `assert*` methods count the logged
pairs that satisfy a test's callback.

Files:

- `Factory.dfy`, module `ProcessFactory`: the class `Factory<P, R, V>` with
  the four fields and the operations. The merge that `fake(array)` performs is
  specified by the function `Merge`, with lemmas about it. The assertion
  outcomes are specified by `CountMatching` and `MatchingIndices`, with lemmas
  about them. Processes (`P`), results (`R`) and plain fake values (`V`) are
  opaque type parameters. A closure is known only by an identity number.
- `HandlerTable.dfy`, module `HandlerTable`: the handler table as an ordered
  list of (pattern, handler) pairs, which is how a PHP array with string keys
  behaves. Assigning to a present key replaces its value in place. Assigning
  to a new key appends it.
- `NumericString.dfy`, module `NumericString`: PHP 8's `is_numeric` on
  strings. It decides which keys of the array given to `fake` collapse to `*`.

The state-changing operations (`Fake`, `Record`, `RecordIfRecording`,
`PreventStrayProcesses`) are class methods. Each one states the whole new
state. `Fake` keeps the class invariant `Valid()`, which says no pattern
appears twice in the handler table. `Fake` runs the same `foreach` loop as
the source, updating the field one entry at a time. The read-only queries
(`IsRecording`, `PreventingStrayProcesses` and the four assertions) are
functions that read the object, so they cannot change it.

`record` appends unconditionally (Process/Factory.php:146-151); only
`recordIfRecording` checks the flag (Process/Factory.php:130-137). The model
follows the code.

## Model

| member | source | states |
|---|---|---|
| `ProcessFactory.Factory.constructor` | Process/Factory.php:21-42 | A new factory is not recording, has an empty log and an empty handler table, and does not prevent stray processes. The getters `IsRecording` (Process/Factory.php:118-121) and `PreventingStrayProcesses` (Process/Factory.php:171-174) both return false, and `AssertNothingRan` passes. |
| `ProcessFactory.Factory.Fake` | Process/Factory.php:88-111 | Afterwards the getter `IsRecording()` holds, and the log and the stray-process flag are unchanged. With no argument, the table becomes exactly one `*` entry holding the default-result handler. With a closure, the table becomes exactly one `*` entry holding that closure. With an array, the table becomes `Merge` of the old table and the array's entries, processed in order. The no-duplicate-pattern invariant is kept. |
| `ProcessFactory.CatchAll` | Process/Factory.php:92-102 | The table installed by `fake()` or `fake(closure)` has exactly one key, `*`. Looking up `*` gives the handler; every other pattern finds nothing, so no earlier entry survives. |
| `ProcessFactory.MergeUntouched` | Process/Factory.php:104-108 | A pattern that no array entry writes to keeps the handler it had before, or stays absent. |
| `ProcessFactory.MergeLastWins` | Process/Factory.php:104-108 | For each pattern that the array writes to, the handler comes from the last entry targeting that pattern. A closure is stored as itself; any other value is stored as a constant handler. |
| `ProcessFactory.MergeKeepsOrder` | Process/Factory.php:104-108 | The patterns already in the table keep their positions. Patterns added by the merge come after them. |
| `ProcessFactory.MergeKeepsDistinct` | Process/Factory.php:104-108 | Merging never creates a second entry for the same pattern. |
| `ProcessFactory.TargetIsWildcard` | Process/Factory.php:105 | An array key writes to `*` exactly when it is numeric (every integer key, and every numeric string) or is the string `*` itself. |
| `HandlerTable.LookupPut` | Process/Factory.php:105 | Assigning a handler to a pattern makes that pattern read back the new handler. Every other pattern reads as before. |
| `HandlerTable.KeysPut` | Process/Factory.php:105 | Assigning to a pattern already present leaves the pattern order unchanged. Assigning to a new pattern appends it at the end. |
| `HandlerTable.PutKeepsDistinct` | Process/Factory.php:105 | Assigning to a pattern never creates a duplicate pattern. |
| `HandlerTable.LookupFindsKeys` | Process/Factory.php:105 | A lookup finds a handler exactly when the pattern is one of the table's keys. |
| `NumericString.NumericHasDigit` | Process/Factory.php:105 | Every numeric string contains a decimal digit. So the empty key and non-numeric patterns such as `*` are kept as patterns. |
| `NumericString.WithoutDigitsNotNumeric` | Process/Factory.php:105 | A key with no digit, such as the pattern `*` or `ls *`, is not numeric and is stored under its own name. |
| `HandlerTable.PutAllLastWins` | Process/Factory.php:104-108 | After a series of assignments in order, a key holds the value of the last assignment to it. |
| `HandlerTable.PutAllUntouched` | Process/Factory.php:104-108 | After a series of assignments in order, a key that none of them writes reads as it did before. |
| `NumericString.DigitsAreNumeric` | Process/Factory.php:105 | A non-empty run of decimal digits, such as the string form of a list index, is numeric and collapses to `*`. |
| `NumericString.PaddedSignedIsNumeric` | Process/Factory.php:105 | A signed digit run with any amount of leading and trailing whitespace (space, tab, newline, carriage return, vertical tab, form feed) is still numeric, as in PHP 8. |
| `NumericString.TrimLeftWhitespace` | Process/Factory.php:105 | A whitespace prefix of a key is skipped, and skipping stops at the first other character. |
| `NumericString.TrimRightWhitespace` | Process/Factory.php:105 | A whitespace suffix of a key is skipped, and skipping stops at the last other character. |
| `ProcessFactory.Factory.Record` | Process/Factory.php:146-151 | Appends exactly the pair (process, result) at the end of the log. Earlier entries are unchanged, and nothing else in the factory changes. |
| `ProcessFactory.Factory.RecordIfRecording` | Process/Factory.php:130-137 | Appends the pair when `IsRecording()` holds. Otherwise the log is unchanged. Nothing else in the factory changes. |
| `ProcessFactory.CountAfterRecord` | Process/Factory.php:148 | Recording one more pair raises a callback's count by one if the callback accepts the pair, and by zero if it does not. |
| `ProcessFactory.Factory.PreventStrayProcesses` | Process/Factory.php:159-174 | Afterwards the getter `PreventingStrayProcesses()` returns the argument, which defaults to true. Nothing else changes. |
| `ProcessFactory.Factory.AssertRan` | Process/Factory.php:182-192 | Passes exactly when at least one recorded pair satisfies the callback. |
| `ProcessFactory.Factory.AssertRanTimes` | Process/Factory.php:201-211 | Passes exactly when the number of recorded positions whose pair satisfies the callback equals `times`. `times` defaults to 1. |
| `ProcessFactory.Factory.AssertNotRan` | Process/Factory.php:219-229 | Passes exactly when no recorded pair satisfies the callback, which is exactly when `AssertRan` fails. |
| `ProcessFactory.Factory.AssertNothingRan` | Process/Factory.php:236-244 | Passes exactly when the log is empty. Equivalently, it passes exactly when a callback that accepts everything has not run, and exactly when such a callback ran zero times. |
| `ProcessFactory.CountIsMatchingIndices` | Process/Factory.php:203-205 | The filter-and-count over the log equals the number of log positions whose pair satisfies the callback. |
| `ProcessFactory.CountPositiveIffSome` | Process/Factory.php:185-187 | The filtered count is positive exactly when some recorded pair satisfies the callback. |
| `ProcessFactory.CountEveryIsLength` | Process/Factory.php:236-241 | A callback that accepts every pair counts the whole log. |

## Left out

- `pool` and `concurrently` start operating-system processes concurrently through `Pool`. That is concurrency and I/O, and `Pool` is not part of this model.
- `newPendingProcess`, `__call` and the `Macroable` dispatch forward calls to `PendingProcess`, which is not part of this model. Invoking a handler, matching a pattern against a command string, and failing on a stray process all happen there. The model stores the handler table in order, so first-match lookup could be stated on it, but that lookup is not modelled.
- `describe` and `sequence` only construct `FakeProcessDescription` and `FakeProcessSequence`, which are not part of this model.
- `result` is modelled as the plain constructor `ProcessFactory.Result` with the same defaults (`''`, `''`, `0`). `FakeProcessResult` itself is not part of this model. For the same reason, the handler that `fake()` installs is the opaque `DefaultResult`, and no claim is made about the fields of the result it builds.
- Closures are represented by an identity number. What a closure does when called is not modelled. The assertion callbacks are total Dafny functions `(P, R) -> bool`.
- PHPUnit failure signalling is modelled as a boolean pass/fail result. The failure messages are not modelled.
- The fluent `return $this` of each method is not modelled. Chained calls are successive method calls on the same object.
- Runtime type errors for a `fake` argument that is neither null, a `Closure` nor an array cannot arise, because the argument type `FakeCallback` admits only those three shapes.
- src/Illuminate/Console/Command.php and src/Illuminate/Console/Application.php only store I/O handles and delegate to the Symfony console library and to the service container. Neither is part of this model.
