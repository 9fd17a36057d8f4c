# Counter factory (closure example)

This project models the closure example of the repository. `intSeq` is a
factory: each call makes a new integer cell holding 0 and returns a function
value that captures that cell. Each call of that function value adds one to
the cell and returns the new value. `main` draws 1, 2, 3 from one counter.
It then makes a second counter, whose first call returns 1, because each
`intSeq()` call makes a new environment.

In the model the captured cell is the field `i` of a `Counter` object. The
factory is the constructor `Counter.IntSeq`, and calling the function value is
the method `Counter.Next`. A ghost field `history` records what the calls have
returned so far. `Valid()` ties it to the cell and to the specification
function `Results(start, k)`, which lists the values that `k` successive calls
return from a cell holding `start`. The lemmas about `Results` give the
properties of a counter: the k-th call returns k, values strictly increase and
never repeat. The two scenario methods replay `main` and an interleaving of
two counters and prove the values each call returns.

## Model

| member | source | states |
|---|---|---|
| `Closure.Results` | examples/closure/closure.go:9-12 | k successive calls yield exactly k values, each call moving the cell up by one and returning the value it moved to |
| `Closure.ResultsAt` | examples/closure/closure.go:10-11 | the j-th call (from 0) on a cell holding `start` returns `start + j + 1` |
| `Closure.ResultsSnoc` | examples/closure/closure.go:10-11 | one more call appends exactly one value, the cell's value after the earlier calls plus one |
| `Closure.KthCallReturnsK` | examples/closure/closure.go:6-12 | on a counter fresh from the factory (cell at 0) the k-th call returns k |
| `Closure.ResultsStrictlyIncreasing` | examples/closure/closure.go:10-11 | the values of successive calls strictly increase, and no two calls return the same value |
| `Closure.Counter.IntSeq` | examples/closure/closure.go:5-7 | the factory yields a freshly allocated counter whose cell holds 0 and that has returned nothing yet |
| `Closure.Counter.Next` | examples/closure/closure.go:9-12 | a call raises the cell by exactly 1, returns its new value, which equals the number of calls made so far, and keeps the history equal to `Results(0, calls)` |
| `Closure.NextLeavesOthersUnchanged` | examples/closure/closure.go:22-23 | calling one counter changes neither the cell nor the history of any other counter |
| `Closure.MainScenario` | examples/closure/closure.go:16-24 | three calls of one counter return 1, 2, 3; a counter made afterwards, a different object, returns 1 on its first call |
| `Closure.InterleavedScenario` | examples/closure/closure.go:22-24 | two counters called in turn each count from 1 on their own (the first gives 1, 2, 3, the second 1, 2), unaffected by the other's calls |

## Left out

- `fmt.Println` in `main`: console output. The scenario methods return the printed values instead.
- `examples/closure/anonymous.go`: it only prints fixed strings and rebinds a function-typed variable; it has no state or computed result.
- Go's `int` wrap-around: the cell is an unbounded integer, since the program never nears the end of the range.
- Closures as first-class values: the captured variable is an explicit object field; the function value is the object, and calling it is `Next`.
- Concurrent calls of one counter: the program is sequential and the counter is not safe for concurrent use; this is not modelled.
