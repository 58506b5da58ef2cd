# go-traces: the traced Fibonacci operation

The hello-world program of go-traces reads integers and answers each with
`Fibo(ctx, n)`, an iterative Fibonacci computation wrapped in OpenTelemetry
spans. This project models `Fibo` in Dafny and proves what it returns and
which span operations it issues.

- `fib.dfy` (module `FibMath`): the recursive Fibonacci function `Fib`, which
  serves as the specification. It also defines Go's 64-bit `int` as the newtype
  `Int64` and proves the bounds that keep the loop inside that range.
- `spans.dfy` (module `Spans`): an abstract log of tracing calls (`Start`,
  `SetAttribute`, `End`). `Balanced` states when such a log is well formed. A
  log is replayed against a stack of open spans. Every `End` must close the
  innermost open span. Attributes may only be set on open spans. A child span
  may only be started under an open span. Nothing may be left open at the end.
- `helloworld.dfy` (module `HelloWorld`): `Fibo` as a method with the
  program's guards, its `for` loop as a `while` loop with invariants, and
  its simultaneous assignment `n2, n1 = n1+n2, n2`. `SpanLog` gives the span
  operations of one call, with the deferred `End`s written out in the
  last-in-first-out order Go runs them.

Because the arguments and all locals have type `Int64`, the verifier checks
every addition in the loop for 64-bit overflow. The proof that none occurs is
`FibFitsInt64`: every value the loop computes is at most Fib(50) = 12586269025.

`Fibo` returns Go's `error` as `Option<Error>`, with `None` standing for
`nil`. The message "to big" is kept exactly as the program spells it. The
span log and the loop's iteration count are ghost out-parameters. They
record what the call does; they are not part of its result.

## Model

| member | source | states |
|---|---|---|
| `HelloWorld.Fibo` | helloworld/main.go:23-44 | For n <= 1, negative n included, the result is n with no error and no loop iterations. For n > 50 it is 0 with the "to big" error and no iterations. For 2 <= n <= 50 it is Fib(n), with no error, after n - 1 iterations. An error comes back exactly when n > 50. Every intermediate value stays within 64-bit signed range. The spans issued are exactly `SpanLog(n)`. |
| `HelloWorld.SpanLogWellFormed` | helloworld/main.go:24-43 | In every call, the "Run" span of tracer "fibo" is started first from the caller's context. Its `request.n` attribute, holding n, is set next, before any return. The log is well formed, so the deferred ends close Calc before Run. Run is ended last on every path. A "Calc" span is started as a child of Run exactly when 2 <= n <= 50. |
| `FibMath.FibFitsInt64` | helloworld/main.go:31-41 | Below the cap of 50, every Fibonacci number is at most 12586269025. That is below the largest 64-bit signed integer, so the loop's sums cannot overflow. |
| `FibMath.FibAtCap` | helloworld/main.go:31-33 | Fib(50), the largest value `Fibo` can return, equals 12586269025. |
| `FibMath.FibMonotonic` | helloworld/main.go:39-41 | The Fibonacci sequence never decreases, so the values the loop reaches are bounded by the value at the cap. |
| `Spans.ReplaySnoc` | helloworld/main.go:24-38 | Replaying a log with one more span operation appended is the same as replaying the log and then applying that one operation. The span calls of `Fibo` are sequenced side effects, and this makes replaying them compositional. |
| `Spans.Record` | helloworld/main.go:24-38 | Appending an operation that is legal for the current open spans gives the stack that the operation produces. |
| `Spans.BalancedOpensFirst` | helloworld/main.go:24 | A non-empty well-formed log begins by starting a span from the caller's context, as `Fibo` does with "Run". |
| `Spans.BalancedClosesLast` | helloworld/main.go:25 | A non-empty well-formed log ends with an `End`. The deferred end of the outermost span is the last operation. |

## Left out

- `ctx` parameter of `Fibo`: the incoming `context.Context` is modelled only as the `CallerContext` parent of the "Run" span. Contexts and the context returned by `Start` are library values.
- The tracing library itself is not modelled. This covers span identifiers, timestamps, sampling, batching and export. The log records only which calls `Fibo` makes and in what order.
- The `request.n` attribute value is kept as the integer n. Its decimal text, built by `fmt.Sprint`, comes from a library routine that is not modelled.
- `Error`: Go's `errors.New` makes a fresh error value on every call. The model compares errors by message only.
- `Int64`: Go's `int` is modelled as 64 bits, as on the usual 64-bit targets. On a 32-bit target, Fib(47) to Fib(50) would not fit, and that case is not modelled.
- `newResource`, `newExporter` and `setupTracing` are not modelled (helloworld/main.go:47-104). They only configure OpenTelemetry library objects: an OTLP exporter, a resource, a batcher, a parent-based sampler with ratio 0.6, and the W3C Trace Context propagator. Their logic lives outside this repository.
- `main` is not modelled (helloworld/main.go:106-145). It covers the signal channel, the logger emit, the stdin read loop in a goroutine, printing, shutdown and `panic`. All of this is I/O, concurrency and process plumbing.
- basic-trace/main.go is not part of this model: the HTTP handler and client, the Prometheus counter, histogram and exemplar goroutine, the HTTP servers and signal handling. These are network I/O, randomness, timing, concurrency and library configuration.
