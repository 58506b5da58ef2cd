/**
 The `Fibo` operation of the hello-world program: an iterative Fibonacci
 computation over Go's 64-bit `int`, capped at 50, wrapped in a "Run" span and,
 on the computing path, a nested "Calc" span.
 */
module HelloWorld {
  import opened Wrappers
  import opened FibMath
  import opened Spans

  /** A Go `error` value; only its message is observable here. */
  datatype Error = Error(message: string)

  /** The error returned above the cap (the message is spelled as in the program). */
  const TooBig: Error := Error("to big")

  const TracerName: string := "fibo"
  const RunSpan: string := "Run"
  const CalcSpan: string := "Calc"
  const RequestAttribute: string := "request.n"

  /** The span operations one call of `Fibo` issues, in order: the "Run" span
      is started from the caller's context and given the `request.n`
      attribute; only on the computing path is a "Calc" span started under it;
      the deferred ends then run last-in-first-out. */
  ghost function SpanLog(n: Int64): seq<SpanEvent>
  {
    var opening := [Start(TracerName, RunSpan, CallerContext), SetAttribute(RunSpan, RequestAttribute, n as int)];
    if n <= 1 || n > 50 then opening + [End(RunSpan)]
    else opening + [Start(TracerName, CalcSpan, ChildOf(RunSpan)), End(CalcSpan), End(RunSpan)]
  }

  /** What the log of every call promises: the Run span is started first and
      gets its attribute before any return, the log is well formed (so Calc,
      when present, ends before Run), Run is ended last on every path, and
      Calc is started, as a child of Run, exactly on the computing path. */
  lemma SpanLogWellFormed(n: Int64)
    ensures var log := SpanLog(n);
      && |log| >= 3
      && log[0] == Start(TracerName, RunSpan, CallerContext)
      && log[1] == SetAttribute(RunSpan, RequestAttribute, n as int)
      && log[|log| - 1] == End(RunSpan)
      && Balanced(log)
      && (Start(TracerName, CalcSpan, ChildOf(RunSpan)) in log <==> 2 <= n <= 50)
  {
    var runStart := Start(TracerName, RunSpan, CallerContext);
    var attribute := SetAttribute(RunSpan, RequestAttribute, n as int);
    assert [] + [RunSpan] == [RunSpan];
    Record([], [], runStart, [RunSpan]);
    assert [] + [runStart] == [runStart];
    Record([runStart], [RunSpan], attribute, [RunSpan]);
    var opening := [runStart, attribute];
    assert [runStart] + [attribute] == opening;
    if n <= 1 || n > 50 {
      Record(opening, [RunSpan], End(RunSpan), []);
    } else {
      var calcStart := Start(TracerName, CalcSpan, ChildOf(RunSpan));
      assert [RunSpan] + [CalcSpan] == [RunSpan, CalcSpan];
      Record(opening, [RunSpan], calcStart, [RunSpan, CalcSpan]);
      var calculating := opening + [calcStart];
      assert [RunSpan, CalcSpan][..1] == [RunSpan];
      Record(calculating, [RunSpan, CalcSpan], End(CalcSpan), [RunSpan]);
      var calculated := calculating + [End(CalcSpan)];
      Record(calculated, [RunSpan], End(RunSpan), []);
      assert calculated + [End(RunSpan)] == SpanLog(n);
    }
  }

  /** Returns Fib(n) for 2 <= n <= 50, n itself for n <= 1 (negative n
      included), and 0 with the "to big" error above 50. `log` is the sequence
      of span operations the call issues, the deferred ends included; `steps`
      counts the iterations of the loop. */
  method Fibo(n: Int64) returns (r: Int64, err: Option<Error>, ghost log: seq<SpanEvent>, ghost steps: nat)
    ensures n <= 1 ==> r == n && err == None && steps == 0
    ensures n > 50 ==> r == 0 && err == Some(TooBig) && steps == 0
    ensures 2 <= n <= 50 ==> r as int == Fib(n as nat) && err == None && steps == n as nat - 1
    ensures err.Some? <==> n > 50
    ensures log == SpanLog(n)
  {
    log := [Start(TracerName, RunSpan, CallerContext)];
    log := log + [SetAttribute(RunSpan, RequestAttribute, n as int)];
    ghost var opening := log;
    steps := 0;
    if n <= 1 {
      log := log + [End(RunSpan)];
      r, err := n, None;
      return;
    }

    if n > 50 {
      log := log + [End(RunSpan)];
      r, err := 0, Some(TooBig);
      return;
    }

    var n1: Int64 := 0;
    var n2: Int64 := 1;
    log := log + [Start(TracerName, CalcSpan, ChildOf(RunSpan))];
    var i: Int64 := 2;
    while i <= n
      invariant 2 <= i as int <= n as int + 1
      invariant n2 as int == Fib(i as nat - 1) && n1 as int == Fib(i as nat - 2)
      invariant steps == i as nat - 2
    {
      FibFitsInt64(i as nat);
      n2, n1 := n1 + n2, n2;
      i := i + 1;
      steps := steps + 1;
    }

    // The deferred ends run last-in-first-out: Calc first, then Run.
    log := log + [End(CalcSpan)];
    log := log + [End(RunSpan)];
    assert log == SpanLog(n) by {
      assert log == opening + [Start(TracerName, CalcSpan, ChildOf(RunSpan)), End(CalcSpan), End(RunSpan)];
    }
    r, err := n2, None;
  }
}
