/**
 An abstract log of the tracing calls one operation makes, and what it means
 for such a log to be well formed. Nothing of the tracing library's own
 behaviour (sampling, export, identifiers, timestamps) is modelled: the log
 only records which span operations were issued and in what order.
 */
module Spans {
  import opened Wrappers

  /** Where a new span takes its parent from: the context the caller handed in,
      or a span started earlier in the same operation. */
  datatype Parent = CallerContext | ChildOf(span: string)

  /** One call on the tracing API. Spans are referred to by name. */
  datatype SpanEvent =
    | Start(tracer: string, name: string, parent: Parent)
    | SetAttribute(span: string, key: string, value: int)
    | End(span: string)

  /** The effect of one event on the stack of open spans (innermost last), or
      None when the event is a misuse: an attribute set on a span that is not
      open, an End that does not close the innermost open span, or a child
      started under a span that is not open. */
  function Step(open: seq<string>, e: SpanEvent): Option<seq<string>>
  {
    match e
    case Start(_, name, parent) =>
      if parent.ChildOf? && parent.span !in open then None else Some(open + [name])
    case SetAttribute(span, _, _) =>
      if span in open then Some(open) else None
    case End(span) =>
      if open != [] && open[|open| - 1] == span then Some(open[..|open| - 1]) else None
  }

  /** Replays a log from left to right, starting from the given open spans. */
  function Replay(open: seq<string>, log: seq<SpanEvent>): Option<seq<string>>
    decreases |log|
  {
    if log == [] then Some(open)
    else match Step(open, log[0])
      case None => None
      case Some(next) => Replay(next, log[1..])
  }

  /** A well-formed log: no misuse, spans end in last-in-first-out order, and
      every span that was started has been ended. */
  predicate Balanced(log: seq<SpanEvent>)
  {
    Replay([], log) == Some([])
  }

  /** Replaying a log extended by one event is replaying the log and then
      taking one step. */
  lemma {:induction false} ReplaySnoc(open: seq<string>, log: seq<SpanEvent>, e: SpanEvent)
    ensures Replay(open, log + [e]) ==
      match Replay(open, log)
      case None => None
      case Some(o) => Step(o, e)
    decreases |log|
  {
    if log == [] {
      assert [] + [e] == [e];
      assert [e][1..] == [];
    } else {
      assert (log + [e])[0] == log[0];
      assert (log + [e])[1..] == log[1..] + [e];
      match Step(open, log[0])
      case None =>
      case Some(next) => ReplaySnoc(next, log[1..], e);
    }
  }

  /** Extending a log whose replay left `open` by an event that is legal there. */
  lemma Record(log: seq<SpanEvent>, open: seq<string>, e: SpanEvent, next: seq<string>)
    requires Replay([], log) == Some(open) && Step(open, e) == Some(next)
    ensures Replay([], log + [e]) == Some(next)
  {
    ReplaySnoc([], log, e);
  }

  /** A non-empty well-formed log begins by starting a span from the caller's
      context: nothing else can happen while no span is open. */
  lemma BalancedOpensFirst(log: seq<SpanEvent>)
    requires Balanced(log) && log != []
    ensures log[0].Start? && log[0].parent == CallerContext
  {
  }

  /** A non-empty well-formed log finishes with an End: starting a span or
      setting an attribute always leaves some span open. */
  lemma BalancedClosesLast(log: seq<SpanEvent>)
    requires Balanced(log) && log != []
    ensures log[|log| - 1].End?
  {
    var init := log[..|log| - 1];
    var last := log[|log| - 1];
    assert log == init + [last];
    ReplaySnoc([], init, last);
  }
}
