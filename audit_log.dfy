/** What an admin request leaves behind: the lines written to the aspect's
    logger, interleaved with the moments the real handler was invoked. */
module AuditLog {
  import opened Platform

  /** One call on the aspect's log4j logger. */
  datatype LogLine =
    | Warning(text: string)                        // logger.warn: no request in scope
    | Banner                                       // logger.info("[Admin API Logging]")
    | Entry(methodName: string, uri: string, time: int, userId: Option<int>, requestBody: string)
    | ErrorLine(methodName: string, uri: string, message: Option<string>)
    | Exit(methodName: string, uri: string, responseBody: string)
    | CodecError(text: string)                     // logger.error from a serialization helper

  /** `Proceeded(args)` marks `joinPoint.proceed()`: the handler runs with `args`. */
  datatype Event = Logged(line: LogLine) | Proceeded(args: seq<JavaValue>)

  datatype EventKind = WarningEvent | BannerEvent | EntryEvent | ErrorEvent | ExitEvent | CodecErrorEvent | ProceedEvent

  function KindOf(e: Event): EventKind {
    match e
    case Proceeded(_) => ProceedEvent
    case Logged(line) =>
      match line
      case Warning(_) => WarningEvent
      case Banner => BannerEvent
      case Entry(_, _, _, _, _) => EntryEvent
      case ErrorLine(_, _, _) => ErrorEvent
      case Exit(_, _, _) => ExitEvent
      case CodecError(_) => CodecErrorEvent
  }

  /** The number of events of kind `k` in `events`. */
  function Count(events: seq<Event>, k: EventKind): (n: nat)
    ensures n <= |events|
    ensures n == 0 <==> forall i :: 0 <= i < |events| ==> KindOf(events[i]) != k
  {
    if events == [] then 0
    else
      assert forall i :: 1 <= i < |events| ==> events[i] == events[1..][i - 1];
      (if KindOf(events[0]) == k then 1 else 0) + Count(events[1..], k)
  }

  lemma {:induction false} CountAppend(a: seq<Event>, b: seq<Event>, k: EventKind)
    ensures Count(a + b, k) == Count(a, k) + Count(b, k)
  {
    if a == [] {
      assert a + b == b;
    } else {
      assert (a + b)[1..] == a[1..] + b;
      CountAppend(a[1..], b, k);
    }
  }

  /** The lines a helper wrote, as trace events, in order. */
  function AsEvents(lines: seq<LogLine>): (events: seq<Event>)
    ensures |events| == |lines|
    ensures forall i :: 0 <= i < |lines| ==> events[i] == Logged(lines[i])
  {
    if lines == [] then [] else [Logged(lines[0])] + AsEvents(lines[1..])
  }

  /** Diagnostic output of the serialization helpers: error lines and nothing else. */
  predicate OnlyCodecErrors(lines: seq<LogLine>) {
    forall i :: 0 <= i < |lines| ==> lines[i].CodecError?
  }

  lemma CountCons(e: Event, rest: seq<Event>, k: EventKind)
    ensures Count([e] + rest, k) == (if KindOf(e) == k then 1 else 0) + Count(rest, k)
  {
    assert ([e] + rest)[1..] == rest;
  }

  /** Diagnostic lines hold no warning, entry, exit, error line or invocation. */
  lemma CodecErrorsCountOnlyAsCodecErrors(lines: seq<LogLine>, k: EventKind)
    requires OnlyCodecErrors(lines)
    requires k != CodecErrorEvent
    ensures Count(AsEvents(lines), k) == 0
  {
    var evs := AsEvents(lines);
    forall i | 0 <= i < |evs| ensures KindOf(evs[i]) != k {
      assert evs[i] == Logged(lines[i]);
    }
  }

  /** Diagnostic lines in front of `rest` change no count but their own. */
  lemma CountAfterDiagnostics(lines: seq<LogLine>, rest: seq<Event>, k: EventKind)
    requires OnlyCodecErrors(lines)
    requires k != CodecErrorEvent
    ensures Count(AsEvents(lines) + rest, k) == Count(rest, k)
  {
    CountAppend(AsEvents(lines), rest, k);
    CodecErrorsCountOnlyAsCodecErrors(lines, k);
  }
}
