/** `AdminApiLoggingAspect`: an around-advice on `@LogAdmin` handlers that
    logs the request before the handler runs and the response or error after
    it, without changing what the handler returns or throws. */
module AdminApiLogging {
  import opened Platform
  import opened AuditLog

  // ---------------------------------------------------------------------
  // The ObjectMapper, seen only through what one write or read gives
  // ---------------------------------------------------------------------

  /** `Written` is a rendering, `ProcessingFailed` a `JsonProcessingException`,
      `Unchecked(ex)` any other exception escaping the mapper. */
  datatype JsonResult = Written(text: string) | ProcessingFailed | Unchecked(ex: Exception)

  /** `objectMapper.writerWithDefaultPrettyPrinter().writeValueAsString(value)`. */
  type Serializer = JavaValue -> JsonResult

  /** `readTree(json).path("body")` rendered with the same pretty printer. */
  type BodyExtractor = string -> JsonResult

  /** The mapper only ever fails with a `JsonProcessingException`, as Jackson declares. */
  ghost predicate CheckedCodec(ser: Serializer, ext: BodyExtractor) {
    (forall v :: !ser(v).Unchecked?) && (forall s :: !ext(s).Unchecked?)
  }

  const SerializeErrorMessage: string := "Error serializing object to JSON"
  const ExtractErrorMessage: string := "Error extracting body from JSON"
  const RequestBodyErrorMessage: string := "Error serializing request body"
  const NoRequestMessage: string := "HttpServletRequest 객체를 가져올 수 없음"

  /** What a helper produced: a text plus the error lines it logged on the
      way, or an exception it let escape. */
  datatype Conversion = Converted(text: string, diagnostics: seq<LogLine>) | Raised(ex: Exception)

  // ---------------------------------------------------------------------
  // convertObjectToJson, extractBodyFromJson
  // ---------------------------------------------------------------------

  /** `convertObjectToJson(object)`. */
  function ConvertObjectToJson(o: JavaValue, ser: Serializer): (r: Conversion)
    ensures o == Null ==> r == Converted("", [])
    // only an unchecked mapper exception escapes; a processing failure is absorbed
    ensures r.Raised? <==> o != Null && ser(o).Unchecked?
    ensures r.Raised? ==> r.ex == ser(o).ex
    ensures o != Null && ser(o).ProcessingFailed? ==> r == Converted(SerializeErrorMessage, [CodecError(SerializeErrorMessage)])
    ensures o != Null && ser(o).Written? ==> r == Converted(ser(o).text, [])
    ensures r.Converted? ==> OnlyCodecErrors(r.diagnostics)
  {
    if o == Null then Converted("", [])
    else match ser(o)
      case Written(text) => Converted(text, [])
      case ProcessingFailed => Converted(SerializeErrorMessage, [CodecError(SerializeErrorMessage)])
      case Unchecked(ex) => Raised(ex)
  }

  /** `Character.isWhitespace`: Unicode space, line and paragraph separators
      other than the no-break spaces, and the ASCII controls 9-13 and 28-31. */
  predicate IsWhitespace(c: char) {
    || c == ' '
    || '\t' <= c <= '\r'
    || '\U{1C}' <= c <= '\U{1F}'
    || c == '\U{1680}'
    || ('\U{2000}' <= c <= '\U{200A}' && c != '\U{2007}')
    || c == '\U{2028}' || c == '\U{2029}' || c == '\U{205F}' || c == '\U{3000}'
  }

  /** `String.isBlank`. */
  predicate IsBlank(s: string) {
    forall i :: 0 <= i < |s| ==> IsWhitespace(s[i])
  }

  /** `extractBodyFromJson(json)`; `None` is a null string. */
  function ExtractBodyFromJson(json: Option<string>, ext: BodyExtractor): (r: Conversion)
    ensures json.None? || IsBlank(json.value) ==> r == Converted("", [])
    ensures r.Raised? <==> json.Some? && !IsBlank(json.value) && ext(json.value).Unchecked?
    ensures r.Raised? ==> r.ex == ext(json.value).ex
    ensures json.Some? && !IsBlank(json.value) && ext(json.value).ProcessingFailed? ==>
              r == Converted(ExtractErrorMessage, [CodecError(ExtractErrorMessage)])
    ensures json.Some? && !IsBlank(json.value) && ext(json.value).Written? ==>
              r == Converted(ext(json.value).text, [])
    ensures r.Converted? ==> OnlyCodecErrors(r.diagnostics)
  {
    if json.None? || IsBlank(json.value) then Converted("", [])
    else match ext(json.value)
      case Written(text) => Converted(text, [])
      case ProcessingFailed => Converted(ExtractErrorMessage, [CodecError(ExtractErrorMessage)])
      case Unchecked(ex) => Raised(ex)
  }

  lemma EmptyJsonHasEmptyBody(ext: BodyExtractor)
    ensures ExtractBodyFromJson(Some(""), ext) == Converted("", [])
    ensures ExtractBodyFromJson(None, ext) == Converted("", [])
  {
  }

  /** With a checked mapper, neither helper ever throws, and each logs at
      most one line, which is an error line carrying the sentinel it returns. */
  lemma HelpersNeverThrow(o: JavaValue, json: Option<string>, ser: Serializer, ext: BodyExtractor)
    requires CheckedCodec(ser, ext)
    ensures ConvertObjectToJson(o, ser).Converted?
    ensures ExtractBodyFromJson(json, ext).Converted?
    ensures var c := ConvertObjectToJson(o, ser);
            c.diagnostics == [] || (c.diagnostics == [CodecError(c.text)] && c.text == SerializeErrorMessage)
    ensures var c := ExtractBodyFromJson(json, ext);
            c.diagnostics == [] || (c.diagnostics == [CodecError(c.text)] && c.text == ExtractErrorMessage)
  {
    assert !ser(o).Unchecked?;
    if json.Some? { assert !ext(json.value).Unchecked?; }
  }

  // ---------------------------------------------------------------------
  // getRequestBody: map every argument, then reduce with ", "
  // ---------------------------------------------------------------------

  /** `Stream.reduce((a, b) -> a + ", " + b)`: a left fold, empty on an empty stream. */
  function Reduce(texts: seq<string>): (r: Option<string>)
    ensures r.None? <==> texts == []
    decreases |texts|
  {
    if texts == [] then None
    else if |texts| == 1 then Some(texts[0])
    else Some(Reduce(texts[..|texts| - 1]).value + ", " + texts[|texts| - 1])
  }

  /** The texts, first to last, each separated from the next by ", ". */
  function Joined(texts: seq<string>): string {
    if texts == [] then ""
    else if |texts| == 1 then texts[0]
    else texts[0] + ", " + Joined(texts[1..])
  }

  lemma {:induction false} JoinedSnoc(texts: seq<string>, t: string)
    requires texts != []
    ensures Joined(texts + [t]) == Joined(texts) + ", " + t
    decreases |texts|
  {
    if |texts| == 1 {
      assert texts + [t] == [texts[0], t];
      assert [texts[0], t][1..] == [t];
    } else {
      assert (texts + [t])[1..] == texts[1..] + [t];
      JoinedSnoc(texts[1..], t);
    }
  }

  /** The reduction joins the texts in order with ", " between neighbours. */
  lemma {:induction false} ReduceJoins(texts: seq<string>)
    requires texts != []
    ensures Reduce(texts) == Some(Joined(texts))
    decreases |texts|
  {
    if |texts| > 1 {
      var init := texts[..|texts| - 1];
      ReduceJoins(init);
      JoinedSnoc(init, texts[|texts| - 1]);
      assert init + [texts[|texts| - 1]] == texts;
    }
  }

  /** What the stream's `map(this::convertObjectToJson)` stage gives: the
      texts converted so far, the lines logged so far, and the exception that
      stopped the stream, if any. */
  datatype Mapped = Mapped(texts: seq<string>, diagnostics: seq<LogLine>, raised: Option<Exception>)

  /** The text of a conversion that did not throw. */
  function TextOf(c: Conversion): string {
    match c
    case Converted(text, _) => text
    case Raised(_) => ""
  }

  function ConvertAll(args: seq<JavaValue>, ser: Serializer): (m: Mapped)
    ensures OnlyCodecErrors(m.diagnostics)
  {
    if args == [] then Mapped([], [], None)
    else
      match ConvertObjectToJson(args[0], ser)
      case Raised(ex) => Mapped([], [], Some(ex))
      case Converted(text, lines) =>
        var rest := ConvertAll(args[1..], ser);
        Mapped([text] + rest.texts, lines + rest.diagnostics, rest.raised)
  }

  /** The mapped stream yields one serialization per argument, in order,
      exactly when no conversion throws. */
  lemma {:induction false} ConvertAllInOrder(args: seq<JavaValue>, ser: Serializer)
    ensures var m := ConvertAll(args, ser);
            && (m.raised.None? <==> forall i :: 0 <= i < |args| ==> ConvertObjectToJson(args[i], ser).Converted?)
            && (m.raised.None? ==>
                  |m.texts| == |args| && forall i :: 0 <= i < |args| ==> m.texts[i] == TextOf(ConvertObjectToJson(args[i], ser)))
    decreases |args|
  {
    if args != [] {
      assert forall i :: 1 <= i < |args| ==> args[i] == args[1..][i - 1];
      ConvertAllInOrder(args[1..], ser);
    }
  }

  /** When some conversion throws, the stream stops at the first such
      argument and carries its exception. */
  lemma {:induction false} ConvertAllStopsAtFirstRaise(args: seq<JavaValue>, ser: Serializer)
    ensures var m := ConvertAll(args, ser);
            m.raised.Some? ==>
              exists k :: 0 <= k < |args| && ConvertObjectToJson(args[k], ser) == Raised(m.raised.value) &&
                          (forall j :: 0 <= j < k ==> ConvertObjectToJson(args[j], ser).Converted?)
    decreases |args|
  {
    if args != [] {
      var m := ConvertAll(args, ser);
      match ConvertObjectToJson(args[0], ser)
      case Raised(ex) =>
        assert ConvertObjectToJson(args[0], ser) == Raised(m.raised.value);
      case Converted(text, lines) =>
        var rest := ConvertAll(args[1..], ser);
        ConvertAllStopsAtFirstRaise(args[1..], ser);
        if rest.raised.Some? {
          var k :| 0 <= k < |args[1..]| && ConvertObjectToJson(args[1..][k], ser) == Raised(rest.raised.value) &&
                   forall j :: 0 <= j < k ==> ConvertObjectToJson(args[1..][j], ser).Converted?;
          assert args[1..][k] == args[k + 1];
          forall j | 0 <= j < k + 1 ensures ConvertObjectToJson(args[j], ser).Converted? {
            if j > 0 { assert args[j] == args[1..][j - 1]; }
          }
        }
    }
  }

  /** The per-argument serializations, in argument order. */
  function Serializations(args: seq<JavaValue>, ser: Serializer): (texts: seq<string>)
    ensures |texts| == |args|
  {
    seq(|args|, i requires 0 <= i < |args| => TextOf(ConvertObjectToJson(args[i], ser)))
  }

  /** `getRequestBody(joinPoint)`: never throws, and logs only codec error lines. */
  function GetRequestBody(args: seq<JavaValue>, ser: Serializer): (r: Conversion)
    ensures r.Converted? && OnlyCodecErrors(r.diagnostics)
    ensures args == [] ==> r == Converted("", [])
  {
    if |args| > 0 then
      var m := ConvertAll(args, ser);
      match m.raised
      case Some(_) => Converted("", m.diagnostics + [CodecError(RequestBodyErrorMessage)])
      case None => Converted(match Reduce(m.texts) case Some(s) => s case None => "", m.diagnostics)
    else Converted("", [])
  }

  /** The request body is the per-argument serializations in argument order,
      joined with ", "; if any conversion throws, it is empty and the last
      line logged says the request body could not be serialized. */
  lemma RequestBodyJoinsSerializations(args: seq<JavaValue>, ser: Serializer)
    ensures (forall i :: 0 <= i < |args| ==> ConvertObjectToJson(args[i], ser).Converted?) ==>
              GetRequestBody(args, ser).text == Joined(Serializations(args, ser))
    ensures (exists i :: 0 <= i < |args| && ConvertObjectToJson(args[i], ser).Raised?) ==>
              && GetRequestBody(args, ser).text == ""
              && var d := GetRequestBody(args, ser).diagnostics;
                 |d| > 0 && d[|d| - 1] == CodecError(RequestBodyErrorMessage)
  {
    if |args| > 0 {
      var m := ConvertAll(args, ser);
      ConvertAllInOrder(args, ser);
      if m.raised.None? {
        ReduceJoins(m.texts);
        assert m.texts == Serializations(args, ser);
      }
    }
  }

  /** A single argument's request body is its own serialization. */
  lemma SingleArgumentBody(a: JavaValue, ser: Serializer)
    requires ConvertObjectToJson(a, ser).Converted?
    ensures GetRequestBody([a], ser).text == ConvertObjectToJson(a, ser).text
  {
    RequestBodyJoinsSerializations([a], ser);
    assert Serializations([a], ser) == [ConvertObjectToJson(a, ser).text];
  }

  // ---------------------------------------------------------------------
  // logAdminApi
  // ---------------------------------------------------------------------

  /** What `joinPoint.proceed()` does: return a value or throw an Exception. */
  datatype Outcome = Returned(value: JavaValue) | Threw(ex: Exception)

  /** The intercepted call: its name, its arguments and how it will end. */
  datatype JoinPoint = JoinPoint(methodName: string, args: seq<JavaValue>, outcome: Outcome)

  /** What part of an intercepted call does: the events it adds to the trace and what it returns or throws. */
  datatype Effect = Effect(events: seq<Event>, result: Outcome)

  /** The lines logged before `proceed()`, and the call itself. */
  function EntryEvents(req: Request, jp: JoinPoint, now: int, userId: Option<int>, ser: Serializer): seq<Event> {
    EntrySequence(req, jp, now, userId, GetRequestBody(jp.args, ser))
  }

  /** The same, for the request body `body` already computed. */
  function EntrySequence(req: Request, jp: JoinPoint, now: int, userId: Option<int>, body: Conversion): seq<Event>
    requires body.Converted?
  {
    AsEvents(body.diagnostics) +
    ([Logged(Banner)] + ([Logged(Entry(jp.methodName, req.uri, now, userId, body.text))] + [Proceeded(jp.args)]))
  }

  /** Appending four pieces one after another appends their concatenation. */
  lemma AppendAssociates(t: seq<Event>, a: seq<Event>, b: seq<Event>, c: seq<Event>, d: seq<Event>)
    ensures t + a + b + c + d == t + (a + (b + (c + d)))
  {
  }

  /** What happens once `proceed()` has returned or thrown. */
  function Completion(methodName: string, uri: string, outcome: Outcome, ser: Serializer, ext: BodyExtractor): Effect {
    match outcome
    case Threw(e) => Effect([Logged(ErrorLine(methodName, uri, e.message))], Threw(e))
    case Returned(v) =>
      match ConvertObjectToJson(v, ser)
      case Raised(e) => Effect([], Threw(e))
      case Converted(json, lines) =>
        match ExtractBodyFromJson(Some(json), ext)
        case Raised(e) => Effect(AsEvents(lines), Threw(e))
        case Converted(body, lines') => Effect(AsEvents(lines) + AsEvents(lines') + [Logged(Exit(methodName, uri, body))], Returned(v))
  }

  /** The reference behaviour of `logAdminApi`, given the request in scope
      (`None` outside a request), the join point and the time it is read. */
  function AuditedCall(ctx: Option<Request>, jp: JoinPoint, now: int, ser: Serializer, ext: BodyExtractor): Effect {
    match ctx
    case None => Effect([Logged(Warning(NoRequestMessage)), Proceeded(jp.args)], jp.outcome)
    case Some(req) =>
      match UserIdAttribute(req)
      case Failure(e) => Effect([], Threw(e))
      case Success(userId) =>
        var done := Completion(jp.methodName, req.uri, jp.outcome, ser, ext);
        Effect(EntryEvents(req, jp, now, userId, ser) + done.events, done.result)
  }

  /** The request in scope is one the aspect can read a user id from. */
  predicate Audits(ctx: Option<Request>) {
    ctx.Some? && UserIdAttribute(ctx.value).Success?
  }

  /** A returned value whose logging raises nothing. */
  predicate RendersCleanly(v: JavaValue, ser: Serializer, ext: BodyExtractor) {
    match ConvertObjectToJson(v, ser)
    case Raised(_) => false
    case Converted(json, _) => ExtractBodyFromJson(Some(json), ext).Converted?
  }

  /** Diagnostics, the banner, one entry line and the invocation. */
  lemma {:induction false} EntrySequenceCounts(lines: seq<LogLine>, entry: LogLine, args: seq<JavaValue>, k: EventKind)
    requires OnlyCodecErrors(lines) && entry.Entry?
    requires k != CodecErrorEvent
    ensures Count(AsEvents(lines) + ([Logged(Banner)] + ([Logged(entry)] + [Proceeded(args)])), k) ==
            (if k == EntryEvent || k == ProceedEvent || k == BannerEvent then 1 else 0)
  {
    CountAfterDiagnostics(lines, [Logged(Banner)] + ([Logged(entry)] + [Proceeded(args)]), k);
    CountCons(Logged(Banner), [Logged(entry)] + [Proceeded(args)], k);
    CountCons(Logged(entry), [Proceeded(args)], k);
    CountCons(Proceeded(args), [], k);
    assert [Proceeded(args)] + [] == [Proceeded(args)];
  }

  /** Before and including `proceed()`: one entry line, carrying the method,
      the URI, the time, the user id and the request body, directly followed
      by the one invocation. */
  lemma EntryEventsShape(req: Request, jp: JoinPoint, now: int, userId: Option<int>, ser: Serializer)
    ensures var evs := EntryEvents(req, jp, now, userId, ser);
            && Count(evs, EntryEvent) == 1 && Count(evs, ProceedEvent) == 1
            && Count(evs, ExitEvent) == 0 && Count(evs, ErrorEvent) == 0 && Count(evs, WarningEvent) == 0
            && |evs| >= 2 && evs[|evs| - 1] == Proceeded(jp.args)
            && evs[|evs| - 2] == Logged(Entry(jp.methodName, req.uri, now, userId, GetRequestBody(jp.args, ser).text))
  {
    var body := GetRequestBody(jp.args, ser);
    var entry := Entry(jp.methodName, req.uri, now, userId, body.text);
    EntrySequenceCounts(body.diagnostics, entry, jp.args, EntryEvent);
    EntrySequenceCounts(body.diagnostics, entry, jp.args, ProceedEvent);
    EntrySequenceCounts(body.diagnostics, entry, jp.args, ExitEvent);
    EntrySequenceCounts(body.diagnostics, entry, jp.args, ErrorEvent);
    EntrySequenceCounts(body.diagnostics, entry, jp.args, WarningEvent);
  }

  /** After `proceed()` there is no entry line, no warning and no second invocation. */
  lemma CompletionHasNoEntry(methodName: string, uri: string, outcome: Outcome, ser: Serializer, ext: BodyExtractor, k: EventKind)
    requires k == EntryEvent || k == ProceedEvent || k == WarningEvent
    ensures Count(Completion(methodName, uri, outcome, ser, ext).events, k) == 0
  {
    var done := Completion(methodName, uri, outcome, ser, ext);
    match outcome
    case Threw(e) =>
      CountCons(done.events[0], [], k);
      assert [done.events[0]] + [] == done.events;
    case Returned(v) =>
      match ConvertObjectToJson(v, ser)
      case Raised(_) =>
      case Converted(json, lines) =>
        match ExtractBodyFromJson(Some(json), ext)
        case Raised(_) =>
          CodecErrorsCountOnlyAsCodecErrors(lines, k);
        case Converted(body, lines') =>
          CompletionCleanCounts(methodName, uri, lines, lines', body, k);
  }

  /** Diagnostics from both helpers, then one exit line. */
  lemma CompletionCleanCounts(methodName: string, uri: string, lines: seq<LogLine>, lines': seq<LogLine>, body: string, k: EventKind)
    requires OnlyCodecErrors(lines) && OnlyCodecErrors(lines') && k != CodecErrorEvent
    ensures Count(AsEvents(lines) + AsEvents(lines') + [Logged(Exit(methodName, uri, body))], k) == (if k == ExitEvent then 1 else 0)
  {
    var exit := Logged(Exit(methodName, uri, body));
    assert AsEvents(lines) + AsEvents(lines') + [exit] == AsEvents(lines) + (AsEvents(lines') + [exit]);
    CountAfterDiagnostics(lines, AsEvents(lines') + [exit], k);
    CountAfterDiagnostics(lines', [exit], k);
    CountCons(exit, [], k);
    assert [exit] + [] == [exit];
  }

  /** A throw: exactly the one error line, and the same exception handed back. */
  lemma CompletionOnThrow(methodName: string, uri: string, outcome: Outcome, ser: Serializer, ext: BodyExtractor)
    requires outcome.Threw?
    ensures var done := Completion(methodName, uri, outcome, ser, ext);
            && done.result == outcome && done.events == [Logged(ErrorLine(methodName, uri, outcome.ex.message))]
            && Count(done.events, ErrorEvent) == 1 && Count(done.events, ExitEvent) == 0
  {
    var done := Completion(methodName, uri, outcome, ser, ext);
    CountCons(done.events[0], [], ErrorEvent);
    CountCons(done.events[0], [], ExitEvent);
    assert [done.events[0]] + [] == done.events;
  }

  /** A clean return: the value handed back, exactly one exit line, last,
      carrying the method, the URI and the extracted body, and no error line. */
  lemma CompletionOnCleanReturn(methodName: string, uri: string, outcome: Outcome, ser: Serializer, ext: BodyExtractor)
    requires outcome.Returned? && RendersCleanly(outcome.value, ser, ext)
    ensures var done := Completion(methodName, uri, outcome, ser, ext);
            && done.result == outcome && Count(done.events, ExitEvent) == 1 && Count(done.events, ErrorEvent) == 0
            && |done.events| > 0
            && done.events[|done.events| - 1] ==
                 Logged(Exit(methodName, uri, ExtractBodyFromJson(Some(ConvertObjectToJson(outcome.value, ser).text), ext).text))
  {
    var c := ConvertObjectToJson(outcome.value, ser);
    var d := ExtractBodyFromJson(Some(c.text), ext);
    CompletionCleanCounts(methodName, uri, c.diagnostics, d.diagnostics, d.text, ExitEvent);
    CompletionCleanCounts(methodName, uri, c.diagnostics, d.diagnostics, d.text, ErrorEvent);
  }

  /** A return whose logging raises: the mapper's own exception, from the
      serializer or else from the extractor, handed back in place of the value,
      and neither an exit nor an error line. */
  lemma CompletionOnRaisingReturn(methodName: string, uri: string, outcome: Outcome, ser: Serializer, ext: BodyExtractor)
    requires outcome.Returned? && !RendersCleanly(outcome.value, ser, ext)
    ensures var done := Completion(methodName, uri, outcome, ser, ext);
            && var c := ConvertObjectToJson(outcome.value, ser);
               && done.result == Threw(if c.Raised? then c.ex else ExtractBodyFromJson(Some(c.text), ext).ex)
               && Count(done.events, ExitEvent) == 0 && Count(done.events, ErrorEvent) == 0
  {
    var c := ConvertObjectToJson(outcome.value, ser);
    if c.Converted? {
      CodecErrorsCountOnlyAsCodecErrors(c.diagnostics, ExitEvent);
      CodecErrorsCountOnlyAsCodecErrors(c.diagnostics, ErrorEvent);
    }
  }

  /** In a request with a readable user id, the call is its entry part followed by its completion. */
  lemma AuditedCallInRequest(req: Request, jp: JoinPoint, now: int, userId: Option<int>, ser: Serializer, ext: BodyExtractor)
    requires UserIdAttribute(req) == Success(userId)
    ensures var done := Completion(jp.methodName, req.uri, jp.outcome, ser, ext);
            AuditedCall(Some(req), jp, now, ser, ext) == Effect(EntryEvents(req, jp, now, userId, ser) + done.events, done.result)
  {
  }

  /** The counts of a call in a request are those before and after `proceed()` added up. */
  lemma AuditedCallCounts(ctx: Option<Request>, jp: JoinPoint, now: int, ser: Serializer, ext: BodyExtractor, k: EventKind)
    requires Audits(ctx)
    ensures var entered := EntryEvents(ctx.value, jp, now, UserIdAttribute(ctx.value).value, ser);
            var done := Completion(jp.methodName, ctx.value.uri, jp.outcome, ser, ext);
            && AuditedCall(ctx, jp, now, ser, ext) == Effect(entered + done.events, done.result)
            && Count(AuditedCall(ctx, jp, now, ser, ext).events, k) == Count(entered, k) + Count(done.events, k)
  {
    var entered := EntryEvents(ctx.value, jp, now, UserIdAttribute(ctx.value).value, ser);
    var done := Completion(jp.methodName, ctx.value.uri, jp.outcome, ser, ext);
    CountAppend(entered, done.events, k);
  }

  /** Outside a request the aspect logs one warning and calls straight
      through: no entry, exit or error line, and the outcome untouched. */
  lemma NoRequestCallsThrough(jp: JoinPoint, now: int, ser: Serializer, ext: BodyExtractor)
    ensures var eff := AuditedCall(None, jp, now, ser, ext);
            && eff.result == jp.outcome
            && eff.events == [Logged(Warning(NoRequestMessage)), Proceeded(jp.args)]
            && Count(eff.events, ProceedEvent) == 1 && Count(eff.events, WarningEvent) == 1
            && Count(eff.events, EntryEvent) == 0 && Count(eff.events, ExitEvent) == 0 && Count(eff.events, ErrorEvent) == 0
  {
    var evs := [Logged(Warning(NoRequestMessage)), Proceeded(jp.args)];
    forall k ensures Count(evs, k) == (if k == ProceedEvent || k == WarningEvent then 1 else 0) {
      CountCons(evs[0], [evs[1]], k);
      CountCons(evs[1], [], k);
      assert [evs[1]] + [] == [evs[1]];
      assert [evs[0]] + [evs[1]] == evs;
    }
  }

  /** A "userId" attribute that is not a Long makes the cast throw before
      anything is logged, and the handler is never invoked. */
  lemma BadUserIdStopsBeforeProceeding(req: Request, jp: JoinPoint, now: int, ser: Serializer, ext: BodyExtractor)
    requires UserIdAttribute(req).Failure?
    ensures AuditedCall(Some(req), jp, now, ser, ext) == Effect([], Threw(Exception(ClassCast, None)))
  {
  }

  /** Two distinct positions of the same kind make the count at least two. */
  lemma {:induction false} CountUniqueAt(evs: seq<Event>, k: EventKind, a: nat, b: nat)
    requires a < |evs| && b < |evs| && a != b
    requires KindOf(evs[a]) == k && KindOf(evs[b]) == k
    ensures Count(evs, k) >= 2
    decreases |evs|
  {
    if a == 0 || b == 0 {
      var other := if a == 0 then b else a;
      assert KindOf(evs[1..][other - 1]) == k;
    } else {
      assert KindOf(evs[1..][a - 1]) == k && KindOf(evs[1..][b - 1]) == k;
      CountUniqueAt(evs[1..], k, a - 1, b - 1);
    }
  }

  /** In a request, exactly one entry line is logged and it comes before the
      handler is invoked, exactly once, whatever the handler then does. */
  lemma EntryPrecedesProceed(ctx: Option<Request>, jp: JoinPoint, now: int, ser: Serializer, ext: BodyExtractor)
    requires Audits(ctx)
    ensures var evs := AuditedCall(ctx, jp, now, ser, ext).events;
            && Count(evs, EntryEvent) == 1 && Count(evs, ProceedEvent) == 1
            && forall i, j :: 0 <= i < |evs| && 0 <= j < |evs| && KindOf(evs[i]) == EntryEvent && KindOf(evs[j]) == ProceedEvent ==> i < j
  {
    var req := ctx.value;
    var userId := UserIdAttribute(req).value;
    var entered := EntryEvents(req, jp, now, userId, ser);
    EntryEventsShape(req, jp, now, userId, ser);
    CompletionHasNoEntry(jp.methodName, req.uri, jp.outcome, ser, ext, EntryEvent);
    CompletionHasNoEntry(jp.methodName, req.uri, jp.outcome, ser, ext, ProceedEvent);
    AuditedCallCounts(ctx, jp, now, ser, ext, EntryEvent);
    AuditedCallCounts(ctx, jp, now, ser, ext, ProceedEvent);
    var evs := AuditedCall(ctx, jp, now, ser, ext).events;
    var e, p := |entered| - 2, |entered| - 1;
    assert KindOf(evs[e]) == EntryEvent && KindOf(evs[p]) == ProceedEvent;
    forall i, j | 0 <= i < |evs| && 0 <= j < |evs| && KindOf(evs[i]) == EntryEvent && KindOf(evs[j]) == ProceedEvent
      ensures i < j
    {
      if i != e { CountUniqueAt(evs, EntryEvent, e, i); }
      if j != p { CountUniqueAt(evs, ProceedEvent, p, j); }
    }
  }

  /** A handler that throws `e`: one error line carrying `e`'s message ends
      the trace, no exit line is written, and `e` itself is rethrown. */
  lemma ExceptionIsLoggedAndRethrown(ctx: Option<Request>, jp: JoinPoint, now: int, ser: Serializer, ext: BodyExtractor)
    requires Audits(ctx) && jp.outcome.Threw?
    ensures var eff := AuditedCall(ctx, jp, now, ser, ext);
            && eff.result == jp.outcome
            && Count(eff.events, ErrorEvent) == 1 && Count(eff.events, ExitEvent) == 0
            && eff.events[|eff.events| - 1] == Logged(ErrorLine(jp.methodName, ctx.value.uri, jp.outcome.ex.message))
  {
    EntryEventsShape(ctx.value, jp, now, UserIdAttribute(ctx.value).value, ser);
    CompletionOnThrow(jp.methodName, ctx.value.uri, jp.outcome, ser, ext);
    AuditedCallCounts(ctx, jp, now, ser, ext, ErrorEvent);
    AuditedCallCounts(ctx, jp, now, ser, ext, ExitEvent);
  }

  /** A handler that returns `v`, with a checked mapper: `v` is returned
      unchanged, and exactly one exit line ends the trace, carrying the method,
      the URI and the body extracted from the serialized value, with no error line. */
  lemma ReturnIsTransparent(ctx: Option<Request>, jp: JoinPoint, now: int, ser: Serializer, ext: BodyExtractor)
    requires Audits(ctx) && jp.outcome.Returned?
    requires CheckedCodec(ser, ext)
    ensures var eff := AuditedCall(ctx, jp, now, ser, ext);
            && eff.result == jp.outcome
            && Count(eff.events, ExitEvent) == 1 && Count(eff.events, ErrorEvent) == 0
            && |eff.events| > 0
            && var v := jp.outcome.value;
               eff.events[|eff.events| - 1] ==
                 Logged(Exit(jp.methodName, ctx.value.uri, ExtractBodyFromJson(Some(ConvertObjectToJson(v, ser).text), ext).text))
  {
    var v := jp.outcome.value;
    HelpersNeverThrow(v, Some(ConvertObjectToJson(v, ser).text), ser, ext);
    EntryEventsShape(ctx.value, jp, now, UserIdAttribute(ctx.value).value, ser);
    CompletionOnCleanReturn(jp.methodName, ctx.value.uri, jp.outcome, ser, ext);
    AuditedCallCounts(ctx, jp, now, ser, ext, ErrorEvent);
    AuditedCallCounts(ctx, jp, now, ser, ext, ExitEvent);
  }

  /** With a checked mapper, every audited call writes exactly one entry line
      and exactly one of an exit line or an error line. */
  lemma ExactlyOneOutcomeLine(ctx: Option<Request>, jp: JoinPoint, now: int, ser: Serializer, ext: BodyExtractor)
    requires Audits(ctx)
    requires CheckedCodec(ser, ext)
    ensures var evs := AuditedCall(ctx, jp, now, ser, ext).events;
            Count(evs, EntryEvent) == 1 && Count(evs, ExitEvent) + Count(evs, ErrorEvent) == 1
  {
    EntryPrecedesProceed(ctx, jp, now, ser, ext);
    if jp.outcome.Threw? {
      ExceptionIsLoggedAndRethrown(ctx, jp, now, ser, ext);
    } else {
      ReturnIsTransparent(ctx, jp, now, ser, ext);
    }
  }

  /** The aspect hands back what the handler produced outside a request, and
      in a request whenever the user id can be read and the handler threw or
      returned a value whose logging raises nothing; a returned value whose
      logging raises is never handed back. */
  lemma Transparency(ctx: Option<Request>, jp: JoinPoint, now: int, ser: Serializer, ext: BodyExtractor)
    ensures ctx.None? || (Audits(ctx) && (jp.outcome.Threw? || RendersCleanly(jp.outcome.value, ser, ext))) ==>
              AuditedCall(ctx, jp, now, ser, ext).result == jp.outcome
    ensures Audits(ctx) && jp.outcome.Returned? && !RendersCleanly(jp.outcome.value, ser, ext) ==>
              AuditedCall(ctx, jp, now, ser, ext).result.Threw?
  {
    if Audits(ctx) {
      if jp.outcome.Threw? {
        CompletionOnThrow(jp.methodName, ctx.value.uri, jp.outcome, ser, ext);
      } else if RendersCleanly(jp.outcome.value, ser, ext) {
        CompletionOnCleanReturn(jp.methodName, ctx.value.uri, jp.outcome, ser, ext);
      } else {
        CompletionOnRaisingReturn(jp.methodName, ctx.value.uri, jp.outcome, ser, ext);
      }
    }
  }

  /** With a checked mapper, whatever the aspect throws is the handler's own
      exception or the cast failure of a bad "userId": it never turns a
      return into a throw of its own. */
  lemma ThrowsOnlyWhatItMeets(ctx: Option<Request>, jp: JoinPoint, now: int, ser: Serializer, ext: BodyExtractor)
    requires CheckedCodec(ser, ext)
    ensures AuditedCall(ctx, jp, now, ser, ext).result.Threw? ==>
              (AuditedCall(ctx, jp, now, ser, ext).result == jp.outcome ||
               (ctx.Some? && UserIdAttribute(ctx.value).Failure?))
  {
    if Audits(ctx) && jp.outcome.Returned? {
      ReturnIsTransparent(ctx, jp, now, ser, ext);
    }
  }

  /** An unchecked exception while serializing a returned value escapes the
      aspect in place of the value, and neither an exit nor an error line is written. */
  lemma UncheckedSerializationReplacesResult(ctx: Option<Request>, jp: JoinPoint, now: int, ser: Serializer, ext: BodyExtractor)
    requires Audits(ctx) && jp.outcome.Returned? && jp.outcome.value != Null
    requires ser(jp.outcome.value).Unchecked?
    ensures var eff := AuditedCall(ctx, jp, now, ser, ext);
            && eff.result == Threw(ser(jp.outcome.value).ex)
            && Count(eff.events, ExitEvent) == 0 && Count(eff.events, ErrorEvent) == 0
  {
    EntryEventsShape(ctx.value, jp, now, UserIdAttribute(ctx.value).value, ser);
    CompletionOnRaisingReturn(jp.methodName, ctx.value.uri, jp.outcome, ser, ext);
    AuditedCallCounts(ctx, jp, now, ser, ext, ErrorEvent);
    AuditedCallCounts(ctx, jp, now, ser, ext, ExitEvent);
  }

  /** A handler returning null is logged with an empty response body. */
  lemma NullResultHasEmptyResponseBody(ctx: Option<Request>, jp: JoinPoint, now: int, ser: Serializer, ext: BodyExtractor)
    requires Audits(ctx) && jp.outcome == Returned(Null)
    ensures var evs := AuditedCall(ctx, jp, now, ser, ext).events;
            |evs| > 0 && evs[|evs| - 1] == Logged(Exit(jp.methodName, ctx.value.uri, ""))
  {
  }

  // ---------------------------------------------------------------------
  // The aspect object and its logger
  // ---------------------------------------------------------------------

  class AdminApiLoggingAspect {
    /** The injected ObjectMapper's write and body-extraction behaviour. */
    const serializer: Serializer
    const extractor: BodyExtractor
    /** Everything logged so far, with each handler invocation marked. */
    var trace: seq<Event>

    constructor (serializer: Serializer, extractor: BodyExtractor)
      ensures this.serializer == serializer && this.extractor == extractor
      ensures trace == []
    {
      this.serializer := serializer;
      this.extractor := extractor;
      trace := [];
    }

    method Log(line: LogLine)
      modifies this
      ensures trace == old(trace) + [Logged(line)]
    {
      trace := trace + [Logged(line)];
    }

    method LogAll(lines: seq<LogLine>)
      modifies this
      ensures trace == old(trace) + AsEvents(lines)
    {
      trace := trace + AsEvents(lines);
    }

    /** `joinPoint.proceed()`. */
    method Proceed(jp: JoinPoint) returns (r: Outcome)
      modifies this
      ensures trace == old(trace) + [Proceeded(jp.args)]
      ensures r == jp.outcome
    {
      trace := trace + [Proceeded(jp.args)];
      r := jp.outcome;
    }

    /** The catch block and the response logging that follow `proceed()`. */
    method Complete(methodName: string, uri: string, result: Outcome) returns (r: Outcome)
      modifies this
      ensures trace == old(trace) + Completion(methodName, uri, result, serializer, extractor).events
      ensures r == Completion(methodName, uri, result, serializer, extractor).result
    {
      if result.Threw? {
        Log(ErrorLine(methodName, uri, result.ex.message));
        r := result;
        return;
      }
      var responseString := ConvertObjectToJson(result.value, serializer);
      if responseString.Raised? {
        r := Threw(responseString.ex);
        return;
      }
      LogAll(responseString.diagnostics);
      var responseBody := ExtractBodyFromJson(Some(responseString.text), extractor);
      if responseBody.Raised? {
        r := Threw(responseBody.ex);
        return;
      }
      LogAll(responseBody.diagnostics);
      Log(Exit(methodName, uri, responseBody.text));
      r := result;
    }

    /** The request-body serialization, the entry logging and `proceed()`. */
    method Enter(req: Request, jp: JoinPoint, now: int, userId: Option<int>) returns (r: Outcome)
      modifies this
      ensures trace == old(trace) + EntryEvents(req, jp, now, userId, serializer)
      ensures r == jp.outcome
    {
      var requestBody := GetRequestBody(jp.args, serializer);
      var entry := Entry(jp.methodName, req.uri, now, userId, requestBody.text);
      LogAll(requestBody.diagnostics);
      Log(Banner);
      Log(entry);
      r := Proceed(jp);
      AppendAssociates(old(trace), AsEvents(requestBody.diagnostics), [Logged(Banner)], [Logged(entry)], [Proceeded(jp.args)]);
    }

    /** The body of the try block and what follows it, once the user id is read. */
    method AuditRequest(req: Request, jp: JoinPoint, now: int, userId: Option<int>) returns (r: Outcome)
      modifies this
      ensures trace == old(trace) + (EntryEvents(req, jp, now, userId, serializer) +
                                     Completion(jp.methodName, req.uri, jp.outcome, serializer, extractor).events)
      ensures r == Completion(jp.methodName, req.uri, jp.outcome, serializer, extractor).result
    {
      var result := Enter(req, jp, now, userId);
      r := Complete(jp.methodName, req.uri, result);
    }

    /** `logAdminApi(joinPoint)`: `ctx` is what `getHttpRequest()` finds and
        `now` what `LocalDateTime.now()` reads. */
    method LogAdminApi(ctx: Option<Request>, jp: JoinPoint, now: int) returns (r: Outcome)
      modifies this
      ensures trace == old(trace) + AuditedCall(ctx, jp, now, serializer, extractor).events
      ensures r == AuditedCall(ctx, jp, now, serializer, extractor).result
    {
      if ctx.None? {
        Log(Warning(NoRequestMessage));
        r := Proceed(jp);
        return;
      }
      var req := ctx.value;
      var cast := UserIdAttribute(req);
      if cast.Failure? {
        r := Threw(cast.error);
        return;
      }
      AuditedCallInRequest(req, jp, now, cast.value, serializer, extractor);
      r := AuditRequest(req, jp, now, cast.value);
    }
  }
}
