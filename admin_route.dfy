/** One request to an admin route: the interceptor decides first, and only
    an allowed request reaches the handler, through the logging aspect when
    the handler is marked `@LogAdmin`. */
module AdminRoute {
  import opened Platform
  import opened UserRepository
  import opened AuditLog
  import opened AdminApiInterceptor
  import opened AdminApiLogging

  /** What dispatching `req` to `handler` adds to the trace and returns. */
  function Dispatch(users: seq<UserRow>, req: Request, handler: JoinPoint, audited: bool, now: int,
                    ser: Serializer, ext: BodyExtractor): Effect
  {
    match PreHandle(users, req)
    case Deny(ex) => Effect([], Threw(ex))
    case Allow =>
      if audited then AuditedCall(Some(req), handler, now, ser, ext)
      else Effect([Proceeded(handler.args)], handler.outcome)
  }

  /** A denied request leaves no trace: the handler is never invoked and the
      aspect never runs; the interceptor's exception is what the caller gets. */
  lemma DeniedRequestNeverReachesHandler(users: seq<UserRow>, req: Request, handler: JoinPoint, audited: bool, now: int,
                                         ser: Serializer, ext: BodyExtractor)
    requires PreHandle(users, req).Deny?
    ensures var eff := Dispatch(users, req, handler, audited, now, ser, ext);
            && eff.events == [] && Count(eff.events, ProceedEvent) == 0
            && eff.result == Threw(PreHandle(users, req).ex)
  {
  }

  /** An allowed request invokes the handler exactly once, with its own
      arguments; with a checked mapper the handler's outcome is what the caller gets. */
  lemma AllowedRequestInvokesHandlerOnce(users: seq<UserRow>, req: Request, handler: JoinPoint, audited: bool, now: int,
                                         ser: Serializer, ext: BodyExtractor)
    requires PreHandle(users, req).Allow?
    ensures var evs := Dispatch(users, req, handler, audited, now, ser, ext).events;
            && Count(evs, ProceedEvent) == 1
            && forall j :: 0 <= j < |evs| && KindOf(evs[j]) == ProceedEvent ==> evs[j] == Proceeded(handler.args)
    ensures CheckedCodec(ser, ext) ==> Dispatch(users, req, handler, audited, now, ser, ext).result == handler.outcome
  {
    var evs := Dispatch(users, req, handler, audited, now, ser, ext).events;
    if audited {
      var userId := UserIdAttribute(req).value;
      var entered := EntryEvents(req, handler, now, userId, ser);
      EntryEventsShape(req, handler, now, userId, ser);
      EntryPrecedesProceed(Some(req), handler, now, ser, ext);
      AuditedCallCounts(Some(req), handler, now, ser, ext, ProceedEvent);
      var p := |entered| - 1;
      assert evs[p] == Proceeded(handler.args);
      forall j | 0 <= j < |evs| && KindOf(evs[j]) == ProceedEvent ensures evs[j] == Proceeded(handler.args) {
        if j != p { CountUniqueAt(evs, ProceedEvent, p, j); }
      }
      if CheckedCodec(ser, ext) {
        if handler.outcome.Threw? {
          ExceptionIsLoggedAndRethrown(Some(req), handler, now, ser, ext);
        } else {
          ReturnIsTransparent(Some(req), handler, now, ser, ext);
        }
      }
    } else {
      CountCons(Proceeded(handler.args), [], ProceedEvent);
      assert [Proceeded(handler.args)] + [] == evs;
    }
  }

  /** The stored role of the caller, and nothing else about the users or the
      request, decides whether the handler runs. */
  lemma HandlerRunsIffStoredAdmin(users: seq<UserRow>, req: Request, handler: JoinPoint, audited: bool, now: int,
                                  ser: Serializer, ext: BodyExtractor)
    ensures Count(Dispatch(users, req, handler, audited, now, ser, ext).events, ProceedEvent) > 0 <==>
            UserIdAttribute(req).Success? && ExistsByIdAndRole(users, UserIdAttribute(req).value)
  {
    if PreHandle(users, req).Allow? {
      AllowedRequestInvokesHandlerOnce(users, req, handler, audited, now, ser, ext);
    }
  }

  /** A token saying ADMIN for user 1, whose stored role is USER: the request
      is refused with the unauthorized exception and the handler never runs. */
  lemma DemotedAdminScenario(email: string, uri: string, commentId: int, handler: JoinPoint, audited: bool, now: int,
                             ser: Serializer, ext: BodyExtractor)
    requires handler.args == [LongValue(commentId)]
    ensures var users := [UserRow(1, email, User)];
            var req := Request(uri, map[UserIdKey := LongAttr(1), "userRole" := TextAttr("ADMIN")]);
            Dispatch(users, req, handler, audited, now, ser, ext) == Effect([], Threw(UnauthorizedAdminAccessException()))
  {
    var users := [UserRow(1, email, User)];
    var req := Request(uri, map[UserIdKey := LongAttr(1), "userRole" := TextAttr("ADMIN")]);
    assert UserIdKey != "userRole";
    DemotedAdminIsDenied(users, req, 0);
  }

  /** User 1 stored as ADMIN deletes a comment: the handler runs exactly once
      with the comment id and its result is returned. */
  lemma AdminDeletesCommentScenario(email: string, uri: string, commentId: int, handler: JoinPoint, audited: bool, now: int,
                                    ser: Serializer, ext: BodyExtractor)
    requires handler.args == [LongValue(commentId)] && handler.outcome == Returned(Null)
    ensures var users := [UserRow(1, email, Admin)];
            var req := Request(uri, map[UserIdKey := LongAttr(1)]);
            var eff := Dispatch(users, req, handler, audited, now, ser, ext);
            && Count(eff.events, ProceedEvent) == 1
            && (forall j :: 0 <= j < |eff.events| && KindOf(eff.events[j]) == ProceedEvent ==>
                              eff.events[j] == Proceeded([LongValue(commentId)]))
            && eff.result == Returned(Null)
  {
    var users := [UserRow(1, email, Admin)];
    var req := Request(uri, map[UserIdKey := LongAttr(1)]);
    StoredAdminIsAllowed(users, req, 0);
    AllowedRequestInvokesHandlerOnce(users, req, handler, audited, now, ser, ext);
    if audited {
      NullResultHasEmptyResponseBody(Some(req), handler, now, ser, ext);
      Transparency(Some(req), handler, now, ser, ext);
    }
  }

  /** Runs one admin request against the aspect, which records what the handler does. */
  method HandleAdminRequest(users: seq<UserRow>, req: Request, handler: JoinPoint, audited: bool, now: int,
                            aspect: AdminApiLoggingAspect) returns (r: Outcome)
    modifies aspect
    ensures aspect.trace == old(aspect.trace) + Dispatch(users, req, handler, audited, now, aspect.serializer, aspect.extractor).events
    ensures r == Dispatch(users, req, handler, audited, now, aspect.serializer, aspect.extractor).result
  {
    var decision := PreHandle(users, req);
    if decision.Deny? {
      r := Threw(decision.ex);
      return;
    }
    if audited {
      r := aspect.LogAdminApi(Some(req), handler, now);
    } else {
      r := aspect.Proceed(handler);
    }
  }
}
