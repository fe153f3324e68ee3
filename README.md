# Admin access gate and audit aspect

This project models the admin-route pipeline of a Spring task-management backend:

- **`UserRepository`** (`user_repository.dfy`). The read-only queries `existsByIdAndRole`, `existsByEmail` and `findByEmail` run over the durable user table. The table is an immutable `seq<UserRow>`. Every query is a function of it, so no query can change it.
- **`AdminApiInterceptor`** (`admin_api_interceptor.dfy`). `preHandle` reads the `"userId"` request attribute and asks the repository whether that id is stored as ADMIN. If not, it throws `UnauthorizedAdminAccessException` with its fixed message. The decision is a function returning `Allow | Deny(ex)`. It reads the table and the request and changes neither. A role claim copied from the login token plays no part in it.
- **`AdminApiLoggingAspect`** (`admin_api_logging.dfy`, with the trace vocabulary in `audit_log.dfy`). This is the around-advice on `@LogAdmin` handlers. The helpers `convertObjectToJson`, `extractBodyFromJson` and `getRequestBody` are total functions. Each returns the text together with the error lines it logged, or the unchecked exception it let escape.
  - `logAdminApi` is a method of the class `AdminApiLoggingAspect`. It appends to a `trace` field: the logger's lines, interleaved with a `Proceeded(args)` marker each time `joinPoint.proceed()` runs. It is proved equal, event by event, to the reference function `AuditedCall`. The lemmas beside it state the properties over that function:
    - the warning and call-through outside a request;
    - one entry line before the single invocation;
    - exactly one exit line or one error line;
    - the handler's exception rethrown unchanged;
    - the returned value passed through unchanged.
- **`AdminRoute`** (`admin_route.dfy`). It composes the two. The interceptor decides first. Only an allowed request reaches the handler, through the aspect when the handler is marked. The two scenarios in `AdminApiInterceptorTest` are lemmas over this composition.

The ObjectMapper is a pair of function parameters. `Serializer` stands for `writeValueAsString`. `BodyExtractor` stands for `readTree(json).path("body")` rendered again. Each may succeed, fail with a `JsonProcessingException` (`ProcessingFailed`), or fail with any other exception (`Unchecked`). Jackson declares only the first kind of failure. The predicate `CheckedCodec` states that assumption, and the "never throws" properties are proved under it. Without it, `UncheckedSerializationReplacesResult` shows what the code does: lines 68-69 sit outside any `try`. The request in scope (`RequestContextHolder`) is an `Option<Request>` argument. `LocalDateTime.now()` is an integer argument `now`.

Three behaviours of the code are worth stating outright:
- The gate does not signal a missing `"userId"` as a distinct condition. `existsByIdAndRole(null)` matches no row, so the gate throws the same `UnauthorizedAdminAccessException` (`MissingIdentityIsDenied`).
- The aspect's exit line carries the `"body"` field extracted from the serialized result, not the whole serialized result.
- Outside a request the aspect fails open. It warns and calls through (`NoRequestCallsThrough`).

## Model

| member | source | states |
|---|---|---|
| `Platform.UserIdAttribute` | src/main/java/org/example/expert/config/AdminApiInterceptor.java:21 | `(Long) getAttribute("userId")` is null exactly when the attribute is absent. It is a ClassCastException exactly when the attribute holds a non-Long. Otherwise it is that Long. |
| `UserRepository.CountAdminsWithId` | src/main/java/org/example/expert/domain/user/repository/UserRepository.java:13 | The JPQL count is at most the table size. It is positive iff some row has that id and role ADMIN. |
| `UserRepository.ExistsByIdAndRole` | src/main/java/org/example/expert/domain/user/repository/UserRepository.java:13-14 | True iff the id is non-null and some row has that id and role ADMIN. |
| `UserRepository.StoredUserIsNotAdmin` | src/main/java/org/example/expert/domain/user/repository/UserRepository.java:13 | With ids as keys, an id whose row says USER is never reported as ADMIN, although the id exists. |
| `UserRepository.UnknownIdIsNotAdmin` | src/main/java/org/example/expert/domain/user/repository/UserRepository.java:13 | An id with no row is never reported as ADMIN. |
| `UserRepository.ExistsByEmail` | src/main/java/org/example/expert/domain/user/repository/UserRepository.java:11 | True iff some row has that email. |
| `UserRepository.FindByEmail` | src/main/java/org/example/expert/domain/user/repository/UserRepository.java:10 | Present iff `ExistsByEmail`. A present result is a row of the table with that email, and no earlier row has it. |
| `UserRepository.FindByEmailIsTheUniqueRow` | src/main/java/org/example/expert/domain/user/repository/UserRepository.java:10 | With unique emails, the row found is the one row carrying that email. |
| `AdminApiInterceptor.UnauthorizedAdminAccessException` | src/main/java/org/example/expert/domain/common/exception/UnauthorizedAdminAccessException.java:9-11 | The exception has its own kind and the fixed Korean message. |
| `AdminApiInterceptor.PreHandle` | src/main/java/org/example/expert/config/AdminApiInterceptor.java:20-29 | Allows iff the `"userId"` attribute is a Long naming a stored ADMIN row. Any other denial throws the unauthorized exception with its fixed message, unless the cast itself failed, in which case it throws a ClassCastException. |
| `AdminApiInterceptor.MissingIdentityIsDenied` | src/main/java/org/example/expert/config/AdminApiInterceptor.java:21-26 | With no `"userId"` attribute the gate denies with the unauthorized exception (fail closed). |
| `AdminApiInterceptor.DecisionIgnoresOtherAttributes` | src/main/java/org/example/expert/config/AdminApiInterceptor.java:21-24 | Overwriting any attribute other than `"userId"`, such as a token role claim, leaves the decision unchanged. |
| `AdminApiInterceptor.DecisionDependsOnlyOnStoredRole` | src/main/java/org/example/expert/config/AdminApiInterceptor.java:24 | Two tables that agree on which ids are ADMIN give the same decision for every request. |
| `AdminApiInterceptor.DemotedAdminIsDenied` | src/test/java/org/example/expert/config/AdminApiInterceptorTest.java:31-46 | A caller whose token says ADMIN but whose stored role is USER is denied with the unauthorized exception. |
| `AdminApiInterceptor.StoredAdminIsAllowed` | src/main/java/org/example/expert/config/AdminApiInterceptor.java:24-28 | A caller stored as ADMIN is allowed. |
| `AdminApiLogging.ConvertObjectToJson` | src/main/java/org/example/expert/aop/AdminApiLoggingAspect.java:100-109 | null gives `""`. A processing failure gives the sentinel `"Error serializing object to JSON"` and logs one error line. Only an unchecked mapper exception escapes, and it is that exception. |
| `AdminApiLogging.ExtractBodyFromJson` | src/main/java/org/example/expert/aop/AdminApiLoggingAspect.java:111-121 | null or blank input (per `Character.isWhitespace`) gives `""`. A processing failure gives the sentinel `"Error extracting body from JSON"` and logs one error line. Only an unchecked mapper exception escapes. |
| `AdminApiLogging.EmptyJsonHasEmptyBody` | src/main/java/org/example/expert/aop/AdminApiLoggingAspect.java:112 | Both `""` and null give `""` with nothing logged. |
| `AdminApiLogging.HelpersNeverThrow` | src/main/java/org/example/expert/aop/AdminApiLoggingAspect.java:100-121 | With a checked mapper, neither helper throws. Each logs at most one error line, and that line carries the sentinel it returns. |
| `AdminApiLogging.ReduceJoins` | src/main/java/org/example/expert/aop/AdminApiLoggingAspect.java:89-92 | The stream's left-fold `reduce` equals joining the texts first to last with `", "`. |
| `AdminApiLogging.ConvertAll` | src/main/java/org/example/expert/aop/AdminApiLoggingAspect.java:89-90 | The mapped stream logs only codec error lines. |
| `AdminApiLogging.ConvertAllInOrder` | src/main/java/org/example/expert/aop/AdminApiLoggingAspect.java:89-90 | The mapped stream carries no exception iff every argument converts. It then yields one serialization per argument, in argument order. |
| `AdminApiLogging.ConvertAllStopsAtFirstRaise` | src/main/java/org/example/expert/aop/AdminApiLoggingAspect.java:89-90 | When the mapped stream carries an exception, it is that of some argument whose conversion throws, and every earlier argument converts. |
| `AdminApiLogging.GetRequestBody` | src/main/java/org/example/expert/aop/AdminApiLoggingAspect.java:85-98 | Never throws and logs only codec error lines. Zero arguments give `""` with nothing logged. |
| `AdminApiLogging.RequestBodyJoinsSerializations` | src/main/java/org/example/expert/aop/AdminApiLoggingAspect.java:87-97 | When every argument converts, the body is the per-argument serializations joined with `", "`. If a conversion throws, the body is `""` and the last line logged is `"Error serializing request body"`. |
| `AdminApiLogging.SingleArgumentBody` | src/main/java/org/example/expert/aop/AdminApiLoggingAspect.java:89-92 | A single argument's request body is exactly its serialization. |
| `AdminApiLogging.EntryEventsShape` | src/main/java/org/example/expert/aop/AdminApiLoggingAspect.java:45-58 | Before and including `proceed()`: exactly one entry line, carrying the method name, the URI, the time, the user id and the request body, directly followed by the one invocation with the handler's arguments. There is no exit, error or warning line. |
| `AdminApiLogging.CompletionHasNoEntry` | src/main/java/org/example/expert/aop/AdminApiLoggingAspect.java:57-77 | After `proceed()` there is no entry line, no warning and no second invocation. |
| `AdminApiLogging.CompletionOnThrow` | src/main/java/org/example/expert/aop/AdminApiLoggingAspect.java:59-66 | A thrown exception gives exactly the one error line carrying its message, and the same exception is handed back. |
| `AdminApiLogging.CompletionOnCleanReturn` | src/main/java/org/example/expert/aop/AdminApiLoggingAspect.java:68-77 | A returned value whose logging raises nothing is handed back. Exactly one exit line is logged, last, carrying the method name, the URI and the body extracted from the serialized value. No error line is logged. |
| `AdminApiLogging.CompletionOnRaisingReturn` | src/main/java/org/example/expert/aop/AdminApiLoggingAspect.java:68-70 | A returned value whose serialization or extraction raises unchecked is replaced by the mapper's own exception: the serializer's if it raised, otherwise the extractor's. Neither an exit line nor an error line is logged. |
| `AdminApiLogging.AuditedCallCounts` | src/main/java/org/example/expert/aop/AdminApiLoggingAspect.java:40-77 | With a readable user id, the call is its entry part followed by its completion, and every count is the sum of the two parts. |
| `AdminApiLogging.NoRequestCallsThrough` | src/main/java/org/example/expert/aop/AdminApiLoggingAspect.java:31-38 | Outside a request: one warning, one invocation, no entry, exit or error line, and the outcome unchanged. |
| `AdminApiLogging.BadUserIdStopsBeforeProceeding` | src/main/java/org/example/expert/aop/AdminApiLoggingAspect.java:42 | A non-Long `"userId"` throws a ClassCastException before anything is logged or invoked. |
| `AdminApiLogging.EntryPrecedesProceed` | src/main/java/org/example/expert/aop/AdminApiLoggingAspect.java:47-58 | In a request, whatever the handler does, there is exactly one entry line and exactly one invocation, and the entry line comes first. |
| `AdminApiLogging.ExceptionIsLoggedAndRethrown` | src/main/java/org/example/expert/aop/AdminApiLoggingAspect.java:57-66 | A thrown `e` is rethrown identically. Exactly one error line, carrying `e.getMessage()`, ends the trace, and there is no exit line. |
| `AdminApiLogging.ReturnIsTransparent` | src/main/java/org/example/expert/aop/AdminApiLoggingAspect.java:68-77 | With a checked mapper, a returned value is handed back unchanged. Exactly one exit line ends the trace, carrying the method name, the URI and the body extracted from the serialized value, and there is no error line. |
| `AdminApiLogging.ExactlyOneOutcomeLine` | src/main/java/org/example/expert/aop/AdminApiLoggingAspect.java:47-77 | With a checked mapper, each audited call has one entry line and exactly one of an exit line or an error line. |
| `AdminApiLogging.Transparency` | src/main/java/org/example/expert/aop/AdminApiLoggingAspect.java:29-78 | The outcome is passed through outside a request. In a request it is passed through when the id is readable and the handler threw or returned a value whose logging raises nothing. A value whose logging raises is never returned. |
| `AdminApiLogging.ThrowsOnlyWhatItMeets` | src/main/java/org/example/expert/aop/AdminApiLoggingAspect.java:29-78 | With a checked mapper, anything thrown is the handler's own outcome or the cast failure of a bad `"userId"`. |
| `AdminApiLogging.UncheckedSerializationReplacesResult` | src/main/java/org/example/expert/aop/AdminApiLoggingAspect.java:68-69 | An unchecked exception while serializing the returned value escapes in its place, with neither an exit line nor an error line. |
| `AdminApiLogging.NullResultHasEmptyResponseBody` | src/main/java/org/example/expert/aop/AdminApiLoggingAspect.java:68-75 | A handler returning null is logged with an empty response body as the last line. |
| `AdminApiLogging.AdminApiLoggingAspect.Enter` | src/main/java/org/example/expert/aop/AdminApiLoggingAspect.java:45-58 | Appends the request-body diagnostics, the banner, the entry line and the invocation, in that order. It returns the handler's outcome. |
| `AdminApiLogging.AdminApiLoggingAspect.AuditRequest` | src/main/java/org/example/expert/aop/AdminApiLoggingAspect.java:45-77 | Appends the entry part and then the completion, and returns the completion's result. |
| `AdminApiLogging.AdminApiLoggingAspect.Complete` | src/main/java/org/example/expert/aop/AdminApiLoggingAspect.java:57-77 | Appends what follows `proceed()` and returns what the aspect hands back, both as `Completion` says. |
| `AdminApiLogging.AdminApiLoggingAspect.LogAdminApi` | src/main/java/org/example/expert/aop/AdminApiLoggingAspect.java:29-78 | The trace grows by exactly the events of `AuditedCall`, and the result is its result. All of the lemmas above therefore hold of the method. |
| `AdminRoute.DeniedRequestNeverReachesHandler` | src/main/java/org/example/expert/config/AdminApiInterceptor.java:24-26 | A denied request adds nothing to the trace: zero invocations, no aspect lines. The caller gets the interceptor's exception. |
| `AdminRoute.AllowedRequestInvokesHandlerOnce` | src/main/java/org/example/expert/config/AdminApiInterceptor.java:28 | An allowed request invokes the handler exactly once, with its own arguments. With a checked mapper, the caller gets the handler's outcome. |
| `AdminRoute.HandlerRunsIffStoredAdmin` | src/main/java/org/example/expert/config/AdminApiInterceptor.java:20-29 | The handler runs iff the `"userId"` attribute is a Long that the table stores as ADMIN. |
| `AdminRoute.DemotedAdminScenario` | src/test/java/org/example/expert/config/AdminApiInterceptorTest.java:31-46 | User 1, ADMIN in the token and USER in the table: the request ends with the unauthorized exception and an empty trace. |
| `AdminRoute.AdminDeletesCommentScenario` | src/test/java/org/example/expert/config/AdminApiInterceptorTest.java:48-63 | User 1, ADMIN in the table: the delete handler runs exactly once with the comment id, and its null result is returned. |
| `AdminRoute.HandleAdminRequest` | src/main/java/org/example/expert/config/AdminApiInterceptor.java:20-29 | Runs the gate, then the aspect or the plain handler. The trace and result are exactly those of `Dispatch`. |

## Left out

- AOP weaving and the `@LogAdmin` pointcut: `LogAdmin.java` is only a marker. Whether a handler is advised is the `audited` argument of `AdminRoute.Dispatch`.
- `getHttpRequest` / `RequestContextHolder` thread-local lookup: it is the `Option<Request>` argument `ctx`.
- `LocalDateTime.now()`: it is the opaque integer argument `now`.
- log4j formatting: log lines are kept as structured fields. The placeholder rendering and the stack traces passed to `logger.error(message, e)` are not modelled.
- Jackson internals: pretty printing, `readTree` and `path("body")` rendering are not modelled. Jackson is reduced to the `Serializer` and `BodyExtractor` function parameters and their three-way result.
- `Throwable`s that are not `Exception`s (JVM `Error`s): handlers are modelled as returning or throwing an `Exception` only. Line 59 catches only that case.
- The HTTP 403 mapping of `UnauthorizedAdminAccessException`: it is done by an exception handler that is not part of this model.
- JPA/JPQL execution: the queries are functions over the sequence of rows.
- Java `Long` width: ids and the comment id are unbounded integers. The core does no arithmetic on them.
- Exception identity: exceptions are values, so "the same exception is rethrown" means equal kind and message, not the same Java object.
- `Platform.UserIdAttribute`: the message of a `ClassCastException` is not modelled (it is `None`). Only its kind matters, because it propagates before anything is logged.
- `UserRepository.FindByEmail`: when several rows share the email, Spring Data raises `IncorrectResultSizeDataAccessException`, but the model returns the first such row. The unique constraint on the email column lives in the `User` entity, which is not part of this model. `FindByEmailIsTheUniqueRow` covers the unique case.
- `UserRepository.ExistsByEmail`: a null email, which a derived query turns into `IS NULL`, is not modelled. Emails are non-null strings.
- Concurrency: each request is handled independently. The window between the gate's read and the handler's call is not modelled.
- The service classes exercised by `ManagerServiceTest`, `AuthServiceTest`, `UserServiceTest`, `TodoServiceTest`, `CommentServiceTest`, `UserAdminServiceTest` and `CommentAdminServiceTest` are not part of this model. Their sources are CRUD plumbing over mocked repositories.
