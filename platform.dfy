/** The few JVM and servlet notions that the admin pipeline relies on:
    nullable values, exceptions, and the request-scoped attribute map. */
module Platform {

  /** A nullable reference: `None` stands for Java's `null`. */
  datatype Option<+T> = None | Some(value: T)

  datatype Result<+T, +E> = Success(value: T) | Failure(error: E)

  /** The exception classes the core throws or passes through. */
  datatype ExceptionKind =
    | UnauthorizedAdminAccess   // domain.common.exception.UnauthorizedAdminAccessException
    | ClassCast                 // java.lang.ClassCastException from a `(Long)` cast
    | Other(className: string)  // anything a handler throws

  /** A thrown `Exception`; `message` is what `getMessage()` returns (possibly null). */
  datatype Exception = Exception(kind: ExceptionKind, message: Option<string>)

  /** The values an upstream filter may store as request attributes: a `Long`,
      or any other object (a `String`, an `Integer`, an enum, ...), which
      `TextAttr` stands for by its rendering; every such value makes a
      `(Long)` cast throw. */
  datatype Attr = LongAttr(n: int) | TextAttr(s: string)

  /** The part of an `HttpServletRequest` the core reads. */
  datatype Request = Request(uri: string, attributes: map<string, Attr>)

  /** The attribute key under which the authentication filter stores the caller's id. */
  const UserIdKey: string := "userId"

  /** `(Long) request.getAttribute("userId")`: null when the attribute is absent,
      a ClassCastException when it holds something other than a Long. */
  function UserIdAttribute(req: Request): (r: Result<Option<int>, Exception>)
    ensures r == Success(None) <==> UserIdKey !in req.attributes
    ensures r.Failure? <==> UserIdKey in req.attributes && !req.attributes[UserIdKey].LongAttr?
    ensures r.Failure? ==> r.error.kind == ClassCast
    ensures forall id :: r == Success(Some(id)) <==> UserIdKey in req.attributes && req.attributes[UserIdKey] == LongAttr(id)
  {
    if UserIdKey !in req.attributes then Success(None)
    else match req.attributes[UserIdKey]
      case LongAttr(n) => Success(Some(n))
      case TextAttr(_) => Failure(Exception(ClassCast, None))
  }

  /** Any Java object handed to or returned by an intercepted method. Its
      content is opaque; only the serializer looks inside it. */
  datatype JavaValue = Null | LongValue(n: int) | Instance(ref: nat)
}
