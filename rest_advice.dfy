/**
 * `GeneralRestAdvice`: the table from exception class to HTTP status and
 * response body, and the body built for a bean-validation failure.
 */
module GeneralRestAdvice {
  import opened Wrappers
  import opened JavaText
  import opened RestExceptions

  const BadRequest: int := 400
  const NotFound: int := 404
  const Conflict: int := 409
  const InternalServerError: int := 500

  datatype Response = Response(status: int, body: string)

  const ConstraintPrefix: string :=
    "Request contained 1 or more incorrectly formatted parameters, the following are details about the exact issues: "

  /** The text one violation adds to the body. */
  function Segment(message: string): string
  {
    " \n" + message
  }

  /** Total length of the segments of `violations`. */
  function SegmentsLength(violations: seq<string>): nat
  {
    if violations == [] then 0 else SegmentsLength(violations[..|violations| - 1]) + 2 + |violations[|violations| - 1]|
  }

  /** The segments of all violations, in iteration order. */
  function Details(violations: seq<string>): (d: string)
    ensures |d| == SegmentsLength(violations)
  {
    if violations == [] then ""
    else Details(violations[..|violations| - 1]) + Segment(violations[|violations| - 1])
  }

  /** The body of the constraint-violation handler. */
  function ConstraintReport(violations: seq<string>): (r: string)
    ensures |r| == |ConstraintPrefix| + SegmentsLength(violations)
    ensures r[..|ConstraintPrefix|] == ConstraintPrefix
  {
    ConstraintPrefix + Details(violations)
  }

  /** The details of two runs of violations, one after the other, are the details of each in turn. */
  lemma {:induction false} DetailsAppend(a: seq<string>, b: seq<string>)
    ensures Details(a + b) == Details(a) + Details(b)
    decreases |b|
  {
    if b == [] {
      assert a + b == a;
    } else {
      var init := b[..|b| - 1];
      assert (a + b)[..|a + b| - 1] == a + init;
      assert (a + b)[|a + b| - 1] == b[|b| - 1];
      DetailsAppend(a, init);
    }
  }

  /** Each violation contributes exactly `" \n"` and its message, at its place in the order. */
  lemma {:induction false} DetailsOfEach(violations: seq<string>, i: nat)
    requires i < |violations|
    ensures Details(violations) ==
            Details(violations[..i]) + Segment(violations[i]) + Details(violations[i + 1..])
  {
    assert violations == violations[..i] + [violations[i]] + violations[i + 1..];
    DetailsAppend(violations[..i] + [violations[i]], violations[i + 1..]);
    DetailsAppend(violations[..i], [violations[i]]);
    assert [violations[i]][..0] == [];
  }

  /** With no violations the body is the prefix alone. */
  lemma EmptyReport()
    ensures ConstraintReport([]) == ConstraintPrefix
  {
  }

  /** The handler's loop: the prefix, then one segment per violation. */
  method ConstraintViolationExceptionHandler(violations: seq<string>) returns (errorMessage: string)
    ensures errorMessage == ConstraintReport(violations)
  {
    errorMessage := ConstraintPrefix;
    var i := 0;
    while i < |violations|
      invariant 0 <= i <= |violations|
      invariant errorMessage == ConstraintPrefix + Details(violations[..i])
    {
      assert violations[..i + 1][..i] == violations[..i];
      errorMessage := errorMessage + " \n" + violations[i];
      i := i + 1;
    }
    assert violations[..i] == violations;
  }

  /**
   * The advice's answer for an exception, or `None` when none of its
   * handlers applies (the language and translation lookups are handled by
   * another advice, not part of this model). `classMessage` is the message
   * an exception class not part of this model builds from its argument.
   */
  function Handle(e: RaisedException, classMessage: RaisedException -> string): (r: Option<Response>)
    ensures r.None? <==> e.LanguageNotFound? || e.TranslationsNotFound? || e.NullPointer?
    ensures r.Some? && e.InvalidParameter? ==> r.value == Response(BadRequest, InvalidParameterMessage(Some(e.cause)))
    ensures r.Some? && e.ConstraintViolation? ==> r.value == Response(BadRequest, ConstraintReport(e.violations))
    ensures r.Some? && !e.InvalidParameter? && !e.ConstraintViolation? ==> r.value.body == classMessage(e)
  {
    match e
    case InvalidParameter(cause) => Some(Response(BadRequest, InvalidParameterMessage(Some(cause))))
    case SpecificCompetenceNotFound(_) => Some(Response(NotFound, classMessage(e)))
    case PersonNotFound(_) => Some(Response(NotFound, classMessage(e)))
    case AlreadyExists(_) => Some(Response(Conflict, classMessage(e)))
    case InvalidPerson(_) => Some(Response(Conflict, classMessage(e)))
    case CustomDatabase(_) => Some(Response(InternalServerError, classMessage(e)))
    case ConstraintViolation(violations) => Some(Response(BadRequest, ConstraintReport(violations)))
    case InvalidJwt(_) => Some(Response(BadRequest, classMessage(e)))
    case UsernameNotFound(_) => Some(Response(NotFound, classMessage(e)))
    case LanguageNotFound(_) => None
    case TranslationsNotFound(_) => None
    case NullPointer => None
  }

  /** The status each handled exception class maps to. */
  lemma StatusTable(e: RaisedException, classMessage: RaisedException -> string)
    requires Handle(e, classMessage).Some?
    ensures var s := Handle(e, classMessage).value.status;
      && (e.InvalidParameter? || e.ConstraintViolation? || e.InvalidJwt? ==> s == BadRequest)
      && (e.SpecificCompetenceNotFound? || e.PersonNotFound? || e.UsernameNotFound? ==> s == NotFound)
      && (e.AlreadyExists? || e.InvalidPerson? ==> s == Conflict)
      && (e.CustomDatabase? ==> s == InternalServerError)
  {
  }

  /** An invalid parameter is answered with 400 and a body that starts with the fixed prefix and ends with the cause. */
  lemma InvalidParameterAnswer(cause: string, classMessage: RaisedException -> string)
    ensures Handle(InvalidParameter(cause), classMessage).Some?
    ensures Handle(InvalidParameter(cause), classMessage).value.status == BadRequest
    ensures CauseOf(Handle(InvalidParameter(cause), classMessage).value.body) == Some(cause)
  {
    InvalidParameterRoundTrip(cause);
  }
}
