/**
 * `ReviewerEndpointController`: each handler parses its path or request
 * parameters in a fixed order, raises an `InvalidParameterException` for the
 * first one that fails, and calls the review service only when all of them
 * parsed. A handler's result is the service call it makes, or the exception.
 */
module ReviewerEndpoint {
  import opened Wrappers
  import opened JavaText
  import opened Domain
  import opened RestExceptions
  import opened ParameterParsing

  /** The review-service call a handler makes, with its arguments. */
  datatype ReviewCall =
    | GetApplicationsByStatus(status: ApplicationStatus)
    | GetApplicationsById(applicationId: int)
    | SetApplicationStatus(applicationId: int, status: ApplicationStatus, versionNumber: int)

  const StatusChoices: string := "please specify as \"unchecked\",\"accepted\" or \"denied\""

  const NullStatusCause: string := "Provided status value is null, " + StatusChoices

  function InvalidStatusCause(raw: string): string
  {
    "Provided value (" + raw + ") is not valid value for application status, " + StatusChoices
  }

  /**
   * `ApplicationStatus.valueOf(status.toLowerCase())` with its two catch
   * blocks: `null` raises the dedicated null message, an unknown name the
   * message with the raw value. Nothing else can be thrown, so the
   * "Unknown cause" block is never taken.
   */
  function ParseStatus(status: JString): (r: Result<ApplicationStatus, RaisedException>)
    ensures status.None? ==> r == Failure(InvalidParameter(NullStatusCause))
    ensures status.Some? ==> (r.Success? <==> ToLower(status.value) in {"unchecked", "accepted", "denied"})
    ensures status.Some? && r.Success? ==> StatusName(r.value) == ToLower(status.value)
    ensures status.Some? && r.Failure? ==> r.error == InvalidParameter(InvalidStatusCause(status.value))
  {
    match status
    case None => Failure(InvalidParameter(NullStatusCause))
    case Some(s) =>
      match StatusValueOf(ToLower(s))
      case Some(v) => Success(v)
      case None => Failure(InvalidParameter(InvalidStatusCause(s)))
  }

  /** `GetApplicationsByStatus`: the service is called exactly when the status parses. */
  function GetApplicationsByStatusHandler(status: JString): (r: Result<ReviewCall, RaisedException>)
    ensures r.Success? <==> ParseStatus(status).Success?
    ensures r.Success? ==> r.value == GetApplicationsByStatus(ParseStatus(status).value)
    ensures r.Failure? ==> r.error == ParseStatus(status).error
  {
    match ParseStatus(status)
    case Failure(e) => Failure(e)
    case Success(s) => Success(GetApplicationsByStatus(s))
  }

  /** `GetApplicationsById`: the service is called exactly when the id is a Java `int`. */
  function GetApplicationsByIdHandler(id: JString): (r: Result<ReviewCall, RaisedException>)
    ensures r.Success? <==> ParseInt(id).Some?
    ensures r.Success? ==> r.value == GetApplicationsById(ParseInt(id).value)
    ensures r.Failure? ==> r.error == InvalidParameter(NotAnIntegerCause(id))
  {
    match ParseInteger(id)
    case Failure(e) => Failure(e)
    case Success(n) => Success(GetApplicationsById(n))
  }

  /**
   * `UpdateApplicationsByStatus`: status, then application id, then version
   * number; the first failure is the answer, and the service receives
   * exactly the three parsed values.
   */
  function UpdateApplicationsByStatus(applicationId: JString, status: JString, versionNumber: JString): (r: Result<ReviewCall, RaisedException>)
    ensures r.Success? <==> ParseStatus(status).Success? && ParseInt(applicationId).Some? && ParseInt(versionNumber).Some?
    ensures r.Success? ==>
      r.value == SetApplicationStatus(ParseInt(applicationId).value, ParseStatus(status).value, ParseInt(versionNumber).value)
    ensures ParseStatus(status).Failure? ==> r == Failure(ParseStatus(status).error)
    ensures ParseStatus(status).Success? && ParseInt(applicationId).None? ==>
      r == Failure(InvalidParameter(NotAnIntegerCause(applicationId)))
    ensures ParseStatus(status).Success? && ParseInt(applicationId).Some? && ParseInt(versionNumber).None? ==>
      r == Failure(InvalidParameter(NotAnIntegerCause(versionNumber)))
  {
    match ParseStatus(status)
    case Failure(e) => Failure(e)
    case Success(s) =>
      match ParseInteger(applicationId)
      case Failure(e) => Failure(e)
      case Success(id) =>
        match ParseInteger(versionNumber)
        case Failure(e) => Failure(e)
        case Success(v) => Success(SetApplicationStatus(id, s, v))
  }

  /** The enum names contain no upper-case letters, so lower-casing leaves them alone. */
  lemma StatusNameIsLower(s: ApplicationStatus)
    ensures ToLower(StatusName(s)) == StatusName(s)
  {
    ToLowerNoUpper(StatusName(s));
  }

  /** A status parses, to the same constant, whether or not it is lower-cased first: the parse is case-insensitive. */
  lemma StatusCaseInsensitive(s1: string, s2: string)
    requires ToLower(s1) == ToLower(s2)
    ensures ParseStatus(Some(s1)).Success? <==> ParseStatus(Some(s2)).Success?
    ensures ParseStatus(Some(s1)).Success? ==> ParseStatus(Some(s1)).value == ParseStatus(Some(s2)).value
  {
  }

  /** Every spelling whose lower-cased form is an enum name is accepted, and only those. */
  lemma {:induction false} ParseStatusAcceptsExactly(raw: string, s: ApplicationStatus)
    ensures ParseStatus(Some(raw)) == Success(s) <==> ToLower(raw) == StatusName(s)
  {
    if ToLower(raw) == StatusName(s) {
      StatusNameRoundTrip(s);
    }
  }

  /** Upper-case spellings are accepted. */
  lemma UpperCaseAccepted()
    ensures ParseStatus(Some("ACCEPTED")) == Success(Accepted)
  {
    var u := "ACCEPTED";
    assert ToLower(u)[..] == "accepted" by {
      assert |ToLower(u)| == 8;
      assert forall i :: 0 <= i < 8 ==> ToLower(u)[i] == LowerChar(u[i]);
    }
  }

  /** A null status gets the null message whatever the other two parameters are. */
  lemma NullStatusFirst(applicationId: JString, versionNumber: JString)
    ensures UpdateApplicationsByStatus(applicationId, None, versionNumber) == Failure(InvalidParameter(NullStatusCause))
  {
  }

  /** A bad status hides bad ids: only the first failing field is reported. */
  lemma StatusCheckedBeforeIds(applicationId: JString, status: string, versionNumber: JString)
    requires ParseStatus(Some(status)).Failure?
    ensures UpdateApplicationsByStatus(applicationId, Some(status), versionNumber) == Failure(InvalidParameter(InvalidStatusCause(status)))
  {
  }

  /**
   * The printed forms of an id, a status name and a version are accepted
   * and reach the service unchanged, as long as both numbers fit an `int`;
   * a version beyond the `int` range is refused with its own raw text.
   */
  lemma {:induction false} UpdateOfPrintedValues(id: int, s: ApplicationStatus, version: int)
    requires InInt(id)
    ensures InInt(version) ==>
      UpdateApplicationsByStatus(Some(IntToString(id)), Some(StatusName(s)), Some(IntToString(version)))
        == Success(SetApplicationStatus(id, s, version))
    ensures !InInt(version) ==>
      UpdateApplicationsByStatus(Some(IntToString(id)), Some(StatusName(s)), Some(IntToString(version)))
        == Failure(InvalidParameter(NotAnIntegerCause(Some(IntToString(version)))))
  {
    StatusNameIsLower(s);
    StatusNameRoundTrip(s);
    ParseIntRoundTrip(id);
    ParseIntRoundTrip(version);
  }
}
