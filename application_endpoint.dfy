/**
 * `ApplicationEndpointController`: the applicant's own competence profiles,
 * availability periods and application. Every handler takes the person id
 * from the authenticated principal; the parameters it parses, in order, only
 * supply the remaining arguments of the one service call it makes.
 */
module ApplicationEndpoint {
  import opened Wrappers
  import opened JavaText
  import opened RestExceptions
  import opened ParameterParsing

  /** The principal the token gate installed for an applicant. */
  datatype PersonDetails = PersonDetails(personId: int, username: string)

  /** The application-service call a handler makes, with its arguments. */
  datatype ApplicationCall =
    | GetCompetenceProfilesForAPerson(personId: int)
    | CreateCompetenceProfile(competenceId: int, personId: int, yearsOfExperience: real)
    | GetAvailabilityForAPerson(personId: int)
    | CreateAvailability(personId: int, fromDate: SqlDate, toDate: SqlDate)
    | SubmitApplication(personId: int, availabilityIds: Option<seq<int>>, competenceProfileIds: Option<seq<int>>)

  /** The JSON body of a submission; either list may be absent. */
  datatype SubmissionBody = SubmissionBody(availabilityIds: Option<seq<int>>, competenceProfileIds: Option<seq<int>>)

  function NotADoubleCause(raw: string): string
  {
    "Provided value (" + raw + ") could not be parsed as a valid double"
  }

  /** `Double.parseDouble(null)` throws `NullPointerException`, which lands in the generic block. */
  const UnknownYearsCause: string :=
    "Unknown cause, but double check formating of request, specifically for the yearsOfExperience parameter"

  const DateFormatAdvice: string :=
    ") could not be parsed as a valid date, please use the yyyy-(m)m-(d)d format, with the (m) and (d) specifying that these can be 0 or ignored"

  function NotADateCause(raw: JString): string
  {
    "Provided value (" + Show(raw) + DateFormatAdvice
  }

  /**
   * `Double.parseDouble(raw)`: `parseDouble` is the library's decimal parser
   * on a non-null string (`None` is its `NumberFormatException`).
   */
  function ParseYears(raw: JString, parseDouble: string -> Option<real>): (r: Result<real, RaisedException>)
    ensures raw.None? ==> r == Failure(InvalidParameter(UnknownYearsCause))
    ensures raw.Some? ==> (r.Success? <==> parseDouble(raw.value).Some?)
    ensures raw.Some? && r.Success? ==> r.value == parseDouble(raw.value).value
    ensures raw.Some? && r.Failure? ==> r.error == InvalidParameter(NotADoubleCause(raw.value))
  {
    match raw
    case None => Failure(InvalidParameter(UnknownYearsCause))
    case Some(s) =>
      match parseDouble(s)
      case Some(y) => Success(y)
      case None => Failure(InvalidParameter(NotADoubleCause(s)))
  }

  /** `Date.valueOf(raw)`; `valueOf(null)` throws `IllegalArgumentException`, so the generic block is never taken. */
  function ParseDate(raw: JString): (r: Result<SqlDate, RaisedException>)
    ensures r.Success? <==> ParseSqlDate(raw).Some?
    ensures r.Success? ==> r.value == ParseSqlDate(raw).value
    ensures r.Failure? ==> r.error == InvalidParameter(NotADateCause(raw))
  {
    match ParseSqlDate(raw)
    case Some(d) => Success(d)
    case None => Failure(InvalidParameter(NotADateCause(raw)))
  }

  /** `GetCompetenceProfilesForAPerson`: no parameters; the principal's id. */
  function GetCompetenceProfilesHandler(principal: PersonDetails): Result<ApplicationCall, RaisedException>
  {
    Success(GetCompetenceProfilesForAPerson(principal.personId))
  }

  /** `CreateCompetenceProfile`: competence id first, then years; the service only when both parse. */
  function CreateCompetenceProfileHandler(principal: PersonDetails, competenceId: JString, yearsOfExperience: JString,
                                          parseDouble: string -> Option<real>): (r: Result<ApplicationCall, RaisedException>)
    ensures r.Success? <==> ParseInt(competenceId).Some? && ParseYears(yearsOfExperience, parseDouble).Success?
    ensures r.Success? ==> r.value == CreateCompetenceProfile(ParseInt(competenceId).value, principal.personId,
                                                                ParseYears(yearsOfExperience, parseDouble).value)
    ensures ParseInt(competenceId).None? ==> r == Failure(InvalidParameter(NotAnIntegerCause(competenceId)))
    ensures ParseInt(competenceId).Some? && ParseYears(yearsOfExperience, parseDouble).Failure? ==>
      r == Failure(ParseYears(yearsOfExperience, parseDouble).error)
  {
    match ParseInteger(competenceId)
    case Failure(e) => Failure(e)
    case Success(id) =>
      match ParseYears(yearsOfExperience, parseDouble)
      case Failure(e) => Failure(e)
      case Success(y) => Success(CreateCompetenceProfile(id, principal.personId, y))
  }

  /** `GetAllAvailability`: no parameters; the principal's id. */
  function GetAllAvailabilityHandler(principal: PersonDetails): Result<ApplicationCall, RaisedException>
  {
    Success(GetAvailabilityForAPerson(principal.personId))
  }

  /** `CreateAvailability`: from date first, then to date; the two dates are never compared. */
  function CreateAvailabilityHandler(principal: PersonDetails, fromDate: JString, toDate: JString): (r: Result<ApplicationCall, RaisedException>)
    ensures r.Success? <==> ParseSqlDate(fromDate).Some? && ParseSqlDate(toDate).Some?
    ensures r.Success? ==> r.value == CreateAvailability(principal.personId, ParseSqlDate(fromDate).value, ParseSqlDate(toDate).value)
    ensures ParseSqlDate(fromDate).None? ==> r == Failure(InvalidParameter(NotADateCause(fromDate)))
    ensures ParseSqlDate(fromDate).Some? && ParseSqlDate(toDate).None? ==> r == Failure(InvalidParameter(NotADateCause(toDate)))
  {
    match ParseDate(fromDate)
    case Failure(e) => Failure(e)
    case Success(from) =>
      match ParseDate(toDate)
      case Failure(e) => Failure(e)
      case Success(to) => Success(CreateAvailability(principal.personId, from, to))
  }

  /** `SubmitApplication`: the body's two id lists go to the service unchanged. */
  function SubmitApplicationHandler(principal: PersonDetails, body: SubmissionBody): (r: Result<ApplicationCall, RaisedException>)
    ensures r.Success? && r.value.SubmitApplication?
    ensures r.value.availabilityIds == body.availabilityIds && r.value.competenceProfileIds == body.competenceProfileIds
    ensures r.value.personId == principal.personId
  {
    Success(SubmitApplication(principal.personId, body.availabilityIds, body.competenceProfileIds))
  }

  /** Every handler's request parameters. */
  datatype Request =
    | GetProfiles
    | CreateProfile(competenceId: JString, yearsOfExperience: JString)
    | GetAvailability
    | CreatePeriod(fromDate: JString, toDate: JString)
    | Submit(body: SubmissionBody)

  function Handle(principal: PersonDetails, req: Request, parseDouble: string -> Option<real>): (r: Result<ApplicationCall, RaisedException>)
    ensures r.Success? ==> r.value.personId == principal.personId
  {
    match req
    case GetProfiles => GetCompetenceProfilesHandler(principal)
    case CreateProfile(c, y) => CreateCompetenceProfileHandler(principal, c, y, parseDouble)
    case GetAvailability => GetAllAvailabilityHandler(principal)
    case CreatePeriod(f, t) => CreateAvailabilityHandler(principal, f, t)
    case Submit(b) => SubmitApplicationHandler(principal, b)
  }

  /**
   * The person id comes from the principal and from nowhere else: two
   * principals sending the same request get the same outcome, except that
   * each call carries its own principal's id.
   */
  lemma PersonIdOnlyFromPrincipal(p1: PersonDetails, p2: PersonDetails, req: Request, parseDouble: string -> Option<real>)
    ensures Handle(p1, req, parseDouble).Success? <==> Handle(p2, req, parseDouble).Success?
    ensures Handle(p1, req, parseDouble).Success? ==>
      Handle(p1, req, parseDouble).value.(personId := p2.personId) == Handle(p2, req, parseDouble).value
    ensures Handle(p1, req, parseDouble).Failure? ==> Handle(p1, req, parseDouble).error == Handle(p2, req, parseDouble).error
  {
  }

  /** An unparsable competence id is reported whatever the years are, with the raw id in the message. */
  lemma CompetenceIdCheckedFirst(principal: PersonDetails, competenceId: string, years: JString, parseDouble: string -> Option<real>)
    requires ParseInt(Some(competenceId)).None?
    ensures CreateCompetenceProfileHandler(principal, Some(competenceId), years, parseDouble)
            == Failure(InvalidParameter("Provided value (" + competenceId + ") could not be parsed as a valid integer"))
  {
  }

  /** A missing years value reaches the generic "Unknown cause" message. */
  lemma NullYearsUnknownCause(principal: PersonDetails, competenceId: int, parseDouble: string -> Option<real>)
    requires InInt(competenceId)
    ensures CreateCompetenceProfileHandler(principal, Some(IntToString(competenceId)), None, parseDouble)
            == Failure(InvalidParameter(UnknownYearsCause))
  {
    ParseIntRoundTrip(competenceId);
  }

  /**
   * Two well-formed dates reach the service as (from, to), in that order,
   * even when the period ends before it starts.
   */
  lemma DatesPassedUncompared(principal: PersonDetails, from: SqlDate, to: SqlDate)
    requires from.year <= 9999 && 1 <= from.month <= 12 && 1 <= from.day <= 31
    requires to.year <= 9999 && 1 <= to.month <= 12 && 1 <= to.day <= 31
    ensures CreateAvailabilityHandler(principal, Some(FormatSqlDate(from)), Some(FormatSqlDate(to)))
            == Success(CreateAvailability(principal.personId, from, to))
  {
    SqlDateRoundTrip(from);
    SqlDateRoundTrip(to);
  }

  /** A bad from date is reported whatever the to date is. */
  lemma FromDateCheckedFirst(principal: PersonDetails, fromDate: JString, toDate: JString)
    requires ParseSqlDate(fromDate).None?
    ensures CreateAvailabilityHandler(principal, fromDate, toDate) == Failure(InvalidParameter(NotADateCause(fromDate)))
  {
  }
}
