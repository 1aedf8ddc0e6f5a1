/**
 * The value entities the core passes around: the application status enum and
 * the field holders `Person`, `Competence`, `Language`, `Availability` and
 * `CompetenceTranslation`, reduced to the fields the core reads.
 */
module Domain {
  import opened Wrappers
  import opened JavaText

  /** `ApplicationStatus`, whose constants are named in lower case. */
  datatype ApplicationStatus = Unchecked | Accepted | Denied

  /**
   * The name of each enum constant, as `name()` and `valueOf` use it: one of
   * the three names, with no upper-case letter, so lower-casing keeps it.
   */
  function StatusName(s: ApplicationStatus): (name: string)
    ensures name in {"unchecked", "accepted", "denied"}
    ensures NoUpper(name)
  {
    match s
    case Unchecked => "unchecked"
    case Accepted => "accepted"
    case Denied => "denied"
  }

  /** `ApplicationStatus.valueOf(name)`: exact, case-sensitive match; `None` is `IllegalArgumentException`. */
  function StatusValueOf(name: string): (r: Option<ApplicationStatus>)
    ensures r.Some? <==> name in {"unchecked", "accepted", "denied"}
    ensures r.Some? ==> StatusName(r.value) == name
  {
    if name == "unchecked" then Some(Unchecked)
    else if name == "accepted" then Some(Accepted)
    else if name == "denied" then Some(Denied)
    else None
  }

  /** Every constant is found again by its own name. */
  lemma StatusNameRoundTrip(s: ApplicationStatus)
    ensures StatusValueOf(StatusName(s)) == Some(s)
  {
  }

  datatype Person = Person(id: Option<int>, name: JString, surname: JString, pnr: JString, email: JString)

  datatype Competence = Competence(competenceId: Option<int>, name: JString)

  datatype Language = Language(languageId: Option<int>, name: JString)

  /** An availability period; its class is not part of this model beyond its id. */
  datatype Availability = Availability(availabilityId: Option<int>)

  /** A competence name in one language; its class is not part of this model beyond these fields. */
  datatype CompetenceTranslation = CompetenceTranslation(competenceId: int, languageId: int, name: string)
}
