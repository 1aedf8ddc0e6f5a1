/**
 * `Application`: one applicant's application, with the availability periods
 * and competence profiles it lists, its review status, the date it was made
 * and the optimistic-lock version. The class's own code never writes the
 * version: the constructor leaves it at the `long` default 0 and no setter
 * touches it; only the persistence layer changes it (see `VersionedStore`).
 */
module ApplicationEntity {
  import opened Wrappers
  import opened Domain
  import opened CompetenceProfileEntity

  /** Every field of an application at one moment. Dates are milliseconds since the epoch. */
  datatype ApplicationRecord = ApplicationRecord(
    applicationId: Option<int>,
    applicant: Option<Person>,
    availabilityPeriodsForApplication: Option<seq<Availability>>,
    competenceProfilesForApplication: Option<seq<CompetenceProfile>>,
    versionNumber: int,
    applicationStatus: Option<ApplicationStatus>,
    applicationDate: Option<int>)

  predicate NoDuplicates<T(==)>(s: seq<T>)
  {
    forall i, j :: 0 <= i < j < |s| ==> s[i] != s[j]
  }

  /** A list constraint `@NotNull @NotEmpty @UniqueElements`. */
  predicate PresentNonEmptyUnique<T(==)>(list: Option<seq<T>>)
  {
    list.Some? && |list.value| > 0 && NoDuplicates(list.value)
  }

  /** The bean-validation constraints of an application, checked at time `now`. */
  predicate ValidAt(r: ApplicationRecord, now: int)
  {
    && r.applicant.Some?
    && PresentNonEmptyUnique(r.availabilityPeriodsForApplication)
    && PresentNonEmptyUnique(r.competenceProfilesForApplication)
    && r.applicationStatus.Some?
    && (r.applicationDate.Some? ==> r.applicationDate.value <= now)   // @PastOrPresent; null passes
  }

  /** What the three-argument constructor builds at time `now`. */
  function Submitted(applicant: Option<Person>, periods: Option<seq<Availability>>,
                     profiles: Option<seq<CompetenceProfile>>, now: int): ApplicationRecord
  {
    ApplicationRecord(None, applicant, periods, profiles, 0, Some(Unchecked), Some(now))
  }

  /**
   * A freshly built application is valid, at its creation time and later,
   * exactly when the applicant is present and both lists are present,
   * non-empty and free of duplicates; the constructor checks none of this.
   */
  lemma SubmittedValidity(applicant: Option<Person>, periods: Option<seq<Availability>>,
                          profiles: Option<seq<CompetenceProfile>>, now: int, later: int)
    requires now <= later
    ensures ValidAt(Submitted(applicant, periods, profiles, now), later)
            <==> applicant.Some? && PresentNonEmptyUnique(periods) && PresentNonEmptyUnique(profiles)
  {
  }

  /** A valid application stays valid as time passes: its date cannot move into the future. */
  lemma ValidStaysValid(r: ApplicationRecord, now: int, later: int)
    requires ValidAt(r, now) && now <= later
    ensures ValidAt(r, later)
  {
  }

  /** Setting a non-null status keeps a valid application valid; a null status makes it invalid. */
  lemma StatusChangeValidity(r: ApplicationRecord, now: int, s: Option<ApplicationStatus>)
    requires ValidAt(r, now)
    ensures ValidAt(r.(applicationStatus := s), now) <==> s.Some?
  {
  }

  class Application {
    var applicationId: Option<int>
    var applicant: Option<Person>
    var availabilityPeriodsForApplication: Option<seq<Availability>>
    var competenceProfilesForApplication: Option<seq<CompetenceProfile>>
    /** The `@Version` column; a Java `long`. */
    var versionNumber: int
    var applicationStatus: Option<ApplicationStatus>
    var applicationDate: Option<int>

    function Record(): ApplicationRecord
      reads this
    {
      ApplicationRecord(applicationId, applicant, availabilityPeriodsForApplication,
                        competenceProfilesForApplication, versionNumber, applicationStatus, applicationDate)
    }

    /** The no-argument constructor JPA uses: references null, version 0. */
    constructor Empty()
      ensures Record() == ApplicationRecord(None, None, None, None, 0, None, None)
    {
      applicationId, applicant := None, None;
      availabilityPeriodsForApplication, competenceProfilesForApplication := None, None;
      versionNumber, applicationStatus, applicationDate := 0, None, None;
    }

    /**
     * Stores the applicant and both lists as given, sets the status to
     * `unchecked` and the date to the current time `now`.
     */
    constructor (applicant: Option<Person>, availabilityPeriodsForApplication: Option<seq<Availability>>,
                 competenceProfilesForApplication: Option<seq<CompetenceProfile>>, now: int)
      ensures Record() == Submitted(applicant, availabilityPeriodsForApplication, competenceProfilesForApplication, now)
      ensures applicationStatus == Some(Unchecked) && versionNumber == 0 && applicationId == None
    {
      this.applicant := applicant;
      this.availabilityPeriodsForApplication := availabilityPeriodsForApplication;
      this.competenceProfilesForApplication := competenceProfilesForApplication;
      applicationStatus := Some(Unchecked);
      applicationDate := Some(now);
      applicationId := None;
      versionNumber := 0;
    }

    /** Changes the status and nothing else; the version in particular is kept. */
    method SetApplicationStatus(newStatus: Option<ApplicationStatus>)
      modifies this
      ensures Record() == old(Record()).(applicationStatus := newStatus)
    {
      applicationStatus := newStatus;
    }

    method SetApplicant(newApplicant: Option<Person>)
      modifies this
      ensures Record() == old(Record()).(applicant := newApplicant)
    {
      applicant := newApplicant;
    }

    method SetApplicationDate(applicationDate: Option<int>)
      modifies this
      ensures Record() == old(Record()).(applicationDate := applicationDate)
    {
      this.applicationDate := applicationDate;
    }

    method SetApplicationId(newId: Option<int>)
      modifies this
      ensures Record() == old(Record()).(applicationId := newId)
    {
      applicationId := newId;
    }
  }
}
