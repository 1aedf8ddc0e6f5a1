/**
 * `CompetenceProfile`: one person's years of experience in one competence.
 * The constructor stores its arguments as given; the id stays null until the
 * persistence layer, or a test through `setCompetenceProfileId`, assigns it.
 */
module CompetenceProfileEntity {
  import opened Wrappers
  import opened Domain

  class CompetenceProfile {
    var competenceProfileId: Option<int>
    var person: Option<Person>
    var competence: Option<Competence>
    /** A boxed `Double`; `None` is null. Doubles are modelled as reals. */
    var yearsOfExperience: Option<real>

    /** The bean-validation constraints: person and competence set, years set and not negative. */
    predicate Valid()
      reads this
    {
      person.Some? && competence.Some? && yearsOfExperience.Some? && yearsOfExperience.value >= 0.0
    }

    function GetCompetenceProfileId(): Option<int>
      reads this
    {
      competenceProfileId
    }

    function GetPerson(): (p: Option<Person>)
      reads this
      ensures Valid() ==> p.Some?
    {
      person
    }

    function GetCompetenceDTO(): (c: Option<Competence>)
      reads this
      ensures Valid() ==> c.Some?
    {
      competence
    }

    /** `getYearsOfExperience` unboxes to `double`: `None` is the `NullPointerException` of a null field. */
    function GetYearsOfExperience(): (y: Option<real>)
      reads this
      ensures Valid() ==> y.Some? && y.value >= 0.0
    {
      yearsOfExperience
    }

    /** The no-argument constructor JPA uses: every field null. */
    constructor Empty()
      ensures GetCompetenceProfileId() == None && GetPerson() == None && GetCompetenceDTO() == None
      ensures GetYearsOfExperience() == None
      ensures !Valid()
    {
      competenceProfileId, person, competence, yearsOfExperience := None, None, None, None;
    }

    /** Stores the three arguments unchanged; the id stays unset. */
    constructor (person: Option<Person>, competence: Option<Competence>, yearsOfExperience: real)
      ensures GetPerson() == person && GetCompetenceDTO() == competence
      ensures GetYearsOfExperience() == Some(yearsOfExperience)
      ensures GetCompetenceProfileId() == None
      ensures Valid() <==> person.Some? && competence.Some? && yearsOfExperience >= 0.0
    {
      this.person := person;
      this.competence := competence;
      this.yearsOfExperience := Some(yearsOfExperience);
      competenceProfileId := None;
    }

    /** Changes the id and nothing else. */
    method SetCompetenceProfileId(newCompetenceProfileId: Option<int>)
      modifies this
      ensures GetCompetenceProfileId() == newCompetenceProfileId
      ensures GetPerson() == old(GetPerson()) && GetCompetenceDTO() == old(GetCompetenceDTO())
      ensures GetYearsOfExperience() == old(GetYearsOfExperience())
      ensures Valid() == old(Valid())
    {
      competenceProfileId := newCompetenceProfileId;
    }
  }
}
