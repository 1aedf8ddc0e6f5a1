/**
 * `TranslationEndpointController`: parses the competence id before asking
 * the service, and lower-cases the language name before the lookup.
 */
module TranslationEndpoint {
  import opened Wrappers
  import opened JavaText
  import opened Domain
  import opened RestExceptions
  import opened ParameterParsing
  import opened TranslationService

  /** `GetStandardCompetences`: the service's list, unchanged. */
  function GetStandardCompetences(repos: Repositories): (r: seq<Competence>)
    ensures r == repos.competences
  {
    GetCompetences(repos)
  }

  /** `GetSpecificCompetence`: the service is asked only when the id is a Java `int`. */
  function GetSpecificCompetenceHandler(repos: Repositories, id: JString): (r: Result<Competence, RaisedException>)
    ensures ParseInt(id).None? ==> r == Failure(InvalidParameter(NotAnIntegerCause(id)))
    ensures ParseInt(id).Some? ==> r == GetSpecificCompetence(repos, ParseInt(id).value)
  {
    match ParseInteger(id)
    case Failure(e) => Failure(e)
    case Success(n) => GetSpecificCompetence(repos, n)
  }

  /** `GetCompetenceTranslation`: the lookup sees the language in lower case. */
  function GetCompetenceTranslationHandler(repos: Repositories, language: string): (r: Result<seq<CompetenceTranslation>, RaisedException>)
    ensures !repos.findLanguageByName(ToLower(language)).Found? ==> r == Failure(LanguageNotFound(ToLower(language)))
    ensures r.Failure? ==> r.error == LanguageNotFound(ToLower(language)) || r.error == TranslationsNotFound(ToLower(language))
    ensures r.Success? ==>
      |r.value| > 0
      && Found(r.value) == repos.findTranslationsByLanguageId(repos.findLanguageByName(ToLower(language)).value.languageId)
  {
    GetCompetenceTranslation(repos, ToLower(language))
  }

  /** Language names that differ only in the case of ASCII letters give the same answer. */
  lemma TranslationCaseInsensitive(repos: Repositories, l1: string, l2: string)
    requires ToLower(l1) == ToLower(l2)
    ensures GetCompetenceTranslationHandler(repos, l1) == GetCompetenceTranslationHandler(repos, l2)
  {
  }

  /** Asking again with the already lower-cased name changes nothing. */
  lemma {:induction false} TranslationLowerCasedAgain(repos: Repositories, language: string)
    ensures GetCompetenceTranslationHandler(repos, ToLower(language)) == GetCompetenceTranslationHandler(repos, language)
  {
    ToLowerIdempotent(language);
  }

  /** A printed `int` id reaches the service, which finds a stored competence by it. */
  lemma {:induction false} PrintedIdFindsStored(repos: Repositories, i: nat)
    requires i < |repos.competences| && repos.competences[i].competenceId.Some?
    requires InInt(repos.competences[i].competenceId.value)
    ensures GetSpecificCompetenceHandler(repos, Some(IntToString(repos.competences[i].competenceId.value))).Success?
  {
    ParseIntRoundTrip(repos.competences[i].competenceId.value);
    StoredCompetenceFound(repos, i);
  }
}
