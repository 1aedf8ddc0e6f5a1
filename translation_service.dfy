/**
 * `TranslationService`: competences and their translations, looked up in
 * repositories whose queries are given as values (the repositories'
 * generated queries are not part of this model).
 */
module TranslationService {
  import opened Wrappers
  import opened Domain
  import opened RestExceptions

  /** A repository query's outcome: a row, `null`, or an exception. */
  datatype Lookup<+T> = Found(value: T) | Null | Threw

  datatype Repositories = Repositories(
    /** `competenceRepository.findAll()`, in the repository's order. */
    competences: seq<Competence>,
    /** `languageRepository.findByName(name)`. */
    findLanguageByName: string -> Lookup<Language>,
    /** `competenceTranslationRepository.findByLanguage_id(id)`. */
    findTranslationsByLanguageId: Option<int> -> Lookup<seq<CompetenceTranslation>>)

  /** `GetCompetences`: every stored competence, as the repository lists them. */
  function GetCompetences(repos: Repositories): (r: seq<Competence>)
    ensures r == repos.competences
  {
    repos.competences
  }

  /** `competenceRepository.findById(id)`: the first stored competence with that id. */
  function FindById(competences: seq<Competence>, id: int): (r: Option<Competence>)
    ensures r.Some? <==> exists i :: 0 <= i < |competences| && competences[i].competenceId == Some(id)
    ensures r.Some? ==> r.value in competences && r.value.competenceId == Some(id)
  {
    if competences == [] then None
    else if competences[0].competenceId == Some(id) then Some(competences[0])
    else
      var rest := FindById(competences[1..], id);
      assert forall i :: 1 <= i < |competences| ==> competences[i] == competences[1..][i - 1];
      rest
  }

  /** `GetSpecificCompetence`: the stored competence with that id, or `SpecificCompetenceNotFound(id)`. */
  function GetSpecificCompetence(repos: Repositories, id: int): (r: Result<Competence, RaisedException>)
    ensures r.Success? <==> exists i :: 0 <= i < |repos.competences| && repos.competences[i].competenceId == Some(id)
    ensures r.Success? ==> r.value in repos.competences && r.value.competenceId == Some(id)
    ensures r.Failure? ==> r.error == SpecificCompetenceNotFound(id)
  {
    match FindById(repos.competences, id)
    case Some(c) => Success(c)
    case None => Failure(SpecificCompetenceNotFound(id))
  }

  /**
   * `GetCompetenceTranslation`: the language first, then its translations.
   * A language that is missing or whose lookup throws is
   * `LanguageNotFound`; a translation list that is null, empty or whose
   * lookup throws is `TranslationsNotFound`.
   */
  function GetCompetenceTranslation(repos: Repositories, languageName: string): (r: Result<seq<CompetenceTranslation>, RaisedException>)
    ensures !repos.findLanguageByName(languageName).Found? ==> r == Failure(LanguageNotFound(languageName))
    ensures r.Success? <==>
      && repos.findLanguageByName(languageName).Found?
      && var ts := repos.findTranslationsByLanguageId(repos.findLanguageByName(languageName).value.languageId);
         ts.Found? && |ts.value| > 0
    ensures r.Success? ==> |r.value| > 0
    ensures r.Success? ==>
      Found(r.value) == repos.findTranslationsByLanguageId(repos.findLanguageByName(languageName).value.languageId)
    ensures r.Failure? ==> r.error == LanguageNotFound(languageName) || r.error == TranslationsNotFound(languageName)
  {
    match repos.findLanguageByName(languageName)
    case Null => Failure(LanguageNotFound(languageName))
    case Threw => Failure(LanguageNotFound(languageName))
    case Found(language) =>
      match repos.findTranslationsByLanguageId(language.languageId)
      case Found(ts) => if |ts| == 0 then Failure(TranslationsNotFound(languageName)) else Success(ts)
      case _ => Failure(TranslationsNotFound(languageName))
  }

  /** An unknown language never yields `TranslationsNotFound`: the language check comes first. */
  lemma UnknownLanguageNeverTranslationsNotFound(repos: Repositories, languageName: string)
    requires !repos.findLanguageByName(languageName).Found?
    ensures GetCompetenceTranslation(repos, languageName) != Failure(TranslationsNotFound(languageName))
  {
  }

  /** A competence stored under an id is found by that id, and a found one is stored. */
  lemma {:induction false} StoredCompetenceFound(repos: Repositories, i: nat)
    requires i < |repos.competences| && repos.competences[i].competenceId.Some?
    ensures GetSpecificCompetence(repos, repos.competences[i].competenceId.value).Success?
  {
    assert repos.competences[i].competenceId == Some(repos.competences[i].competenceId.value);
  }
}
