/**
 * The exceptions the modelled controllers and services raise, and the
 * message of `InvalidParameterException`, the one exception class whose
 * message construction is part of this model.
 */
module RestExceptions {
  import opened Wrappers
  import opened JavaText

  const InvalidParameterPrefix: string := "Invalid parameter : "

  /** The message of `new InvalidParameterException(cause)`; a null cause is written `null`. */
  function InvalidParameterMessage(cause: JString): (m: string)
    ensures |m| == |InvalidParameterPrefix| + |Show(cause)|
    ensures m[..|InvalidParameterPrefix|] == InvalidParameterPrefix
    ensures m[|InvalidParameterPrefix|..] == Show(cause)
  {
    InvalidParameterPrefix + Show(cause)
  }

  /** Recovers the cause from a message: the text after the 20-character prefix. */
  function CauseOf(message: string): (cause: Option<string>)
    ensures cause.Some? <==> |message| >= |InvalidParameterPrefix| && message[..|InvalidParameterPrefix|] == InvalidParameterPrefix
  {
    if |message| >= |InvalidParameterPrefix| && message[..|InvalidParameterPrefix|] == InvalidParameterPrefix
    then Some(message[|InvalidParameterPrefix|..])
    else None
  }

  /** Stripping the prefix from a message gives back the cause, the empty cause included. */
  lemma InvalidParameterRoundTrip(cause: string)
    ensures CauseOf(InvalidParameterMessage(Some(cause))) == Some(cause)
  {
  }

  /** Distinct non-null causes give distinct messages. */
  lemma {:induction false} InvalidParameterInjective(c1: string, c2: string)
    requires InvalidParameterMessage(Some(c1)) == InvalidParameterMessage(Some(c2))
    ensures c1 == c2
  {
    InvalidParameterRoundTrip(c1);
    InvalidParameterRoundTrip(c2);
  }

  /** A null cause cannot be told apart from the four-letter cause `null`. */
  lemma NullCauseIndistinguishable()
    ensures InvalidParameterMessage(None) == InvalidParameterMessage(Some("null"))
  {
  }

  /**
   * An exception escaping a handler, with the argument its constructor was
   * given. Apart from `InvalidParameter`, the classes' message construction
   * is not part of this model.
   */
  datatype RaisedException =
    | InvalidParameter(cause: string)
    | SpecificCompetenceNotFound(competenceId: int)
    | LanguageNotFound(languageName: string)
    | TranslationsNotFound(languageName: string)
    | PersonNotFound(detail: string)
    | UsernameNotFound(detail: string)
    | AlreadyExists(detail: string)
    | InvalidPerson(detail: string)
    | CustomDatabase(detail: string)
    | InvalidJwt(detail: string)
    | ConstraintViolation(violations: seq<string>)
    | NullPointer
}
