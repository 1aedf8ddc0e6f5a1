/**
 * The integer-parameter step the controllers share: `Integer.parseInt` on
 * the raw request text, and on failure an `InvalidParameterException` whose
 * cause embeds the raw value.
 */
module ParameterParsing {
  import opened Wrappers
  import opened JavaText
  import opened RestExceptions

  /** The cause given when `raw` is not a Java `int`; a null value is written `null`. */
  function NotAnIntegerCause(raw: JString): string
  {
    "Provided value (" + Show(raw) + ") could not be parsed as a valid integer"
  }

  /**
   * The parse-or-fail block. `parseInt(null)` also throws
   * `NumberFormatException`, so the generic "Unknown cause" branch after it
   * is never taken.
   */
  function ParseInteger(raw: JString): (r: Result<int, RaisedException>)
    ensures r.Success? <==> ParseInt(raw).Some?
    ensures r.Success? ==> r.value == ParseInt(raw).value && InInt(r.value)
    ensures r.Failure? ==> r.error == InvalidParameter(NotAnIntegerCause(raw))
  {
    match ParseInt(raw)
    case Some(n) => Success(n)
    case None => Failure(InvalidParameter(NotAnIntegerCause(raw)))
  }

  /** The printed form of every Java `int` is accepted and gives that value back; nothing outside the range is. */
  lemma ParseIntegerPrinted(n: int)
    ensures ParseInteger(Some(IntToString(n))) ==
            if InInt(n) then Success(n) else Failure(InvalidParameter(NotAnIntegerCause(Some(IntToString(n)))))
  {
    ParseIntRoundTrip(n);
  }

  /** The failure message of a non-null raw value contains that value, verbatim, after `Provided value (`. */
  lemma NotAnIntegerEmbedsRaw(raw: string)
    ensures NotAnIntegerCause(Some(raw))[16..16 + |raw|] == raw
  {
  }
}
