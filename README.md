# Job-application portal: security gate, request validation and review logic in Dafny

This project models the decision logic of a job-application portal: a Spring
Boot back end where applicants submit competence profiles, availability
periods and applications, and recruiters review them, and a React front end.
The model covers:

- the ordered authorization rule table of the security configuration, with
  Spring's path patterns reduced to exact match, `p/**` and `p**`;
- the per-request JWT gate, as a class holding the request's security
  context, specified by a pure step function;
- the `Application` and `CompetenceProfile` entities, as classes with
  their setters and bean-validation constraints, plus an explicitly ASSUMED
  contract for the `@Version` optimistic lock (module `VersionedStore`);
- the parse-or-fail pipelines of the reviewer, application and translation
  controllers, and the translation lookups;
- the exception-to-status table and the message builders;
- three front-end fragments: search-text classification, the select and
  deselect toggles with the submit guard, and the accept/decline buttons.

The library behaviour the code relies on is in `JavaText`: ASCII
lower-casing, `Integer.parseInt`, decimal printing and the
`yyyy-(m)m-(d)d` format of `java.sql.Date.valueOf`. A Java `null` is
`None` of an `Option`. A controller's result is the service call it makes,
with its arguments, or the exception it raises. Collaborators whose code is
not part of this model (the JWT service, the user lookup, the repositories,
`Double.parseDouble`) are passed in as functions.

## Model

| member | source | states |
|---|---|---|
| `Authorization.FirstMatch` | SpringProgram/demo/src/main/java/com/example/demo/config/SecurityConfig.java:81-86 | The rule found is the first one in the list with a matching pattern. No earlier rule matches. `None` means no rule matches. |
| `Authorization.Enforce` | SpringProgram/demo/src/main/java/com/example/demo/config/SecurityConfig.java:83-86 | `permitAll` always passes. A protected rule refuses an anonymous request as unauthenticated. `hasAuthority(a)` passes a principal iff it holds `a`, and otherwise denies access. `authenticated` passes any principal. |
| `Authorization.Decide` | SpringProgram/demo/src/main/java/com/example/demo/config/SecurityConfig.java:81-86 | The first rule list that matches decides. Any public pattern permits. Otherwise an applicant pattern demands `applicant`, otherwise a recruiter pattern demands `recruiter`, and otherwise any authenticated principal passes. |
| `Authorization.SpelledAsConfigured` | SpringProgram/demo/src/main/java/com/example/demo/config/SecurityConfig.java:83-85 | The modelled patterns spell exactly the configured strings, including `/auth/generateToken**` and `/person/updateReviwer`. |
| `Authorization.PublicPatternsPermitted` | SpringProgram/demo/src/main/java/com/example/demo/config/SecurityConfig.java:83 | A path that matches any line-83 pattern is permitted, even with no principal. |
| `Authorization.PublicRoutes` | SpringProgram/demo/src/main/java/com/example/demo/config/SecurityConfig.java:83 | `/translation` and everything under it, plus `/person/register`, `/person/updateApplicant` and `/person/requestApplicantReset`, are permitted for everyone. |
| `Authorization.NotPublicBySecondChars` | SpringProgram/demo/src/main/java/com/example/demo/config/SecurityConfig.java:83 | A path of at least three characters whose second character is neither `p` nor `t`, and is not `a` followed by `u`, matches no public pattern. |
| `Authorization.PersonPathNotPublic` | SpringProgram/demo/src/main/java/com/example/demo/config/SecurityConfig.java:83 | A `/person/...` path other than the three public ones is not public. |
| `Authorization.ApplicantNamespace` | SpringProgram/demo/src/main/java/com/example/demo/config/SecurityConfig.java:84 | A path under `/application` is refused as unauthenticated for an anonymous request. For a principal it is permitted iff the principal holds `applicant`, and otherwise access is denied. |
| `Authorization.RecruiterRoutes` | SpringProgram/demo/src/main/java/com/example/demo/config/SecurityConfig.java:85 | `/review/**`, `/person/updateReviwer`, `/person/find` and `/person/findPerson` are permitted iff the principal holds `recruiter`. An anonymous request is refused as unauthenticated; any other principal is denied access. |
| `Authorization.UnmatchedNeedsAuthentication` | SpringProgram/demo/src/main/java/com/example/demo/config/SecurityConfig.java:86 | A path that no explicit pattern matches is permitted iff some principal is authenticated. |
| `Authorization.UpdateRecruiterOnlyAuthenticated` | SpringProgram/demo/src/main/java/com/example/demo/config/SecurityConfig.java:85-86 | `/person/updateRecruiter` falls to the default rule because line 85 spells `updateReviwer`. Any principal passes; an anonymous request is refused as unauthenticated. |
| `Authorization.ApplicantAndRecruiterDisjoint` | SpringProgram/demo/src/main/java/com/example/demo/config/SecurityConfig.java:84-85 | No path matches both the applicant rule and the recruiter rule. |
| `JwtGate.BearerToken` | SpringProgram/demo/src/main/java/com/example/demo/filter/JwtAuthFilter.java:75-77 | A token exists iff the header is non-null and starts with `Bearer `. The header is then exactly the prefix followed by the token. |
| `JwtGate.GateStep` | SpringProgram/demo/src/main/java/com/example/demo/filter/JwtAuthFilter.java:68-115 | Without a bearer token nothing changes and the chain continues. The only response written is 401 with the expired-token body. A response or exception leaves the context unchanged. When the context changes, it was empty or anonymous and now holds a user token whose authorities are the user's own. |
| `JwtGate.JwtAuthFilter.constructor` | SpringProgram/demo/src/main/java/com/example/demo/config/SecurityConfig.java:88 | Sessions are stateless: each request starts with an empty security context. |
| `JwtGate.JwtAuthFilter.DoFilterInternal` | SpringProgram/demo/src/main/java/com/example/demo/filter/JwtAuthFilter.java:68-115 | The new context and the outcome (continue, 401 response, or escaping exception) are exactly `GateStep` of the old context, the header and the collaborators. |
| `JwtGate.JwtAuthFilter.DoFilter` | SpringProgram/demo/src/main/java/com/example/demo/filter/JwtAuthFilter.java:50-54 | On the token endpoint the context is unchanged and the chain continues. On every other path the gate step runs. |
| `JwtGate.OnlyTokenEndpointBypasses` | SpringProgram/demo/src/main/java/com/example/demo/filter/JwtAuthFilter.java:52-53 | Only the exact path `/auth/generateToken` skips the gate. Any longer path is filtered. |
| `JwtGate.BearerTokenExact` | SpringProgram/demo/src/main/java/com/example/demo/filter/JwtAuthFilter.java:75-77 | A token is extracted iff the header is non-null and starts with `Bearer `. The token is exactly the rest of the header. |
| `JwtGate.NoBearerNoChange` | SpringProgram/demo/src/main/java/com/example/demo/filter/JwtAuthFilter.java:75-96 | With no header, or a header without the prefix, the context is unchanged and the chain continues. |
| `JwtGate.ExpiredTokenRejected` | SpringProgram/demo/src/main/java/com/example/demo/filter/JwtAuthFilter.java:101-105 | An expired token gives status 401 and the exact body `{"error":"JWT token expired, please refresh it"}`. The chain is not invoked and the context is unchanged. |
| `JwtGate.OtherTokenErrorsPropagate` | SpringProgram/demo/src/main/java/com/example/demo/filter/JwtAuthFilter.java:107-114 | Any other token error leaves the gate as an exception, because the generic handler is commented out. |
| `JwtGate.InstallOnlyWhenValidated` | SpringProgram/demo/src/main/java/com/example/demo/filter/JwtAuthFilter.java:80-85 | The context changes only when the subject is non-null, the context is empty or anonymous, the user is found and `validateToken` holds. The installed authorities are exactly the user's. |
| `JwtGate.ExistingAuthenticationKept` | SpringProgram/demo/src/main/java/com/example/demo/filter/JwtAuthFilter.java:80 | A non-anonymous authentication is never replaced, and no user lookup happens. |
| `JwtGate.InvalidTokenContinues` | SpringProgram/demo/src/main/java/com/example/demo/filter/JwtAuthFilter.java:82-96 | If `validateToken` is false, the context is unchanged and the chain continues. |
| `RequestPipeline.Dispatch` | SpringProgram/demo/src/main/java/com/example/demo/config/SecurityConfig.java:89 | On the token endpoint, or without a bearer token, authorization decides on the incoming context. A gate response is always 401 with the expired-token body. An exception can leave the gate only on a gated path with a bearer token. |
| `RequestPipeline.ExpiredTokenNeverReachesHandler` | SpringProgram/demo/src/main/java/com/example/demo/filter/JwtAuthFilter.java:101-105 | With the gate registered before authorization, an expired token ends with 401 on every gated path and reaches no handler. |
| `RequestPipeline.ApplicantTokenOnRecruiterRoute` | SpringProgram/demo/src/main/java/com/example/demo/config/SecurityConfig.java:85 | A valid token of a user without `recruiter`, on `/review/...`, gets the gate's principal and is then denied access. |
| `RequestPipeline.AnonymousOnRecruiterRoute` | SpringProgram/demo/src/main/java/com/example/demo/config/SecurityConfig.java:85 | A request with no usable token stays anonymous and is refused as unauthenticated on `/review/...`. |
| `RequestPipeline.RecruiterTokenOnRecruiterRoute` | SpringProgram/demo/src/main/java/com/example/demo/config/SecurityConfig.java:85 | A valid token of a user holding `recruiter`, on `/review/...`, installs that user and the request reaches the handler. |
| `RequestPipeline.TokenEndpointOpen` | SpringProgram/demo/src/main/java/com/example/demo/config/SecurityConfig.java:83 | A request to `/auth/generateToken` is neither gated nor refused. |
| `Domain.StatusName` | SpringProgram/demo/src/main/java/com/example/demo/presentation/restControllers/ReviewerEndpointController.java:141 | Each constant's name is one of `unchecked`, `accepted` and `denied`, with no upper-case letter. |
| `Domain.StatusValueOf` | SpringProgram/demo/src/main/java/com/example/demo/presentation/restControllers/ReviewerEndpointController.java:141 | `valueOf` accepts exactly the three lower-case constant names and returns the constant of that name. |
| `Domain.StatusNameRoundTrip` | SpringProgram/demo/src/main/java/com/example/demo/presentation/restControllers/ReviewerEndpointController.java:141 | Every status constant is found again by its own name. |
| `CompetenceProfileEntity.CompetenceProfile.Empty` | SpringProgram/demo/src/main/java/com/example/demo/domain/entity/CompetenceProfile.java:48-49 | The no-argument constructor leaves every field null, so the profile is not valid. |
| `CompetenceProfileEntity.CompetenceProfile.constructor` | SpringProgram/demo/src/main/java/com/example/demo/domain/entity/CompetenceProfile.java:57-62 | The getters return person, competence and years exactly as given. The id stays unset. The profile is valid iff person and competence are non-null and years is at least 0. |
| `CompetenceProfileEntity.CompetenceProfile.GetPerson` | SpringProgram/demo/src/main/java/com/example/demo/domain/entity/CompetenceProfile.java:87-89 | A valid profile has a person. |
| `CompetenceProfileEntity.CompetenceProfile.GetCompetenceDTO` | SpringProgram/demo/src/main/java/com/example/demo/domain/entity/CompetenceProfile.java:96-98 | A valid profile has a competence. |
| `CompetenceProfileEntity.CompetenceProfile.GetYearsOfExperience` | SpringProgram/demo/src/main/java/com/example/demo/domain/entity/CompetenceProfile.java:105-107 | A valid profile has years of experience, and they are at least 0. On an invalid profile with null years the unboxing fails (`None`). |
| `CompetenceProfileEntity.CompetenceProfile.SetCompetenceProfileId` | SpringProgram/demo/src/main/java/com/example/demo/domain/entity/CompetenceProfile.java:77-80 | Only the id changes. Person, competence, years and validity are kept. |
| `ApplicationEntity.Application.Empty` | SpringProgram/demo/src/main/java/com/example/demo/domain/entity/Application.java:84 | The no-argument constructor leaves every reference null and the version at 0. |
| `ApplicationEntity.Application.constructor` | SpringProgram/demo/src/main/java/com/example/demo/domain/entity/Application.java:93-99 | The applicant and both lists are stored unchanged. The status is `unchecked` and the date is the current time. The id is unset and the version is 0. |
| `ApplicationEntity.Application.SetApplicationStatus` | SpringProgram/demo/src/main/java/com/example/demo/domain/entity/Application.java:169-172 | Only the status changes; the version in particular is kept. |
| `ApplicationEntity.Application.SetApplicant` | SpringProgram/demo/src/main/java/com/example/demo/domain/entity/Application.java:178-181 | Only the applicant changes. |
| `ApplicationEntity.Application.SetApplicationDate` | SpringProgram/demo/src/main/java/com/example/demo/domain/entity/Application.java:187-190 | Only the date changes. |
| `ApplicationEntity.Application.SetApplicationId` | SpringProgram/demo/src/main/java/com/example/demo/domain/entity/Application.java:196-199 | Only the id changes. |
| `ApplicationEntity.SubmittedValidity` | SpringProgram/demo/src/main/java/com/example/demo/domain/entity/Application.java:42-79 | A freshly built application is valid, now and later, iff the applicant is non-null and both lists are non-null, non-empty and free of duplicates. |
| `ApplicationEntity.ValidStaysValid` | SpringProgram/demo/src/main/java/com/example/demo/domain/entity/Application.java:77-79 | The application date of a valid application is not in the future, so validity survives the passing of time. |
| `ApplicationEntity.StatusChangeValidity` | SpringProgram/demo/src/main/java/com/example/demo/domain/entity/Application.java:72-75 | Changing the status keeps a valid application valid iff the new status is non-null. |
| `VersionedStore.Attempt` | SpringProgram/demo/src/main/java/com/example/demo/domain/entity/Application.java:67-70 | ASSUMED: an update succeeds iff the row exists and its stored version equals the version read. Success writes the new status with version + 1. A stale version reports the current row. |
| `VersionedStore.Apply` | SpringProgram/demo/src/main/java/com/example/demo/domain/entity/Application.java:67-70 | ASSUMED: only a successful update writes, and only its own row. |
| `VersionedStore.SecondOfTwoConcurrentUpdatesConflicts` | SpringProgram/demo/src/main/java/com/example/demo/domain/entity/Application.java:67-70 | ASSUMED contract: of two reviewers who read the same version, the first update wins. The second is refused and sees the first one's status. |
| `VersionedStore.VersionIncreases` | SpringProgram/demo/src/main/java/com/example/demo/domain/entity/Application.java:67-70 | ASSUMED contract: a version never decreases, and a successful write raises it by exactly one. |
| `VersionedStore.RetryAfterConflictSucceeds` | SpringProgram/demo/src/main/java/com/example/demo/domain/entity/Application.java:67-70 | ASSUMED contract: after a conflict, an update with the version re-read succeeds. |
| `RestExceptions.InvalidParameterMessage` | SpringProgram/demo/src/main/java/com/example/demo/presentation/restException/InvalidParameterException.java:11-12 | The message is `Invalid parameter : ` followed by the cause, and a null cause is written `null`. Its length is the prefix length plus the cause length. |
| `RestExceptions.CauseOf` | SpringProgram/demo/src/main/java/com/example/demo/presentation/restException/InvalidParameterException.java:12 | The text after the prefix is recovered exactly when the message starts with the prefix. |
| `RestExceptions.InvalidParameterRoundTrip` | SpringProgram/demo/src/main/java/com/example/demo/presentation/restException/InvalidParameterException.java:12 | Stripping the prefix recovers every cause, the empty one included. |
| `RestExceptions.InvalidParameterInjective` | SpringProgram/demo/src/main/java/com/example/demo/presentation/restException/InvalidParameterException.java:12 | Distinct non-null causes give distinct messages. |
| `RestExceptions.NullCauseIndistinguishable` | SpringProgram/demo/src/main/java/com/example/demo/presentation/restException/InvalidParameterException.java:12 | A null cause gives the same message as the cause `null`. |
| `GeneralRestAdvice.Details` | SpringProgram/demo/src/main/java/com/example/demo/presentation/restAdvice/GeneralRestAdvice.java:106-108 | The violation text is as long as the sum of (2 + message length) over the violations. |
| `GeneralRestAdvice.ConstraintReport` | SpringProgram/demo/src/main/java/com/example/demo/presentation/restAdvice/GeneralRestAdvice.java:102-111 | The constraint body starts with the fixed prefix. Its length is the prefix length plus the sum of the segment lengths. |
| `GeneralRestAdvice.DetailsAppend` | SpringProgram/demo/src/main/java/com/example/demo/presentation/restAdvice/GeneralRestAdvice.java:106-108 | The segments of two runs of violations are those of each run in turn. |
| `GeneralRestAdvice.DetailsOfEach` | SpringProgram/demo/src/main/java/com/example/demo/presentation/restAdvice/GeneralRestAdvice.java:106-108 | Each violation contributes exactly a space, a newline and its message, at its place in iteration order. |
| `GeneralRestAdvice.EmptyReport` | SpringProgram/demo/src/main/java/com/example/demo/presentation/restAdvice/GeneralRestAdvice.java:104-110 | With no violations the body is the prefix alone. |
| `GeneralRestAdvice.ConstraintViolationExceptionHandler` | SpringProgram/demo/src/main/java/com/example/demo/presentation/restAdvice/GeneralRestAdvice.java:100-111 | The loop builds exactly `ConstraintReport` of the violations. |
| `GeneralRestAdvice.Handle` | SpringProgram/demo/src/main/java/com/example/demo/presentation/restAdvice/GeneralRestAdvice.java:33-133 | InvalidParameter gives 400 with the exception's message. ConstraintViolation gives 400 with the constraint body. Every other handled class returns its own message unchanged. Language and translation not-found errors and null-pointer exceptions are not handled by this advice. |
| `GeneralRestAdvice.StatusTable` | SpringProgram/demo/src/main/java/com/example/demo/presentation/restAdvice/GeneralRestAdvice.java:33-133 | 400 for InvalidParameter, ConstraintViolation and InvalidJWT. 404 for SpecificCompetenceNotFound, PersonNotFound and UsernameNotFound. 409 for AlreadyExists and InvalidPerson, although a doc comment says 404. 500 for CustomDatabase. |
| `GeneralRestAdvice.InvalidParameterAnswer` | SpringProgram/demo/src/main/java/com/example/demo/presentation/restAdvice/GeneralRestAdvice.java:33-37 | An invalid parameter gets 400, and the cause is recovered from the body. |
| `JavaText.ToLower` | SpringProgram/demo/src/main/java/com/example/demo/presentation/restControllers/ReviewerEndpointController.java:141 | ASCII lower-casing keeps the length and lower-cases each character independently. |
| `JavaText.ToLowerIdempotent` | SpringProgram/demo/src/main/java/com/example/demo/presentation/restControllers/TranslationEndpointController.java:101 | Lower-casing twice is the same as lower-casing once. |
| `JavaText.ToLowerNoUpper` | SpringProgram/demo/src/main/java/com/example/demo/presentation/restControllers/ReviewerEndpointController.java:141 | A string without upper-case letters is left unchanged. |
| `JavaText.ParseInt` | SpringProgram/demo/src/main/java/com/example/demo/presentation/restControllers/ReviewerEndpointController.java:111 | `parseInt` accepts only a non-null, non-empty text, and every value it returns fits a Java `int`. |
| `JavaText.ParseIntRoundTrip` | SpringProgram/demo/src/main/java/com/example/demo/presentation/restControllers/ReviewerEndpointController.java:169 | The printed form of n parses back to n iff n fits a Java `int`. |
| `JavaText.ParseIntAcceptsPadded` | SpringProgram/demo/src/main/java/com/example/demo/presentation/restControllers/ReviewerEndpointController.java:111 | A sign `+`, `-` or none, any number of leading zeros and the digits of n parse to the signed value, iff it fits a Java `int`. |
| `JavaText.ParseIntShape` | SpringProgram/demo/src/main/java/com/example/demo/presentation/restControllers/ReviewerEndpointController.java:111 | Conversely, every accepted text is a sign, some zeros and the digits of the value's magnitude. A negative value has a `-`, and a `-` gives a value of at most 0. |
| `JavaText.ParseIntExamples` | SpringProgram/demo/src/main/java/com/example/demo/presentation/restControllers/ReviewerEndpointController.java:111 | `+5` gives 5, `007` gives 7 and `-0` gives 0. ` 5` (with a leading blank) is refused. |
| `JavaText.ParseSqlDate` | SpringProgram/demo/src/main/java/com/example/demo/presentation/restControllers/ApplicationEndpointController.java:133 | An accepted date has a month in 1..12, a day in 1..31 and a four-digit year. |
| `JavaText.SqlDateRoundTrip` | SpringProgram/demo/src/main/java/com/example/demo/presentation/restControllers/ApplicationEndpointController.java:145 | Every such date, printed `yyyy-mm-dd`, parses back to itself. |
| `JavaText.ParseSqlDateShape` | SpringProgram/demo/src/main/java/com/example/demo/presentation/restControllers/ApplicationEndpointController.java:133 | Every accepted text is four digits, `-`, one or two digits, `-`, one or two digits, and those fields are the date's year, month and day. |
| `JavaText.ParseSqlDateFields` | SpringProgram/demo/src/main/java/com/example/demo/presentation/restControllers/ApplicationEndpointController.java:133 | Conversely, every text of that form with a month in 1..12 and a day in 1..31 is accepted with those fields. |
| `JavaText.UnpaddedDate` | SpringProgram/demo/src/main/java/com/example/demo/presentation/restControllers/ApplicationEndpointController.java:133 | `2024-1-5` is accepted as 5 January 2024: month and day need no zero padding. |
| `ParameterParsing.ParseInteger` | SpringProgram/demo/src/main/java/com/example/demo/presentation/restControllers/ReviewerEndpointController.java:109-119 | Succeeds iff `parseInt` does, with its value. Otherwise it raises InvalidParameter with `Provided value (X) could not be parsed as a valid integer`, where X is the raw text (or `null`). |
| `ParameterParsing.ParseIntegerPrinted` | SpringProgram/demo/src/main/java/com/example/demo/presentation/restControllers/ReviewerEndpointController.java:109-119 | A printed Java `int` is accepted with its value. A printed number out of range is refused with its own text. |
| `ParameterParsing.NotAnIntegerEmbedsRaw` | SpringProgram/demo/src/main/java/com/example/demo/presentation/restControllers/ReviewerEndpointController.java:114 | The failure message contains the raw value verbatim. |
| `ReviewerEndpoint.ParseStatus` | SpringProgram/demo/src/main/java/com/example/demo/presentation/restControllers/ReviewerEndpointController.java:139-153 | Null gives the dedicated null-status message. Otherwise it succeeds iff the lower-cased text is one of the three names, and it returns that constant. A failure embeds the raw value. |
| `ReviewerEndpoint.GetApplicationsByStatusHandler` | SpringProgram/demo/src/main/java/com/example/demo/presentation/restControllers/ReviewerEndpointController.java:72-95 | The service is called iff the status parses, and with the parsed status. Otherwise the parse error is the answer. |
| `ReviewerEndpoint.GetApplicationsByIdHandler` | SpringProgram/demo/src/main/java/com/example/demo/presentation/restControllers/ReviewerEndpointController.java:104-123 | The service is called iff the id is a Java `int`, and with that value. Otherwise the error embeds the raw id. |
| `ReviewerEndpoint.UpdateApplicationsByStatus` | SpringProgram/demo/src/main/java/com/example/demo/presentation/restControllers/ReviewerEndpointController.java:134-181 | Status, then application id, then version. The first failure alone is the answer. `SetApplicationStatus` is called iff all three parse, with exactly the parsed values. |
| `ReviewerEndpoint.StatusNameIsLower` | SpringProgram/demo/src/main/java/com/example/demo/presentation/restControllers/ReviewerEndpointController.java:141 | Lower-casing leaves every constant name unchanged. |
| `ReviewerEndpoint.StatusCaseInsensitive` | SpringProgram/demo/src/main/java/com/example/demo/presentation/restControllers/ReviewerEndpointController.java:141 | Two spellings that lower-case alike are both accepted or both refused, and map to the same constant. |
| `ReviewerEndpoint.ParseStatusAcceptsExactly` | SpringProgram/demo/src/main/java/com/example/demo/presentation/restControllers/ReviewerEndpointController.java:141-145 | A text parses to a status iff its lower-cased form is that status's name. |
| `ReviewerEndpoint.UpperCaseAccepted` | SpringProgram/demo/src/main/java/com/example/demo/presentation/restControllers/ReviewerEndpointController.java:141 | `ACCEPTED` parses to `accepted`. |
| `ReviewerEndpoint.NullStatusFirst` | SpringProgram/demo/src/main/java/com/example/demo/presentation/restControllers/ReviewerEndpointController.java:146-148 | A null status gets the null-status message, whatever the other parameters are. |
| `ReviewerEndpoint.StatusCheckedBeforeIds` | SpringProgram/demo/src/main/java/com/example/demo/presentation/restControllers/ReviewerEndpointController.java:139-165 | A bad status is reported even when the ids are also bad. |
| `ReviewerEndpoint.UpdateOfPrintedValues` | SpringProgram/demo/src/main/java/com/example/demo/presentation/restControllers/ReviewerEndpointController.java:155-179 | Printed ids, status names and versions reach the service unchanged. A version beyond the `int` range is refused with its raw text. |
| `ApplicationEndpoint.ParseYears` | SpringProgram/demo/src/main/java/com/example/demo/presentation/restControllers/ApplicationEndpointController.java:88-98 | A null years value raises the "Unknown cause" message, because `parseDouble(null)` throws a null-pointer exception. Otherwise it succeeds iff the decimal parser does. A failure embeds the raw text. |
| `ApplicationEndpoint.ParseDate` | SpringProgram/demo/src/main/java/com/example/demo/presentation/restControllers/ApplicationEndpointController.java:131-141 | Succeeds iff the text has the date format. A failure embeds the raw text (or `null`) and names the `yyyy-(m)m-(d)d` format. |
| `ApplicationEndpoint.CreateCompetenceProfileHandler` | SpringProgram/demo/src/main/java/com/example/demo/presentation/restControllers/ApplicationEndpointController.java:70-101 | Competence id before years. The first failure wins. The service gets the parsed id, the principal's person id and the parsed years iff both parse. |
| `ApplicationEndpoint.CreateAvailabilityHandler` | SpringProgram/demo/src/main/java/com/example/demo/presentation/restControllers/ApplicationEndpointController.java:123-156 | From date before to date. The first failure wins. The service gets the principal's person id and both dates in (from, to) order, with no comparison. |
| `ApplicationEndpoint.SubmitApplicationHandler` | SpringProgram/demo/src/main/java/com/example/demo/presentation/restControllers/ApplicationEndpointController.java:168-175 | The body's availability ids and competence-profile ids are forwarded unchanged, with the principal's person id. |
| `ApplicationEndpoint.Handle` | SpringProgram/demo/src/main/java/com/example/demo/presentation/restControllers/ApplicationEndpointController.java:54-175 | Every call a handler makes carries the principal's person id. |
| `ApplicationEndpoint.PersonIdOnlyFromPrincipal` | SpringProgram/demo/src/main/java/com/example/demo/presentation/restControllers/ApplicationEndpointController.java:57-60 | Two principals sending the same request get the same outcome. Each call differs only in carrying its own principal's person id. |
| `ApplicationEndpoint.CompetenceIdCheckedFirst` | SpringProgram/demo/src/main/java/com/example/demo/presentation/restControllers/ApplicationEndpointController.java:76-86 | An unparsable competence id is reported with its raw value, whatever the years are. |
| `ApplicationEndpoint.NullYearsUnknownCause` | SpringProgram/demo/src/main/java/com/example/demo/presentation/restControllers/ApplicationEndpointController.java:88-98 | A valid competence id with a null years value gets the "Unknown cause" message. |
| `ApplicationEndpoint.DatesPassedUncompared` | SpringProgram/demo/src/main/java/com/example/demo/presentation/restControllers/ApplicationEndpointController.java:131-155 | Two well-formed dates reach the service as (from, to), even when the period ends before it starts. |
| `ApplicationEndpoint.FromDateCheckedFirst` | SpringProgram/demo/src/main/java/com/example/demo/presentation/restControllers/ApplicationEndpointController.java:131-141 | A bad from date is reported whatever the to date is. |
| `TranslationService.GetCompetences` | SpringProgram/demo/src/main/java/com/example/demo/service/TranslationService.java:43-46 | Returns every stored competence, as the repository lists them. |
| `TranslationService.FindById` | SpringProgram/demo/src/main/java/com/example/demo/service/TranslationService.java:58 | Finds a competence iff one with that id is stored, and returns a stored one with that id. |
| `TranslationService.GetSpecificCompetence` | SpringProgram/demo/src/main/java/com/example/demo/service/TranslationService.java:55-66 | Returns the stored competence with that id if there is one, else `SpecificCompetenceNotFound(id)`. |
| `TranslationService.GetCompetenceTranslation` | SpringProgram/demo/src/main/java/com/example/demo/service/TranslationService.java:76-103 | A language that is missing or whose lookup throws gives `LanguageNotFound`. A null, empty or throwing translation lookup gives `TranslationsNotFound`. On success the result is non-empty and is exactly the list stored under the language's id. |
| `TranslationService.UnknownLanguageNeverTranslationsNotFound` | SpringProgram/demo/src/main/java/com/example/demo/service/TranslationService.java:79-99 | The language check comes first, so an unknown language never gives `TranslationsNotFound`. |
| `TranslationService.StoredCompetenceFound` | SpringProgram/demo/src/main/java/com/example/demo/service/TranslationService.java:58-65 | Every stored competence is found by its id. |
| `TranslationEndpoint.GetStandardCompetences` | SpringProgram/demo/src/main/java/com/example/demo/presentation/restControllers/TranslationEndpointController.java:57-63 | Returns the service's list unchanged. |
| `TranslationEndpoint.GetSpecificCompetenceHandler` | SpringProgram/demo/src/main/java/com/example/demo/presentation/restControllers/TranslationEndpointController.java:73-89 | An id that is not a Java `int` gives InvalidParameter with the raw id. Otherwise the result is the service's lookup of the parsed id. |
| `TranslationEndpoint.GetCompetenceTranslationHandler` | SpringProgram/demo/src/main/java/com/example/demo/presentation/restControllers/TranslationEndpointController.java:97-102 | The language is looked up lower-cased. A missing language gives `LanguageNotFound` of the lower-cased name, and every error names the lower-cased language. A result is non-empty and is the list stored under that language's id. |
| `TranslationEndpoint.TranslationCaseInsensitive` | SpringProgram/demo/src/main/java/com/example/demo/presentation/restControllers/TranslationEndpointController.java:97-102 | Language names that differ only in letter case give the same result. |
| `TranslationEndpoint.TranslationLowerCasedAgain` | SpringProgram/demo/src/main/java/com/example/demo/presentation/restControllers/TranslationEndpointController.java:101 | Asking with the already lower-cased name gives the same result. |
| `TranslationEndpoint.PrintedIdFindsStored` | SpringProgram/demo/src/main/java/com/example/demo/presentation/restControllers/TranslationEndpointController.java:77-88 | The printed id of a stored competence reaches the service, which finds that competence. |
| `SearchByUsername.Classify` | frontend/src/components/SearchByUsername.js:29-33 | The label is pnr iff the pnr pattern matches, else email iff the email pattern matches, else username. Every string gets exactly one label. |
| `SearchByUsername.PnrScan` | frontend/src/components/SearchByUsername.js:30 | The pnr scan accepts exactly the strings matched by one or more digits, an optional `-`, then one or more digits. |
| `SearchByUsername.EmailScan` | frontend/src/components/SearchByUsername.js:31 | The email scan accepts exactly the strings matched by a non-empty local part, `@`, a non-empty domain, `.`, then at least two letters. |
| `SearchByUsername.PnrHasTwoDigits` | frontend/src/components/SearchByUsername.js:30 | A pnr has at least two characters, and its first and last characters are digits. |
| `SearchByUsername.SingleDigitIsUsername` | frontend/src/components/SearchByUsername.js:30-32 | A single digit such as `7` is classified as a username. |
| `SearchByUsername.TrailingDashNotPnr` | frontend/src/components/SearchByUsername.js:30 | `123-` is not a pnr. |
| `SearchByUsername.DashedPnr` | frontend/src/components/SearchByUsername.js:30 | `19900101-1234` is a pnr. |
| `SearchByUsername.SearchParams` | frontend/src/components/SearchByUsername.js:46-54 | Exactly one query parameter is built. Its key is the classification and its value is the raw search text. |
| `ApplicationForm.Toggle` | frontend/src/components/ApplicationEndPoint.js:294-326 | A click on an id that is not loaded changes nothing. A click on a loaded id that is 0 or not yet selected appends it. A click on a selected non-zero id removes every occurrence of it. Every other id keeps its count. |
| `ApplicationForm.RemoveAll` | frontend/src/components/ApplicationEndPoint.js:300 | `filter` drops every occurrence of the id and keeps every other id with its count. |
| `ApplicationForm.RemoveAllAppend` | frontend/src/components/ApplicationEndPoint.js:300 | Filtering two runs one after the other is filtering each run in turn, so the order is kept. |
| `ApplicationForm.RemoveAbsent` | frontend/src/components/ApplicationEndPoint.js:300 | Filtering out an absent id changes nothing. |
| `ApplicationForm.ToggleTwiceRestores` | frontend/src/components/ApplicationEndPoint.js:294-309 | Clicking an unselected, loaded, non-zero id appends it at the end. Clicking it again restores the selection exactly. |
| `ApplicationForm.DeselectRemovesAll` | frontend/src/components/ApplicationEndPoint.js:298-300 | Clicking a selected non-zero id removes every occurrence of it and keeps every other id with its count. |
| `ApplicationForm.ZeroAppendedAgain` | frontend/src/components/ApplicationEndPoint.js:298-303 | A selected 0 looks unselected to `find`'s truthiness, so each click appends 0 once more. |
| `ApplicationForm.ToggleKeepsInvariant` | frontend/src/components/ApplicationEndPoint.js:294-326 | A click keeps every selected id among the loaded ones and never selects a non-zero id twice. |
| `ApplicationForm.RemoveAllKeepsInvariant` | frontend/src/components/ApplicationEndPoint.js:300 | Deselecting keeps the selection invariant. |
| `ApplicationForm.ApplicationEndPoint.constructor` | frontend/src/components/ApplicationEndPoint.js:22-33 | The page starts with an empty person id and empty lists, so the selection invariant holds. |
| `ApplicationForm.ApplicationEndPoint.HandleSelectCompetence` | frontend/src/components/ApplicationEndPoint.js:294-309 | The profile selection becomes `Toggle` of the old one. An id not among the loaded profiles changes nothing. Every other field is unchanged and the invariant is kept. |
| `ApplicationForm.ApplicationEndPoint.HandleSelectAvailability` | frontend/src/components/ApplicationEndPoint.js:311-326 | The same toggle over the availability list and its selected ids. Nothing else changes. |
| `ApplicationForm.ApplicationEndPoint.SubmitApplication` | frontend/src/components/ApplicationEndPoint.js:259-270 | Blocked iff the person id is empty or either loaded list is empty; the selected-id lists are not checked. Otherwise the body carries the person id and both selections exactly. |
| `ApplicantDetails.Step` | frontend/src/components/ApplicantDetailsComp.js:84-94 | A click sets the status of its button and leaves a consistent state. Submit becomes enabled iff that button was not already pressed. |
| `ApplicantDetails.Run` | frontend/src/components/ApplicantDetailsComp.js:84-94 | No clicks leave the state as it was. Otherwise the last click decides the status. |
| `ApplicantDetails.SubmitEnabled` | frontend/src/components/ApplicantDetailsComp.js:192 | Submit is enabled when a button is pressed; in a consistent state an enabled submit never sends `unchecked`. |
| `ApplicantDetails.RunKeepsConsistent` | frontend/src/components/ApplicantDetailsComp.js:84-94 | From a consistent state, every click sequence keeps this, so both flags are never true at once. |
| `ApplicantDetails.InitialConsistent` | frontend/src/components/ApplicantDetailsComp.js:13-15 | The initial state is `unchecked` with neither flag set. It is consistent and submit is disabled. |
| `ApplicantDetails.EnabledSubmitSendsPressedChoice` | frontend/src/components/ApplicantDetailsComp.js:84-94 | When submit is enabled after any clicks from the start, the status is that of the pressed button. |
| `ApplicantDetails.AcceptTwiceDisables` | frontend/src/components/ApplicantDetailsComp.js:84-88 | Pressing accept twice leaves the status `accepted` but disables submit. |
| `ApplicantDetails.UpdateRequest` | frontend/src/components/ApplicantDetailsComp.js:51-64 | A request exists iff submit is enabled (line 192). Its fields are the route id, the current status name and the loaded version, in that order. |
| `ApplicantDetails.UpdateRequestAccepted` | frontend/src/components/ApplicantDetailsComp.js:60-64 | The reviewer controller parses the page's three form fields into `SetApplicationStatus(id, status, version)` when id and version fit a Java `int`; a larger version is refused. This is about the controller alone: the request itself carries no bearer token (see Findings). |
| `ApplicantDetails.ApplicationDetailsComp.constructor` | frontend/src/components/ApplicantDetailsComp.js:13-15 | The component starts in the initial state. |
| `ApplicantDetails.ApplicationDetailsComp.HandleAccept` | frontend/src/components/ApplicantDetailsComp.js:84-88 | The status becomes `accepted`, the accept flag flips and the decline flag is cleared. Consistency is kept. |
| `ApplicantDetails.ApplicationDetailsComp.HandleDecline` | frontend/src/components/ApplicantDetailsComp.js:90-94 | The status becomes `denied`, the decline flag flips and the accept flag is cleared. Consistency is kept. |

## Left out

- JWT cryptography, signing keys and expiry clocks: `extractSubject`, `validateToken` and `loadUserByUsername` are function parameters. `validateToken` is taken to return a boolean without throwing.
- An `ExpiredJwtException` thrown further down the filter chain would also be caught by the gate's handler. The model only lets the token extraction raise it.
- Spring's request-matcher internals, CORS and CSRF set-up, filter-chain dispatch and `@PreAuthorize`: path patterns are reduced to exact match, `p/**` and `p**`.
- The review and application services and their repositories are not part of this model. Controllers return the call they would make. The `@Version` compare-and-increment is the ASSUMED contract of `VersionedStore`; concurrency between reviewers is not modelled beyond two sequential updates.
- `TranslationEndpointController.GetLanguages`: the `GetLanguages` service method it delegates to is not part of this model.
- `GetApplications` of the reviewer controller and the two parameterless getters of the application controller are plain pass-throughs. They are modelled only as far as `ApplicationEndpoint.Handle` needs.
- The message text of exception classes other than `InvalidParameterException` is not part of this model. The advice receives it as a function of the exception. The advice that handles `LanguageNotFound` and `TranslationsNotFound` is not part of this model.
- `ParseStatus`, `ParseInteger` and `ParseDate` never take the controllers' generic "Unknown cause" catch blocks, because `toLowerCase`/`valueOf`, `parseInt` and `Date.valueOf` throw only the exceptions caught before them. For years of experience the block is reached, by a null value.
- `ToLower`: lower-cases ASCII letters only; Java's locale-dependent and non-ASCII case mapping is not modelled.
- `ParseInt`: ASCII digits only; the non-ASCII decimal digits Java also accepts are not modelled.
- `ParseSqlDate`: models the format only, with month 1..12 and day 1..31. Calendar validity and the lenient conversion of `java.sql.Date` are not modelled, nor the `+`/`-` signs its inner `parseInt` calls would accept inside a field.
- `ParseYears`: `Double.parseDouble` is a parameter and years are reals, so floating-point rounding is not modelled.
- Dates are milliseconds as unbounded integers; the clock is the parameter `now`.
- `UpdateRequest`: the version is printed as an unbounded integer. JavaScript's loss of precision above 2^53 is not modelled.
- `@UniqueElements` compares with `equals`. Competence profiles are compared by object identity and availability periods by value; the `Availability` entity is not part of this model beyond its id.
- Logging, `System.out`, `console.log`, alerts, `fetch`, `sessionStorage`, navigation, React rendering, batching of state updates and `useEffect` timing.
- `Appbar.js`, `SearchApplication.js`, `UpdateAccountRecruiter.js`, the page layouts, `PersonService`, `PersonController`, the repositories and the integration tests are not part of this model.
- The HTTP status of a refusal as unauthenticated is not modelled. The configuration sets no entry point: no `httpBasic`, no `formLogin`, no `exceptionHandling`. The status is therefore whatever Spring's default entry point answers, and `DenyAnonymous` says only that the request is refused as unauthenticated.
- The translation handler takes the language as a non-null string, because the parameter is a required `@RequestParam` and null cannot reach it.
- The page's person id is a string. A missing `sessionStorage` entry (null) is modelled as the empty string, which the submit guard `!personId` treats the same way.

## Findings

| source | as written | input that shows it | evidently intended | confidence | as-written member | corrected member |
|---|---|---|---|---|---|---|
| frontend/src/components/ApplicantDetailsComp.js:54-59 | The status update, like the page's load of the application at lines 22-27, sends no `Authorization` header, while `/review/**` is recruiter-only and sessions are stateless (SecurityConfig.java:85, 88). | The POST to `/review/updateApplicationStatus` with no header: it stays anonymous and is refused as unauthenticated before reaching the controller. | The page sends `Bearer <token>`, as the other pages do, so that a recruiter's request reaches the reviewer controller. | not executed; follows from the source text | `RequestPipeline.AnonymousOnRecruiterRoute` | `RequestPipeline.RecruiterTokenOnRecruiterRoute` |
