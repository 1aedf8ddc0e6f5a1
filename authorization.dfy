/**
 * The ordered authorization rule list of `SecurityConfig.securityFilterChain`.
 * Each rule names path patterns and what a request matching one of them needs;
 * the first rule with a matching pattern decides, and a request matching none
 * needs some authenticated principal. Sessions are stateless, so the decision
 * is a function of the request path and the authentication installed for this
 * request alone.
 */
module Authorization {
  import opened Wrappers

  // Request-matcher patterns in the simplified semantics used here.
  // Exact(q) is written `q` and matches `q` only; Subtree(b) is written
  // `b/**` and matches `b` and every `b/...`; Suffix(b) is written `b**`
  // and matches `b` followed by characters other than `/`.
  datatype Pattern = Exact(path: string) | Subtree(base: string) | Suffix(base: string)
  {
    /** The pattern as it is spelled in the configuration. */
    function Text(): string
    {
      match this
      case Exact(q) => q
      case Subtree(b) => b + "/**"
      case Suffix(b) => b + "**"
    }

    /** The literal text every matching path starts with. */
    function Base(): string
    {
      match this
      case Exact(q) => q
      case Subtree(b) => b
      case Suffix(b) => b
    }
  }

  predicate Matches(p: Pattern, path: string)
  {
    match p
    case Exact(q) => path == q
    case Subtree(b) => path == b || b + "/" <= path
    case Suffix(b) => b <= path && forall i :: |b| <= i < |path| ==> path[i] != '/'
  }

  /** Every path a pattern matches starts with the pattern's base. */
  lemma MatchStartsWithBase(p: Pattern, path: string)
    requires Matches(p, path)
    ensures p.Base() <= path
  {
    if p.Subtree? && path != p.base {
      assert path[..|p.base|] == (p.base + "/")[..|p.base|];
    }
  }

  /** A path that differs from a pattern's base at some position is not matched. */
  lemma DiffersFromBase(p: Pattern, path: string, i: nat)
    requires i < |p.Base()| && i < |path| && path[i] != p.Base()[i]
    ensures !Matches(p, path)
  {
    if Matches(p, path) {
      MatchStartsWithBase(p, path);
      assert false;
    }
  }

  /** What a rule demands of the request's authentication. */
  datatype Access = PermitAll | HasAuthority(authority: string) | Authenticated

  datatype Rule = Rule(patterns: seq<Pattern>, access: Access)

  const Public: seq<Pattern> := [
    Exact("/person/register"), Exact("/person/updateApplicant"), Suffix("/auth/generateToken"),
    Exact("/person/requestApplicantReset"), Subtree("/translation")
  ]
  const ApplicantOnly: seq<Pattern> := [Subtree("/application")]
  const RecruiterOnly: seq<Pattern> := [
    Subtree("/review"), Exact("/person/updateReviwer"), Exact("/person/find"), Exact("/person/findPerson")
  ]

  /** The explicit rules, in the order they are declared; `anyRequest().authenticated()` follows them. */
  const Rules: seq<Rule> := [
    Rule(Public, PermitAll),
    Rule(ApplicantOnly, HasAuthority("applicant")),
    Rule(RecruiterOnly, HasAuthority("recruiter"))
  ]

  predicate MatchesAny(patterns: seq<Pattern>, path: string)
  {
    exists i :: 0 <= i < |patterns| && Matches(patterns[i], path)
  }

  /** The index of the first rule one of whose patterns matches `path`. */
  function FirstMatch(rules: seq<Rule>, path: string): (r: Option<nat>)
    ensures r.Some? ==> r.value < |rules| && MatchesAny(rules[r.value].patterns, path)
    ensures r.Some? ==> forall j :: 0 <= j < r.value ==> !MatchesAny(rules[j].patterns, path)
    ensures r.None? ==> forall j :: 0 <= j < |rules| ==> !MatchesAny(rules[j].patterns, path)
  {
    if rules == [] then None
    else if MatchesAny(rules[0].patterns, path) then Some(0)
    else
      match FirstMatch(rules[1..], path)
      case None => None
      case Some(k) => Some(k + 1)
  }

  /**
   * Outcome of authorization: pass, refused as unauthenticated (no principal;
   * the HTTP status is whatever Spring's default entry point answers), or
   * access denied (a principal that lacks the authority).
   */
  datatype Decision = Permit | DenyAnonymous | DenyAuthority

  /** `authorities` is `None` for an anonymous request, else the principal's granted authorities. */
  function Enforce(access: Access, authorities: Option<set<string>>): (d: Decision)
    ensures access == PermitAll ==> d == Permit
    ensures access != PermitAll && authorities.None? ==> d == DenyAnonymous
    ensures access == Authenticated && authorities.Some? ==> d == Permit
    ensures access.HasAuthority? && authorities.Some? ==>
              (d == Permit <==> access.authority in authorities.value) && d != DenyAnonymous
  {
    match access
    case PermitAll => Permit
    case Authenticated => if authorities.Some? then Permit else DenyAnonymous
    case HasAuthority(a) =>
      if authorities.None? then DenyAnonymous
      else if a in authorities.value then Permit
      else DenyAuthority
  }

  /** The decision for one request: the first matching rule, or "authenticated" when none matches. */
  function Decide(path: string, authorities: Option<set<string>>): (d: Decision)
    ensures MatchesAny(Public, path) ==> d == Permit
    ensures !MatchesAny(Public, path) && MatchesAny(ApplicantOnly, path) ==>
              d == Enforce(HasAuthority("applicant"), authorities)
    ensures !MatchesAny(Public, path) && !MatchesAny(ApplicantOnly, path) && MatchesAny(RecruiterOnly, path) ==>
              d == Enforce(HasAuthority("recruiter"), authorities)
    ensures !MatchesAny(Public, path) && !MatchesAny(ApplicantOnly, path) && !MatchesAny(RecruiterOnly, path) ==>
              d == Enforce(Authenticated, authorities)
  {
    assert |Rules| == 3 && Rules[0].patterns == Public && Rules[1].patterns == ApplicantOnly;
    assert Rules[2].patterns == RecruiterOnly;
    match FirstMatch(Rules, path)
    case Some(k) => Enforce(Rules[k].access, authorities)
    case None => Enforce(Authenticated, authorities)
  }

  // ------------------------------------------------------------ properties

  /** The table spells its patterns exactly as the configuration does. */
  lemma SpelledAsConfigured()
    ensures Public[0].Text() == "/person/register" && Public[1].Text() == "/person/updateApplicant"
    ensures Public[2].Text() == "/auth/generateToken**" && Public[3].Text() == "/person/requestApplicantReset"
    ensures Public[4].Text() == "/translation/**"
    ensures ApplicantOnly[0].Text() == "/application/**"
    ensures RecruiterOnly[0].Text() == "/review/**" && RecruiterOnly[1].Text() == "/person/updateReviwer"
    ensures RecruiterOnly[2].Text() == "/person/find" && RecruiterOnly[3].Text() == "/person/findPerson"
  {
  }

  /** Any path matching a pattern of the first rule is let through, even with no principal. */
  lemma PublicPatternsPermitted(path: string, authorities: Option<set<string>>)
    requires MatchesAny(Public, path)
    ensures Decide(path, authorities) == Permit
  {
    assert MatchesAny(Rules[0].patterns, path);
  }

  /** Everything under `/translation` and the three named person routes are public. */
  lemma PublicRoutes(path: string, authorities: Option<set<string>>)
    requires path == "/translation" || "/translation/" <= path
          || path in ["/person/register", "/person/updateApplicant", "/person/requestApplicantReset"]
    ensures Decide(path, authorities) == Permit
  {
    if path == "/translation" || "/translation/" <= path {
      assert Matches(Public[4], path);
    } else if path == "/person/register" {
      assert Matches(Public[0], path);
    } else if path == "/person/updateApplicant" {
      assert Matches(Public[1], path);
    } else {
      assert Matches(Public[3], path);
    }
    PublicPatternsPermitted(path, authorities);
  }

  lemma NoneOfFive(patterns: seq<Pattern>, path: string)
    requires |patterns| == 5
    requires !Matches(patterns[0], path) && !Matches(patterns[1], path) && !Matches(patterns[2], path)
    requires !Matches(patterns[3], path) && !Matches(patterns[4], path)
    ensures !MatchesAny(patterns, path)
  {
  }

  /** A path whose second character is not `p`, `a` or `t`, or is `a` followed by other than `u`, is not public. */
  lemma NotPublicBySecondChars(path: string)
    requires |path| >= 3
    requires path[1] != 'p' && path[1] != 't' && (path[1] == 'a' ==> path[2] != 'u')
    ensures !MatchesAny(Public, path)
  {
    if path[1] == 'a' {
      DiffersFromBase(Public[2], path, 2);
    } else {
      DiffersFromBase(Public[2], path, 1);
    }
    DiffersFromBase(Public[0], path, 1);
    DiffersFromBase(Public[1], path, 1);
    DiffersFromBase(Public[3], path, 1);
    DiffersFromBase(Public[4], path, 1);
    NoneOfFive(Public, path);
  }

  /** Paths under `/application` pass only for a principal holding `applicant`. */
  lemma ApplicantNamespace(path: string, authorities: Option<set<string>>)
    requires path == "/application" || "/application/" <= path
    ensures authorities.None? ==> Decide(path, authorities) == DenyAnonymous
    ensures authorities.Some? ==>
              Decide(path, authorities) == (if "applicant" in authorities.value then Permit else DenyAuthority)
  {
    assert path[1] == 'a' && path[2] == 'p';
    NotPublicBySecondChars(path);
    assert Matches(ApplicantOnly[0], path);
    assert MatchesAny(Rules[1].patterns, path);
    assert FirstMatch(Rules, path) == Some(1);
  }

  /** A `/person/...` path other than the three public ones is matched by no public pattern. */
  lemma PersonPathNotPublic(path: string)
    requires "/person/" <= path
    requires path !in ["/person/register", "/person/updateApplicant", "/person/requestApplicantReset"]
    ensures !MatchesAny(Public, path)
  {
    DiffersFromBase(Public[2], path, 2);
    DiffersFromBase(Public[4], path, 1);
  }

  /** Paths under `/review` and the three named person routes pass only with authority `recruiter`. */
  lemma RecruiterRoutes(path: string, authorities: Option<set<string>>)
    requires path == "/review" || "/review/" <= path
          || path in ["/person/updateReviwer", "/person/find", "/person/findPerson"]
    ensures authorities.None? ==> Decide(path, authorities) == DenyAnonymous
    ensures authorities.Some? ==>
              Decide(path, authorities) == (if "recruiter" in authorities.value then Permit else DenyAuthority)
  {
    if path == "/review" || "/review/" <= path {
      assert path[1] == 'r';
      NotPublicBySecondChars(path);
      assert Matches(RecruiterOnly[0], path);
    } else {
      PersonPathNotPublic(path);
      if path == "/person/updateReviwer" {
        assert Matches(RecruiterOnly[1], path);
      } else if path == "/person/find" {
        assert Matches(RecruiterOnly[2], path);
      } else {
        assert Matches(RecruiterOnly[3], path);
      }
    }
    DiffersFromBase(ApplicantOnly[0], path, 1);
    assert !MatchesAny(Rules[1].patterns, path);
    assert MatchesAny(Rules[2].patterns, path);
    assert FirstMatch(Rules, path) == Some(2);
  }

  /** A path no explicit pattern matches needs only some authenticated principal. */
  lemma UnmatchedNeedsAuthentication(path: string, authorities: Option<set<string>>)
    requires !MatchesAny(Public, path) && !MatchesAny(ApplicantOnly, path) && !MatchesAny(RecruiterOnly, path)
    ensures Decide(path, authorities) == (if authorities.Some? then Permit else DenyAnonymous)
  {
    assert FirstMatch(Rules, path) == None;
  }

  /** `/person/updateRecruiter` falls to the default rule: the recruiter rule spells `updateReviwer`. */
  lemma UpdateRecruiterOnlyAuthenticated(authorities: Option<set<string>>)
    ensures Decide("/person/updateRecruiter", authorities) == (if authorities.Some? then Permit else DenyAnonymous)
  {
    var path := "/person/updateRecruiter";
    PersonPathNotPublic(path);
    NotApplicantOnly(path);
    UpdateRecruiterNotRecruiterOnly();
    UnmatchedNeedsAuthentication(path, authorities);
  }

  lemma NotApplicantOnly(path: string)
    requires |path| >= 2 && path[1] != 'a'
    ensures !MatchesAny(ApplicantOnly, path)
  {
    DiffersFromBase(ApplicantOnly[0], path, 1);
  }

  lemma UpdateRecruiterNotRecruiterOnly()
    ensures !MatchesAny(RecruiterOnly, "/person/updateRecruiter")
  {
    var path := "/person/updateRecruiter";
    DiffersFromBase(RecruiterOnly[0], path, 1);
    DiffersFromBase(RecruiterOnly[1], path, 16);
    DiffersFromBase(RecruiterOnly[2], path, 8);
    DiffersFromBase(RecruiterOnly[3], path, 8);
  }

  /** No path is governed by both the applicant rule and the recruiter rule. */
  lemma ApplicantAndRecruiterDisjoint(path: string)
    ensures !(MatchesAny(ApplicantOnly, path) && MatchesAny(RecruiterOnly, path))
  {
    if MatchesAny(ApplicantOnly, path) {
      assert Matches(ApplicantOnly[0], path);
      MatchStartsWithBase(ApplicantOnly[0], path);
      assert path[1] == 'a';
      DiffersFromBase(RecruiterOnly[0], path, 1);
      DiffersFromBase(RecruiterOnly[1], path, 1);
      DiffersFromBase(RecruiterOnly[2], path, 1);
      DiffersFromBase(RecruiterOnly[3], path, 1);
    }
  }
}
