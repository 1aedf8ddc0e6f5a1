/**
 * `SearchByUsername`: a recruiter's search text is classified as a personal
 * number, an e-mail address or a username, tried in that order, and sent as
 * the one query parameter named after its class. Each regular expression is
 * given twice: as the split the pattern describes (a ghost predicate with an
 * existential) and as a direct scan, and the two are proved equivalent.
 */
module SearchByUsername {
  import opened JavaText

  datatype SearchKind = Pnr | Email | Username

  predicate IsLetter(c: char)
  {
    'a' <= c <= 'z' || 'A' <= c <= 'Z'
  }

  /** `[a-zA-Z0-9._%+-]` */
  predicate IsLocalChar(c: char)
  {
    IsLetter(c) || IsDigit(c) || c == '.' || c == '_' || c == '%' || c == '+' || c == '-'
  }

  /** `[a-zA-Z0-9.-]` */
  predicate IsDomainChar(c: char)
  {
    IsLetter(c) || IsDigit(c) || c == '.' || c == '-'
  }

  predicate AllLocal(s: string) { forall i :: 0 <= i < |s| ==> IsLocalChar(s[i]) }
  predicate AllDomain(s: string) { forall i :: 0 <= i < |s| ==> IsDomainChar(s[i]) }
  predicate AllLetters(s: string) { forall i :: 0 <= i < |s| ==> IsLetter(s[i]) }

  // ---------------------------------------------------------------- the patterns

  /** `^\d+-?\d+$` matched with the first run of digits ending before index `k`. */
  ghost predicate PnrSplit(s: string, k: int)
  {
    && 1 <= k < |s|
    && AllDigits(s[..k])
    && (AllDigits(s[k..]) || (s[k] == '-' && k + 1 < |s| && AllDigits(s[k + 1..])))
  }

  ghost predicate PnrPattern(s: string)
  {
    exists k :: PnrSplit(s, k)
  }

  /** `^[a-zA-Z0-9._%+-]+@[a-zA-Z0-9.-]+\.[a-zA-Z]{2,}$` matched with the `@` at `i` and the final `.` at `j`. */
  ghost predicate EmailSplit(s: string, i: int, j: int)
  {
    && 0 < i && i + 1 < j && j + 2 < |s|
    && AllLocal(s[..i]) && s[i] == '@'
    && AllDomain(s[i + 1..j]) && s[j] == '.'
    && AllLetters(s[j + 1..])
  }

  ghost predicate EmailPattern(s: string)
  {
    exists i, j :: EmailSplit(s, i, j)
  }

  // ---------------------------------------------------------------- scans

  /** The index of the first `c` in `s`, or `|s|`. */
  function FirstIndex(s: string, c: char): (r: nat)
    ensures r <= |s|
    ensures forall k :: 0 <= k < r ==> s[k] != c
    ensures r < |s| ==> s[r] == c
  {
    if s == [] then 0
    else if s[0] == c then 0
    else 1 + FirstIndex(s[1..], c)
  }

  /** The index of the last `c` in `s`, or -1. */
  function LastIndex(s: string, c: char): (r: int)
    ensures -1 <= r < |s|
    ensures forall k :: r < k < |s| ==> s[k] != c
    ensures r >= 0 ==> s[r] == c
  {
    if s == [] then -1
    else if s[|s| - 1] == c then |s| - 1
    else LastIndex(s[..|s| - 1], c)
  }

  /** The index of the first character that is not a digit, or `|s|`. */
  function FirstNonDigit(s: string): (r: nat)
    ensures r <= |s|
    ensures AllDigits(s[..r])
    ensures r < |s| ==> !IsDigit(s[r])
  {
    if s == [] then 0
    else if !IsDigit(s[0]) then 0
    else
      var r := 1 + FirstNonDigit(s[1..]);
      assert s[..r] == [s[0]] + s[1..][..r - 1];
      r
  }

  /** The personal-number test of `parseSearch`. */
  function IsPnr(s: string): bool
  {
    var k := FirstNonDigit(s);
    if k == |s| then |s| >= 2
    else 1 <= k && s[k] == '-' && k + 1 < |s| && AllDigits(s[k + 1..])
  }

  /** The e-mail test of `parseSearch`. */
  function IsEmail(s: string): bool
  {
    var i := FirstIndex(s, '@');
    var j := LastIndex(s, '.');
    0 < i && i + 1 < j && j + 2 < |s| && AllLocal(s[..i]) && AllDomain(s[i + 1..j]) && AllLetters(s[j + 1..])
  }

  /** `parseSearch`: personal number first, then e-mail, else username. */
  function Classify(search: string): (k: SearchKind)
    ensures k == Pnr <==> PnrPattern(search)
    ensures k == Email <==> !PnrPattern(search) && EmailPattern(search)
    ensures k == Username <==> !PnrPattern(search) && !EmailPattern(search)
  {
    PnrScan(search);
    EmailScan(search);
    if IsPnr(search) then Pnr
    else if IsEmail(search) then Email
    else Username
  }

  /** The scan accepts exactly the strings the personal-number pattern matches. */
  lemma {:induction false} PnrScan(s: string)
    ensures IsPnr(s) <==> PnrPattern(s)
  {
    var k := FirstNonDigit(s);
    if IsPnr(s) {
      if k == |s| {
        assert s[..k] == s;
        assert PnrSplit(s, 1);
      } else {
        assert PnrSplit(s, k);
      }
    }
    if PnrPattern(s) {
      var m :| PnrSplit(s, m);
      if AllDigits(s[m..]) {
        assert AllDigits(s) by {
          assert s == s[..m] + s[m..];
          assert forall i :: m <= i < |s| ==> s[i] == s[m..][i - m];
        }
        assert k == |s|;
      } else {
        assert forall i :: m + 1 <= i < |s| ==> s[i] == s[m + 1..][i - m - 1];
        assert k == m;
      }
    }
  }

  /** The scan accepts exactly the strings the e-mail pattern matches. */
  lemma {:induction false} EmailScan(s: string)
    ensures IsEmail(s) <==> EmailPattern(s)
  {
    var i := FirstIndex(s, '@');
    var j := LastIndex(s, '.');
    if IsEmail(s) {
      assert EmailSplit(s, i, j);
    }
    if EmailPattern(s) {
      var i', j' :| EmailSplit(s, i', j');
      assert forall k :: 0 <= k < i' ==> s[k] == s[..i'][k];
      assert i == i';
      assert forall k :: j' < k < |s| ==> s[k] == s[j' + 1..][k - j' - 1];
      assert j == j';
    }
  }

  /** A personal number has at least two digits: its first and its last character. */
  lemma PnrHasTwoDigits(s: string)
    requires Classify(s) == Pnr
    ensures |s| >= 2 && IsDigit(s[0]) && IsDigit(s[|s| - 1])
  {
    PnrScan(s);
    var k :| PnrSplit(s, k);
    assert s[0] == s[..k][0];
    if AllDigits(s[k..]) {
      assert s[|s| - 1] == s[k..][|s| - 1 - k];
    } else {
      assert s[|s| - 1] == s[k + 1..][|s| - 2 - k];
    }
  }

  /** A lone digit is too short for a personal number and has no `@`: it is a username. */
  lemma SingleDigitIsUsername(d: char)
    requires IsDigit(d)
    ensures Classify([d]) == Username
  {
    assert !IsPnr([d]);
    assert FirstIndex([d], '@') == 1;
  }

  /** A trailing dash leaves no second run of digits. */
  lemma TrailingDashNotPnr()
    ensures Classify("123-") != Pnr
  {
    var s := "123-";
    assert IsDigit(s[0]) && IsDigit(s[1]) && IsDigit(s[2]) && !IsDigit(s[3]);
    assert FirstNonDigit(s) == 3 by {
      assert FirstNonDigit(s[3..]) == 0;
      assert s[1..][1..] == s[2..] && s[2..][1..] == s[3..];
    }
  }

  /** A dashed personal number is classified as such. */
  lemma DashedPnr()
    ensures Classify("19900101-1234") == Pnr
  {
    var s := "19900101-1234";
    assert PnrSplit(s, 8) by {
      assert s[..8] == "19900101";
      assert s[9..] == "1234";
    }
  }

  /** The name of the query parameter each class is sent under. */
  function ParamKey(k: SearchKind): string
  {
    match k
    case Email => "email"
    case Pnr => "pnr"
    case Username => "username"
  }

  /** `handleSearch`: exactly one query parameter, named after the class, carrying the raw text. */
  function SearchParams(search: string): (params: seq<(string, string)>)
    ensures |params| == 1
    ensures params[0].1 == search
    ensures params[0].0 in {"pnr", "email", "username"}
    ensures params[0].0 == "pnr" <==> PnrPattern(search)
    ensures params[0].0 == "email" <==> !PnrPattern(search) && EmailPattern(search)
  {
    [(ParamKey(Classify(search)), search)]
  }
}
