/**
 * The middlewares that guard POST /login: the presence of the `email` and
 * `password` keys, then the e-mail pattern and the password comparison.
 */
module ValidateLogin {
  import opened Js
  import opened Http

  const EmailRequired := "O campo \"email\" é obrigatório"
  const PasswordRequired := "O campo \"password\" é obrigatório"
  const EmailFormat := "O \"email\" deve ter o formato \"email@email.com\""
  const PasswordTooShort := "O \"password\" deve ter pelo menos 6 caracteres"

  /** `req.body`: the keys present in the JSON body and their values. */
  type LoginBody = map<string, JsValue>

  /** `body[key]`: an absent key reads as undefined. */
  function Field(body: LoginBody, key: string): JsValue
  {
    if key in body then body[key] else Undefined
  }

  /** validateRequiredFields: key presence (`in`), email first. */
  function ValidateRequiredFields(body: LoginBody): (r: Verdict)
    ensures "email" !in body ==> r == Reject(BadRequest, EmailRequired)
    ensures "email" in body && "password" !in body ==> r == Reject(BadRequest, PasswordRequired)
    ensures r == Next <==> "email" in body && "password" in body
  {
    if "email" !in body then Reject(BadRequest, EmailRequired)
    else if "password" !in body then Reject(BadRequest, PasswordRequired)
    else Next
  }

  // ---------------------------------------------------------------------------
  // The pattern /^[^\s@]+@[^\s@]+\.[^\s@]+$/

  /** `\s`: the ECMAScript white space and line terminator characters. */
  predicate IsSpace(c: char)
  {
    || c == '\t' || c == '\n' || c == '\U{b}' || c == '\U{c}' || c == '\r' || c == ' '
    || c == '\U{a0}' || c == '\U{1680}' || '\U{2000}' <= c <= '\U{200a}'
    || c == '\U{2028}' || c == '\U{2029}' || c == '\U{202f}' || c == '\U{205f}'
    || c == '\U{3000}' || c == '\U{feff}'
  }

  /** `[^\s@]` */
  predicate Plain(c: char)
  {
    c != '@' && !IsSpace(c)
  }

  predicate AllPlain(s: string)
  {
    forall k :: 0 <= k < |s| ==> Plain(s[k])
  }

  /** The '@' at i and the '.' at j cut s into three non-empty plain runs. */
  predicate SplitsAt(s: string, i: int, j: int)
  {
    0 < i && i + 1 < j && j + 1 < |s| && s[i] == '@' && s[j] == '.'
    && AllPlain(s[..i]) && AllPlain(s[i + 1..j]) && AllPlain(s[j + 1..])
  }

  /** `emailRegex.test(s)`: some '@' and some later '.' split s as the pattern demands. */
  predicate MatchesEmail(s: string)
    ensures MatchesEmail(s) ==> 5 <= |s| && Plain(s[0]) && Plain(s[|s| - 1])
  {
    exists i, j :: 0 < i < j < |s| && SplitsAt(s, i, j)
  }

  /**
   * `emailRegex.test(req.body.email)`. The test converts its argument to a
   * string; those of undefined, null, the booleans and the numbers hold no
   * '@', so only a string can match.
   */
  predicate EmailTest(email: JsValue)
    ensures EmailTest(email) ==> email.Str? && |email.s| >= 5
  {
    email.Str? && MatchesEmail(email.s)
  }

  /** `req.body.password >= 6`: a numeric comparison, not a length check. */
  predicate PasswordTest(password: JsValue)
    ensures PasswordTest(password) ==> !Falsy(password)
    ensures password.Num? ==> (PasswordTest(password) <==> password.n >= 6.0)
  {
    AtLeast(password, 6.0)
  }

  /** validateFieldFormat: the e-mail failure is reported before the password failure. */
  function ValidateFieldFormat(body: LoginBody): (r: Verdict)
    ensures !EmailTest(Field(body, "email")) ==> r == Reject(BadRequest, EmailFormat)
    ensures EmailTest(Field(body, "email")) && !PasswordTest(Field(body, "password")) ==>
      r == Reject(BadRequest, PasswordTooShort)
    ensures r == Next <==> EmailTest(Field(body, "email")) && PasswordTest(Field(body, "password"))
  {
    var isValidEmail := EmailTest(Field(body, "email"));
    var isValidPassword := PasswordTest(Field(body, "password"));
    if !isValidEmail then Reject(BadRequest, EmailFormat)
    else if !isValidPassword then Reject(BadRequest, PasswordTooShort)
    else Next
  }

  // ---------------------------------------------------------------------------
  // The e-mail pattern is exactly L + "@" + D + "." + T

  /** Every L + "@" + D + "." + T with non-empty plain parts matches. */
  lemma EmailFromParts(l: string, d: string, t: string)
    requires |l| > 0 && |d| > 0 && |t| > 0
    requires AllPlain(l) && AllPlain(d) && AllPlain(t)
    ensures MatchesEmail(l + "@" + d + "." + t)
  {
    var s := l + "@" + d + "." + t;
    var i, j := |l|, |l| + 1 + |d|;
    assert s[..i] == l;
    assert s[i + 1..j] == d;
    assert s[j + 1..] == t;
    assert s[i] == '@' && s[j] == '.';
    assert SplitsAt(s, i, j);
  }

  /** Every match splits as L + "@" + D + "." + T with non-empty plain parts. */
  lemma EmailToParts(s: string) returns (l: string, d: string, t: string)
    requires MatchesEmail(s)
    ensures s == l + "@" + d + "." + t
    ensures |l| > 0 && |d| > 0 && |t| > 0
    ensures AllPlain(l) && AllPlain(d) && AllPlain(t)
  {
    var i, j :| 0 < i < j < |s| && SplitsAt(s, i, j);
    l, d, t := s[..i], s[i + 1..j], s[j + 1..];
    assert s == s[..i] + [s[i]] + s[i + 1..j] + [s[j]] + s[j + 1..];
  }

  lemma PlainHasNoAt(s: string)
    requires AllPlain(s)
    ensures multiset(s)['@'] == 0
  {
  }

  /** An accepted e-mail has exactly one '@' and no white space. */
  lemma AcceptedEmailShape(s: string)
    requires MatchesEmail(s)
    ensures multiset(s)['@'] == 1
    ensures forall k :: 0 <= k < |s| ==> !IsSpace(s[k])
  {
    var l, d, t := EmailToParts(s);
    PlainHasNoAt(l);
    PlainHasNoAt(d);
    PlainHasNoAt(t);
    assert multiset(s) == multiset(l) + multiset("@") + multiset(d) + multiset(".") + multiset(t);
    forall k | 0 <= k < |s| ensures !IsSpace(s[k]) {
      if k < |l| {
        assert s[k] == l[k];
      } else if k == |l| {
        assert s[k] == '@';
      } else if k < |l| + 1 + |d| {
        assert s[k] == d[k - |l| - 1];
      } else if k == |l| + 1 + |d| {
        assert s[k] == '.';
      } else {
        assert s[k] == t[k - |l| - 2 - |d|];
      }
    }
  }

  /** A match has at least one '@' and one '.'. */
  lemma MatchNeedsAtAndDot(s: string)
    ensures '@' !in s ==> !MatchesEmail(s)
    ensures '.' !in s ==> !MatchesEmail(s)
  {
  }

  lemma EmailAcceptedExamples()
    ensures MatchesEmail("foo@bar.com")
    ensures MatchesEmail("a@b.c.d")
  {
    assert SplitsAt("foo@bar.com", 3, 7);
    assert SplitsAt("a@b.c.d", 1, 5);
  }

  lemma EmailRejectedExamples()
    ensures !MatchesEmail("foo@bar")
    ensures !MatchesEmail("foo.com")
  {
  }

  // ---------------------------------------------------------------------------
  // The password comparison

  /** A digit-only password passes exactly when its decimal value is at least 6. */
  lemma DigitPasswordIff(s: string)
    requires AllDigits(s)
    ensures PasswordTest(Str(s)) <==> DecimalValue(s) >= 6
  {
  }

  lemma {:induction false} LeadingDigitBound(s: string)
    requires AllDigits(s) && |s| >= 1 && s[0] != '0'
    ensures DecimalValue(s) >= 1
  {
    if |s| > 1 {
      LeadingDigitBound(s[..|s| - 1]);
    }
  }

  /** Any digit-only password of two or more digits without a leading zero passes, however short. */
  lemma LongDigitPasswordPasses(s: string)
    requires AllDigits(s) && |s| >= 2 && s[0] != '0'
    ensures PasswordTest(Str(s))
  {
    LeadingDigitBound(s[..|s| - 1]);
  }

  /** "123456" and "12" pass, "5" fails, and so do "abcdef" and "" despite their lengths. */
  lemma PasswordExamples()
    ensures PasswordTest(Str("123456"))
    ensures PasswordTest(Str("12"))
    ensures !PasswordTest(Str("5"))
    ensures !PasswordTest(Str("abcdef"))
    ensures !PasswordTest(Str(""))
  {
  }

  /** `password: ""` is present, so it passes the key check and fails only the comparison. */
  lemma EmptyPasswordIsPresent(email: JsValue)
    requires EmailTest(email)
    ensures ValidateRequiredFields(map["email" := email, "password" := Str("")]) == Next
    ensures ValidateFieldFormat(map["email" := email, "password" := Str("")]) == Reject(BadRequest, PasswordTooShort)
  {
  }

  /** The login of { email: "a@a.com", password: "123456" } passes both middlewares. */
  lemma LoginExample()
    ensures ValidateRequiredFields(map["email" := Str("a@a.com"), "password" := Str("123456")]) == Next
    ensures ValidateFieldFormat(map["email" := Str("a@a.com"), "password" := Str("123456")]) == Next
  {
    assert SplitsAt("a@a.com", 1, 3);
    PasswordExamples();
  }
}
