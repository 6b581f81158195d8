/** app/auth/signup.tsx: the guards handleSignUp runs before calling
    signUp. The alerts, the loading flag and the asynchronous call itself
    are not modelled; the outcome says which guard stopped the form or that
    signUp was called, and with what. */
module SignUp {
  import opened Wrappers
  import opened Text

  /** The characters JavaScript's `\s` class matches. */
  predicate IsSpace(c: char) {
    || '\U{9}' <= c <= '\U{D}'
    || c == ' ' || c == '\U{A0}' || c == '\U{1680}'
    || '\U{2000}' <= c <= '\U{200A}'
    || c == '\U{2028}' || c == '\U{2029}' || c == '\U{202F}' || c == '\U{205F}'
    || c == '\U{3000}' || c == '\U{FEFF}'
  }

  /** One `[^\s@]+` run. */
  predicate Segment(s: string) {
    |s| > 0 && forall i :: 0 <= i < |s| ==> !IsSpace(s[i]) && s[i] != '@'
  }

  /** `/^[^\s@]+@[^\s@]+\.[^\s@]+$/.test(email)`: the text splits as a
      segment, "@", a segment, ".", a segment. */
  ghost predicate MatchesEmailPattern(email: string) {
    exists at, dot :: 0 < at < dot < |email| && email[at] == '@' && email[dot] == '.'
      && Segment(email[..at]) && Segment(email[at + 1..dot]) && Segment(email[dot + 1..])
  }

  /** The index of the first `c`, if any. */
  function IndexOf(s: string, c: char): (r: Option<nat>)
    ensures r.Some? ==> r.value < |s| && s[r.value] == c && c !in s[..r.value]
    ensures r.None? ==> c !in s
  {
    if s == [] then None
    else if s[0] == c then Some(0)
    else match IndexOf(s[1..], c)
      case None => None
      case Some(i) => assert s[..i + 1] == [s[0]] + s[1..][..i]; Some(i + 1)
  }

  /** The same test written as a scan: no whitespace, a single "@" that is
      not the first character, and after it a "." that is neither the first
      nor the last character. */
  function IsValidEmail(email: string): bool {
    (forall i :: 0 <= i < |email| ==> !IsSpace(email[i]))
    && match IndexOf(email, '@')
       case None => false
       case Some(at) =>
         var domain := email[at + 1..];
         at > 0 && '@' !in domain && exists p :: 0 < p < |domain| - 1 && domain[p] == '.'
  }

  /** What the scan accepts matches the pattern. */
  lemma EmailCheckSound(email: string)
    requires IsValidEmail(email)
    ensures MatchesEmailPattern(email)
  {
    var at := IndexOf(email, '@').value;
    var domain := email[at + 1..];
    var p :| 0 < p < |domain| - 1 && domain[p] == '.';
    var dot := at + 1 + p;
    assert email[at + 1..dot] == domain[..p];
    assert email[dot + 1..] == domain[p + 1..];
    assert Segment(email[..at]);
    assert Segment(email[at + 1..dot]);
    assert Segment(email[dot + 1..]);
  }

  /** A text split by `at` and `dot` into three segments has no whitespace
      and no "@" besides the one at `at`. */
  lemma SegmentsCoverText(email: string, at: int, dot: int)
    requires 0 < at < dot < |email| && email[at] == '@' && email[dot] == '.'
    requires Segment(email[..at]) && Segment(email[at + 1..dot]) && Segment(email[dot + 1..])
    ensures forall i :: 0 <= i < |email| ==> !IsSpace(email[i]) && (email[i] == '@' ==> i == at)
  {
    forall i | 0 <= i < |email|
      ensures !IsSpace(email[i]) && (email[i] == '@' ==> i == at)
    {
      if i < at { assert email[i] == email[..at][i]; }
      else if at < i < dot { assert email[i] == email[at + 1..dot][i - at - 1]; }
      else if dot < i { assert email[i] == email[dot + 1..][i - dot - 1]; }
    }
  }

  /** What the pattern matches the scan accepts. */
  lemma EmailCheckComplete(email: string)
    requires MatchesEmailPattern(email)
    ensures IsValidEmail(email)
  {
    var at, dot :| 0 < at < dot < |email| && email[at] == '@' && email[dot] == '.'
      && Segment(email[..at]) && Segment(email[at + 1..dot]) && Segment(email[dot + 1..]);
    SegmentsCoverText(email, at, dot);
    assert '@' !in email[..at];
    assert IndexOf(email, '@') == Some(at);
    var domain := email[at + 1..];
    assert '@' !in domain;
    assert domain[dot - at - 1] == '.';
  }

  /** The scan accepts exactly what the pattern matches. */
  lemma EmailCheckMatchesPattern(email: string)
    ensures IsValidEmail(email) <==> MatchesEmailPattern(email)
  {
    if IsValidEmail(email) {
      EmailCheckSound(email);
    }
    if MatchesEmailPattern(email) {
      EmailCheckComplete(email);
    }
  }

  /** "a@b.c" and "a@b.c.d" pass. */
  lemma ValidEmailExamples(e1: string, e2: string)
    requires e1 == "a@b.c" && e2 == "a@b.c.d"
    ensures IsValidEmail(e1) && IsValidEmail(e2)
  {
    assert IndexOf(e1, '@') == Some(1);
    assert e1[2..][1] == '.';
    assert IndexOf(e2, '@') == Some(1);
    assert e2[2..][1] == '.';
  }

  /** A missing dot, a dot right after "@" or at the end, a second "@" and
      a space each fail. */
  lemma InvalidEmailExamples(e1: string, e2: string, e3: string, e4: string, e5: string)
    requires e1 == "a@b" && e2 == "a@.c" && e3 == "a@b." && e4 == "a@b@c.d" && e5 == "a b@c.d"
    ensures !IsValidEmail(e1) && !IsValidEmail(e2) && !IsValidEmail(e3) && !IsValidEmail(e4) && !IsValidEmail(e5)
  {
    assert IndexOf(e1, '@') == Some(1);
    assert IndexOf(e2, '@') == Some(1);
    assert e2[2..] == ".c";
    assert IndexOf(e3, '@') == Some(1);
    assert e3[2..] == "b.";
    assert IndexOf(e4, '@') == Some(1);
    assert e4[2..][1] == '@';
    assert e5[1] == ' ';
  }

  // ---------------------------------------------------------------------------
  // handleSignUp
  // ---------------------------------------------------------------------------

  /** Where handleSignUp stops, or the call it makes. */
  datatype Outcome =
    | FillAllFields
    | PasswordTooShort
    | InvalidEmail
    | CallSignUp(email: string, password: string, username: string)

  const MinPasswordLength: nat := 6

  /** The guards in order: an empty field, a short password, a malformed
      email; otherwise signUp(email, password, username). */
  function HandleSignUp(username: string, email: string, password: string): (o: Outcome)
    ensures o.CallSignUp? ==> o == CallSignUp(email, password, username)
  {
    if username == "" || email == "" || password == "" then FillAllFields
    else if |password| < MinPasswordLength then PasswordTooShort
    else if !IsValidEmail(email) then InvalidEmail
    else CallSignUp(email, password, username)
  }

  /** An empty field always wins; a short password is reported before a bad
      email; signUp is called exactly when every check passes, with the
      fields as typed (the username is not trimmed). */
  lemma HandleSignUpGuards(username: string, email: string, password: string)
    ensures (username == "" || email == "" || password == "") <==> HandleSignUp(username, email, password) == FillAllFields
    ensures HandleSignUp(username, email, password) == PasswordTooShort <==>
      username != "" && email != "" && password != "" && |password| < 6
    ensures HandleSignUp(username, email, password) == InvalidEmail <==>
      username != "" && |password| >= 6 && email != "" && !MatchesEmailPattern(email)
    ensures HandleSignUp(username, email, password).CallSignUp? <==>
      username != "" && |password| >= 6 && MatchesEmailPattern(email)
  {
    EmailCheckMatchesPattern(email);
  }

  /** A short password is reported before a malformed email, and a
      six-character password passes the length check. */
  lemma HandleSignUpOrderExamples(bad: string, short: string, six: string)
    requires bad == "no-email" && short == "12345" && six == "123456"
    ensures HandleSignUp("", bad, six) == FillAllFields
    ensures HandleSignUp("bob", bad, short) == PasswordTooShort
    ensures HandleSignUp("bob", bad, six) == InvalidEmail
  {
    assert '@' !in bad;
    assert IndexOf(bad, '@') == None;
  }

  /** The username reaches signUp untrimmed. */
  lemma HandleSignUpCallExample(good: string, six: string)
    requires good == "a@b.c" && six == "123456"
    ensures HandleSignUp(" bob ", good, six) == CallSignUp(good, six, " bob ")
  {
    ValidEmailExamples(good, "a@b.c.d");
  }
}
