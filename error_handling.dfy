/** utils/errorHandling.ts: the ordered classifier that turns a backend
    error into a user-facing record, and the two lower-cased keyword tests. */
module ErrorHandling {
  import opened Wrappers
  import opened Text

  /** The fields of the backend error object the classifier reads; a field
      that is absent is `None`. */
  datatype BackendError = BackendError(message: Option<string>, code: Option<string>)

  /** `x || ''` for an optional string. */
  function OrEmpty(v: Option<string>): (s: string)
    ensures v.Some? && v.value != "" ==> s == v.value
    ensures v.None? ==> s == ""
  {
    match v
    case None => ""
    case Some(x) => x
  }

  /** `error?.message || ''`. */
  function MessageOf(error: Option<BackendError>): string {
    match error
    case None => ""
    case Some(e) => OrEmpty(e.message)
  }

  /** `error?.code || ''`. */
  function CodeOf(error: Option<BackendError>): string {
    match error
    case None => ""
    case Some(e) => OrEmpty(e.code)
  }

  datatype ErrorCode =
    | InvalidCredentials | UserExists | EmailNotConfirmed | UsernameExists
    | DuplicateKey | ForeignKeyViolation | NetworkError | RlsViolation | UnknownError
  {
    /** The `code` string of the returned record. */
    function Name(): (s: string)
      ensures s != ""
    {
      match this
      case InvalidCredentials => "INVALID_CREDENTIALS"
      case UserExists => "USER_EXISTS"
      case EmailNotConfirmed => "EMAIL_NOT_CONFIRMED"
      case UsernameExists => "USERNAME_EXISTS"
      case DuplicateKey => "DUPLICATE_KEY"
      case ForeignKeyViolation => "FOREIGN_KEY_VIOLATION"
      case NetworkError => "NETWORK_ERROR"
      case RlsViolation => "RLS_VIOLATION"
      case UnknownError => "UNKNOWN_ERROR"
    }
  }

  /** A message is either a translation key passed to `t` or literal text. */
  datatype Message = Translated(key: string) | Literal(text: string)

  /** The returned record; the title is always a translation key. */
  datatype AppError = AppError(titleKey: string, message: Message, code: ErrorCode)

  const DefaultMessage: string := "An unexpected error occurred. Please try again."

  /** The ordered chain of tests: the first that matches decides the code. */
  function Classify(msg: string, code: string): ErrorCode {
    if Contains(msg, "Invalid login credentials") then InvalidCredentials
    else if Contains(msg, "User already registered") || Contains(msg, "already registered") then UserExists
    else if Contains(msg, "Email not confirmed") then EmailNotConfirmed
    else if code == "23505" || Contains(msg, "duplicate key") then
      if Contains(msg, "users_username_key") then UsernameExists
      else if Contains(msg, "users_pkey") || Contains(msg, "users_email_key") then UserExists
      else DuplicateKey
    else if code == "23503" then ForeignKeyViolation
    else if Contains(msg, "network") || Contains(msg, "fetch") || Contains(msg, "Failed to fetch") then NetworkError
    else if Contains(msg, "row-level security") || Contains(msg, "violates row level security") then RlsViolation
    else UnknownError
  }

  /** The title and message each code is reported with. */
  function Report(c: ErrorCode, msg: string): (r: AppError)
    ensures r.code == c
    ensures r.message.Translated? || r.message.text != ""
    ensures c == UnknownError ==> r.message == Literal(if msg != "" then msg else DefaultMessage)
  {
    match c
    case InvalidCredentials =>
      AppError("auth.login.errors.loginFailed", Translated("auth.login.errors.invalidCredentials"), c)
    case UserExists =>
      AppError("auth.signup.errors.signupFailed", Translated("auth.signup.errors.userExists"), c)
    case EmailNotConfirmed =>
      AppError("common.error", Literal("Please confirm your email before logging in."), c)
    case UsernameExists =>
      AppError("auth.signup.errors.signupFailed", Translated("auth.signup.errors.usernameExists"), c)
    case DuplicateKey =>
      AppError("common.error", Literal("This record already exists."), c)
    case ForeignKeyViolation =>
      AppError("common.error", Literal("Referenced record does not exist."), c)
    case NetworkError =>
      AppError("common.error", Translated("auth.login.errors.networkError"), c)
    case RlsViolation =>
      AppError("common.error", Literal("Permission denied. Please contact support."), c)
    case UnknownError =>
      AppError("common.error", Literal(if msg != "" then msg else DefaultMessage), c)
  }

  /** parseSupabaseError. Every result carries a non-empty code name and a
      non-empty message; the generic result passes the original message
      through, or a fixed text when there is none. */
  function ParseSupabaseError(error: Option<BackendError>): (r: AppError)
    ensures r.code.Name() != ""
    ensures r.message.Translated? || r.message.text != ""
    ensures r.code == UnknownError ==>
              r.message == Literal(if MessageOf(error) != "" then MessageOf(error) else DefaultMessage)
  {
    var msg := MessageOf(error);
    Report(Classify(msg, CodeOf(error)), msg)
  }

  /** isNetworkError. */
  predicate IsNetworkError(error: Option<BackendError>) {
    var m := Lower(MessageOf(error));
    Contains(m, "network") || Contains(m, "fetch") || Contains(m, "connection") || Contains(m, "timeout")
  }

  /** isAuthError. */
  predicate IsAuthError(error: Option<BackendError>) {
    var m := Lower(MessageOf(error));
    Contains(m, "credentials") || Contains(m, "unauthorized") || Contains(m, "not authenticated")
      || Contains(m, "session")
  }

  // ---------------------------------------------------------------------------
  // Properties
  // ---------------------------------------------------------------------------

  /** The credentials rule is tested first: it decides the result exactly
      when the message contains the phrase, whatever the code says. */
  lemma InvalidCredentialsFirst(error: Option<BackendError>)
    ensures (ParseSupabaseError(error).code == InvalidCredentials)
              <==> Contains(MessageOf(error), "Invalid login credentials")
  {
  }

  /** The "User already registered" test adds nothing to the "already
      registered" test beside it. */
  lemma AlreadyRegisteredSubsumes(msg: string)
    requires Contains(msg, "User already registered")
    ensures Contains(msg, "already registered")
  {
    assert "User " + "already registered" == "User already registered";
    ContainsSuffix(msg, "User ", "already registered");
  }

  /** Likewise "Failed to fetch" adds nothing to "fetch". */
  lemma FailedToFetchSubsumes(msg: string)
    requires Contains(msg, "Failed to fetch")
    ensures Contains(msg, "fetch")
  {
    assert "Failed to " + "fetch" == "Failed to fetch";
    ContainsSuffix(msg, "Failed to ", "fetch");
  }

  /** The rules in order: each applies when every earlier one did not. */
  lemma ClassifierOrder(msg: string, code: string)
    requires !Contains(msg, "Invalid login credentials")
    ensures Contains(msg, "already registered") ==> Classify(msg, code) == UserExists
    ensures (!Contains(msg, "already registered") && Contains(msg, "Email not confirmed"))
              ==> Classify(msg, code) == EmailNotConfirmed
    ensures (!Contains(msg, "already registered") && !Contains(msg, "Email not confirmed")
              && (code == "23505" || Contains(msg, "duplicate key")))
              ==> Classify(msg, code) in {UsernameExists, UserExists, DuplicateKey}
  {
    if Contains(msg, "User already registered") {
      AlreadyRegisteredSubsumes(msg);
    }
  }

  /** Within the duplicate-key rule the username constraint wins over the
      primary-key and e-mail constraints. */
  lemma DuplicateKeyConstraints(msg: string, code: string)
    requires !Contains(msg, "Invalid login credentials") && !Contains(msg, "already registered")
    requires !Contains(msg, "Email not confirmed")
    requires code == "23505" || Contains(msg, "duplicate key")
    ensures Contains(msg, "users_username_key") ==> Classify(msg, code) == UsernameExists
    ensures (!Contains(msg, "users_username_key") && Contains(msg, "users_email_key"))
              ==> Classify(msg, code) == UserExists
    ensures (!Contains(msg, "users_username_key") && Contains(msg, "users_pkey"))
              ==> Classify(msg, code) == UserExists
    ensures (!Contains(msg, "users_username_key") && !Contains(msg, "users_pkey")
              && !Contains(msg, "users_email_key")) ==> Classify(msg, code) == DuplicateKey
  {
    if Contains(msg, "User already registered") {
      AlreadyRegisteredSubsumes(msg);
    }
  }

  /** A foreign-key result needs code 23503 and no "duplicate key" in the
      message, since the duplicate-key rule is tested first. */
  lemma ForeignKeyAfterDuplicate(error: Option<BackendError>)
    ensures ParseSupabaseError(error).code == ForeignKeyViolation ==>
              CodeOf(error) == "23503" && !Contains(MessageOf(error), "duplicate key")
    ensures Contains(MessageOf(error), "duplicate key") ==>
              ParseSupabaseError(error).code != ForeignKeyViolation
    ensures (!Contains(MessageOf(error), "Invalid login credentials")
              && !Contains(MessageOf(error), "already registered")
              && !Contains(MessageOf(error), "Email not confirmed")
              && !Contains(MessageOf(error), "duplicate key") && CodeOf(error) == "23503")
              ==> ParseSupabaseError(error).code == ForeignKeyViolation
  {
    if Contains(MessageOf(error), "User already registered") {
      AlreadyRegisteredSubsumes(MessageOf(error));
    }
  }

  /** Past the account and key rules, the network keywords come before the
      row-level-security phrases, and a message with neither is generic. */
  lemma LaterRules(msg: string, code: string)
    requires !Contains(msg, "Invalid login credentials") && !Contains(msg, "already registered")
    requires !Contains(msg, "Email not confirmed") && !Contains(msg, "duplicate key")
    requires code != "23505" && code != "23503"
    ensures (Contains(msg, "network") || Contains(msg, "fetch")) <==> Classify(msg, code) == NetworkError
    ensures (!Contains(msg, "network") && !Contains(msg, "fetch")
              && (Contains(msg, "row-level security") || Contains(msg, "violates row level security")))
              <==> Classify(msg, code) == RlsViolation
  {
    if Contains(msg, "User already registered") {
      AlreadyRegisteredSubsumes(msg);
    }
    if Contains(msg, "Failed to fetch") {
      FailedToFetchSubsumes(msg);
    }
  }

  /** Whatever the classifier files as a network error `isNetworkError`
      also accepts. */
  lemma NetworkClassifiedIsNetworkError(error: Option<BackendError>)
    requires ParseSupabaseError(error).code == NetworkError
    ensures IsNetworkError(error)
  {
    NetworkRuleMatched(MessageOf(error), CodeOf(error));
    NetworkKeywordIsNetworkError(error);
  }

  /** A network classification means the message holds one of the rule's
      keywords. */
  lemma NetworkRuleMatched(msg: string, code: string)
    requires Classify(msg, code) == NetworkError
    ensures Contains(msg, "network") || Contains(msg, "fetch") || Contains(msg, "Failed to fetch")
  {
  }

  lemma NetworkKeywordIsNetworkError(error: Option<BackendError>)
    requires var msg := MessageOf(error);
      Contains(msg, "network") || Contains(msg, "fetch") || Contains(msg, "Failed to fetch")
    ensures IsNetworkError(error)
  {
    var msg := MessageOf(error);
    assert Lower("network") == "network";
    assert Lower("fetch") == "fetch";
    if Contains(msg, "network") {
      ContainsLower(msg, "network");
    } else {
      if !Contains(msg, "fetch") {
        FailedToFetchSubsumes(msg);
      }
      ContainsLower(msg, "fetch");
    }
  }

  /** Whatever the classifier files as invalid credentials `isAuthError`
      also accepts. */
  lemma InvalidCredentialsIsAuthError(error: Option<BackendError>)
    requires ParseSupabaseError(error).code == InvalidCredentials
    ensures IsAuthError(error)
  {
    InvalidCredentialsFirst(error);
    CredentialsPhraseIsAuthError(error);
  }

  lemma CredentialsPhraseIsAuthError(error: Option<BackendError>)
    requires Contains(MessageOf(error), "Invalid login credentials")
    ensures IsAuthError(error)
  {
    var msg := MessageOf(error);
    assert "Invalid login " + "credentials" == "Invalid login credentials";
    ContainsSuffix(msg, "Invalid login ", "credentials");
    ContainsLower(msg, "credentials");
    assert Lower("credentials") == "credentials";
  }

  /** A message lacking one character of every keyword, and with no code,
      matches no rule and falls through to the generic error. */
  lemma NoKeywordFallsThrough(msg: string)
    requires 'I' !in msg && 'U' !in msg && 'y' !in msg && 'm' !in msg && 'p' !in msg
    requires 'n' !in msg && 'h' !in msg && 'F' !in msg && 'v' !in msg
    ensures Classify(msg, "") == UnknownError
  {
    NoAccountKeyword(msg);
    NoTransportKeyword(msg);
  }

  lemma NoAccountKeyword(msg: string)
    requires 'I' !in msg && 'U' !in msg && 'y' !in msg && 'm' !in msg && 'p' !in msg
    ensures !Contains(msg, "Invalid login credentials") && !Contains(msg, "User already registered")
    ensures !Contains(msg, "already registered") && !Contains(msg, "Email not confirmed")
    ensures !Contains(msg, "duplicate key")
  {
    NotContainsMissingChar(msg, "Invalid login credentials", 'I');
    NotContainsMissingChar(msg, "User already registered", 'U');
    NotContainsMissingChar(msg, "already registered", 'y');
    NotContainsMissingChar(msg, "Email not confirmed", 'm');
    NotContainsMissingChar(msg, "duplicate key", 'p');
  }

  lemma NoTransportKeyword(msg: string)
    requires 'n' !in msg && 'h' !in msg && 'F' !in msg && 'v' !in msg
    ensures !Contains(msg, "network") && !Contains(msg, "fetch") && !Contains(msg, "Failed to fetch")
    ensures !Contains(msg, "row-level security") && !Contains(msg, "violates row level security")
  {
    NotContainsMissingChar(msg, "network", 'n');
    NotContainsMissingChar(msg, "fetch", 'h');
    NotContainsMissingChar(msg, "Failed to fetch", 'F');
    NotContainsMissingChar(msg, "row-level security", 'v');
    NotContainsMissingChar(msg, "violates row level security", 'v');
  }

  /** The classifier's network test is case-sensitive and `isNetworkError`'s
      is not: "Network Error" matches no rule of the classifier and
      is reported as an unknown error ... */
  lemma NetworkCaseSensitiveClassifier(msg: string)
    requires msg == "Network Error"
    ensures ParseSupabaseError(Some(BackendError(Some(msg), None)))
              == AppError("common.error", Literal(msg), UnknownError)
  {
    CapitalNetworkUnclassified(msg);
  }

  lemma CapitalNetworkUnclassified(msg: string)
    requires msg == "Network Error"
    ensures Classify(msg, "") == UnknownError
  {
    LacksKeywordChars(msg);
    NoKeywordFallsThrough(msg);
  }

  lemma LacksKeywordChars(msg: string)
    requires msg == "Network Error"
    ensures 'I' !in msg && 'U' !in msg && 'y' !in msg && 'm' !in msg && 'p' !in msg
    ensures 'n' !in msg && 'h' !in msg && 'F' !in msg && 'v' !in msg
  {
  }

  /** ... while `isNetworkError`, which lower-cases first, accepts it. */
  lemma NetworkCaseInsensitiveTest(msg: string)
    requires msg == "Network Error"
    ensures IsNetworkError(Some(BackendError(Some(msg), None)))
  {
    assert Lower(msg) == "network" + " error";
    assert OccursAt(Lower(msg), "network", 0);
  }

  /** With no error object or no message, neither keyword test fires. */
  lemma NoMessageNoKeywords(error: Option<BackendError>)
    requires MessageOf(error) == ""
    ensures !IsNetworkError(error) && !IsAuthError(error)
  {
    assert Lower("") == "";
  }

  /** With no error object at all the result is the generic error with the
      fixed text. */
  lemma MissingErrorIsUnknown()
    ensures ParseSupabaseError(None) == AppError("common.error", Literal(DefaultMessage), UnknownError)
  {
    NoKeywordFallsThrough("");
  }
}
