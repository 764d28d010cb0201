/** The password check of the identity connector (dex_password/src/internal/service/auth.go):
    normalise the e-mail address, look the user up, compare the password with the stored
    hash. */
module AuthService {
  import opened Optional
  import opened Text

  /** A stored user as the repository returns it. */
  datatype User = User(id: int, email: string, hash: string)

  const ErrInvalidCredentials := "invalid credentials"

  /** Authenticate's (id, error) pair. */
  datatype AuthResult = AuthResult(id: int, err: Option<string>)

  /** The address the repository is asked for: lower-cased, then trimmed. */
  function NormalizeEmail(email: string): (e: string)
    ensures e == [] || (!IsSpace(e[0]) && !IsSpace(e[|e| - 1]))
    ensures NoUpper(e)
  {
    TrimSpace(ToLower(email))
  }

  /** Authenticate, given the repository's lookup by address (an error or the user) and the
      password-hash comparison. */
  function Authenticate(email: string, password: string,
                        lookup: string -> Result<User>, compare: (string, string) -> bool): (r: AuthResult)
    ensures r.err.None? <==>
      && NormalizeEmail(email) != "" && password != ""
      && lookup(NormalizeEmail(email)).Ok?
      && compare(lookup(NormalizeEmail(email)).value.hash, password)
    ensures r.err.None? ==> r.id == lookup(NormalizeEmail(email)).value.id
    ensures r.err.Some? ==> r == AuthResult(0, Some(ErrInvalidCredentials))
  {
    var e := NormalizeEmail(email);
    if e == "" || password == "" then AuthResult(0, Some(ErrInvalidCredentials))
    else match lookup(e)
      case Err(_) => AuthResult(0, Some(ErrInvalidCredentials))
      case Ok(u) =>
        if !compare(u.hash, password) then AuthResult(0, Some(ErrInvalidCredentials))
        else AuthResult(u.id, None)
  }

  /** An empty address or password is refused before the repository is asked: the answer is
      the same whatever the repository holds. */
  lemma EmptyInputNeverQueries(email: string, password: string,
                               lookup1: string -> Result<User>, lookup2: string -> Result<User>,
                               compare: (string, string) -> bool)
    requires NormalizeEmail(email) == "" || password == ""
    ensures Authenticate(email, password, lookup1, compare) == Authenticate(email, password, lookup2, compare)
    ensures Authenticate(email, password, lookup1, compare) == AuthResult(0, Some(ErrInvalidCredentials))
  {
  }

  /** Only the normalised address is looked up: two repositories that agree on it give the
      same answer. */
  lemma QueriesNormalizedEmail(email: string, password: string,
                               lookup1: string -> Result<User>, lookup2: string -> Result<User>,
                               compare: (string, string) -> bool)
    requires lookup1(NormalizeEmail(email)) == lookup2(NormalizeEmail(email))
    ensures Authenticate(email, password, lookup1, compare) == Authenticate(email, password, lookup2, compare)
  {
  }

  /** Addresses that differ only in the case of ASCII letters authenticate alike. */
  lemma CaseInsensitiveEmail(email1: string, email2: string, password: string,
                             lookup: string -> Result<User>, compare: (string, string) -> bool)
    requires ToLower(email1) == ToLower(email2)
    ensures Authenticate(email1, password, lookup, compare) == Authenticate(email2, password, lookup, compare)
  {
  }
}
