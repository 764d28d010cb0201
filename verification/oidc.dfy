/** Token checks and provider discovery of backend/src/oidc/oidc.go: the audience and expiry
    checks layered on the library's signature check, the bearer-header middleware, the
    error texts, and the retry schedule used while the identity provider comes up. */
module Oidc {
  import opened Optional
  import opened Strconv
  import opened Text
  import opened Http

  /** The two claims VerifyToken reads from a token the library accepted. */
  datatype Claims = Claims(aud: string, exp: int)

  /** The errors VerifyToken returns: the library's own (from the signature check or the
      claim decoding), ErrInvalidAudience and ErrTokenExpired. */
  datatype VerifyError = Underlying(text: string) | InvalidAudience(expected: string, got: string) | TokenExpired

  datatype Verdict = Accepted(claims: Claims) | Refused(err: VerifyError)

  /** The Error() texts. The library's errors keep their own text. */
  function ErrorText(e: VerifyError): (s: string)
    ensures e.InvalidAudience? ==> HasPrefix(s, "invalid audience: expected ") && s != "token expired"
    ensures e.TokenExpired? ==> s == "token expired"
    ensures e.Underlying? ==> s == e.text
  {
    match e
    case Underlying(t) => t
    case InvalidAudience(expected, got) => "invalid audience: expected " + expected + " got " + got
    case TokenExpired => "token expired"
  }

  /** Both errors of this package have a non-empty text, whatever the audiences. */
  lemma OwnErrorsHaveText(expected: string, got: string)
    ensures ErrorText(InvalidAudience(expected, got)) != ""
    ensures ErrorText(TokenExpired) != ""
    ensures ErrorText(InvalidAudience(expected, got)) != ErrorText(TokenExpired)
  {
  }

  /** VerifyToken, given the library's verdict on the signature (verifyErr), the result of
      decoding the claims, the configured audience and the current Unix time. */
  function VerifyToken(verifyErr: Option<string>, decoded: Result<Claims>, audience: string, now: int): (r: Verdict)
    ensures verifyErr.Some? ==> r == Refused(Underlying(verifyErr.value))
    ensures verifyErr.None? && decoded.Err? ==> r == Refused(Underlying(decoded.error))
    ensures verifyErr.None? && decoded.Ok? && decoded.value.aud != audience ==>
      r == Refused(InvalidAudience(audience, decoded.value.aud))
    ensures verifyErr.None? && decoded.Ok? && decoded.value.aud == audience && now > decoded.value.exp ==>
      r == Refused(TokenExpired)
    ensures r.Accepted? ==> verifyErr.None? && decoded == Ok(r.claims)
  {
    if verifyErr.Some? then Refused(Underlying(verifyErr.value))
    else if decoded.Err? then Refused(Underlying(decoded.error))
    else if decoded.value.aud != audience then Refused(InvalidAudience(audience, decoded.value.aud))
    else if now > decoded.value.exp then Refused(TokenExpired)
    else Accepted(decoded.value)
  }

  /** A token the library accepts passes exactly when its audience is the configured one and
      it has not expired; a token whose expiry is the current second still passes. */
  lemma VerifyTokenAccepts(claims: Claims, audience: string, now: int)
    ensures VerifyToken(None, Ok(claims), audience, now).Accepted? <==> claims.aud == audience && now <= claims.exp
    ensures claims.aud == audience ==> VerifyToken(None, Ok(claims), audience, claims.exp) == Accepted(claims)
    ensures claims.aud == audience ==> VerifyToken(None, Ok(claims), audience, claims.exp + 1) == Refused(TokenExpired)
  {
  }

  /** AuthMiddleware: the token of an Authorization header, or None when the header is empty
      or lacks the "Bearer " prefix. What follows the prefix may be empty. */
  function MiddlewareToken(auth: string): (r: Option<string>)
    ensures r.Some? <==> HasPrefix(auth, "Bearer ")
    ensures r.Some? ==> "Bearer " + r.value == auth
  {
    if auth == "" || !HasPrefix(auth, "Bearer ") then None else Some(TrimPrefix(auth, "Bearer "))
  }

  /** The bare prefix passes the header check, with an empty token. */
  lemma BarePrefixGivesEmptyToken()
    ensures MiddlewareToken("Bearer ") == Some("")
  {
  }

  /** What VerifyToken works from for a raw token: the library's signature check and its
      claim decoding, each as a function of the token, the configured audience and the
      current Unix time. */
  datatype Verifier = Verifier(signatureErr: string -> Option<string>, claims: string -> Result<Claims>,
                               audience: string, now: int)

  /** A token this verifier admits: the library accepts its signature and decodes its
      claims, the audience is the configured one, and it has not expired. */
  predicate Admits(v: Verifier, token: string) {
    && v.signatureErr(token).None?
    && v.claims(token).Ok?
    && v.claims(token).value.aud == v.audience
    && v.now <= v.claims(token).value.exp
  }

  /** VerifyToken on a raw token. */
  function Check(v: Verifier, token: string): (r: Verdict)
    ensures r.Accepted? <==> Admits(v, token)
    ensures r.Accepted? ==> r.claims == v.claims(token).value
  {
    VerifyToken(v.signatureErr(token), v.claims(token), v.audience, v.now)
  }

  /** The middleware's answer: None lets the request through to the handler; otherwise the
      401 it writes. */
  function Middleware(auth: string, v: Verifier): (r: Option<Reply>)
    ensures r.None? <==> MiddlewareToken(auth).Some? && Admits(v, MiddlewareToken(auth).value)
    ensures MiddlewareToken(auth).None? ==> r == Some(Reply(StatusUnauthorized, Text("Authorization header required")))
    ensures MiddlewareToken(auth).Some? && !Admits(v, MiddlewareToken(auth).value) ==>
      r == Some(Reply(StatusUnauthorized, Text("Invalid token")))
  {
    match MiddlewareToken(auth)
    case None => Some(Reply(StatusUnauthorized, Text("Authorization header required")))
    case Some(token) =>
      if Check(v, token).Refused? then Some(Reply(StatusUnauthorized, Text("Invalid token"))) else None
  }

  /** A bearer token for another audience, or one whose expiry has passed, is answered with
      401 "Invalid token" even though the library accepts it. */
  lemma MiddlewareRefusesForeignOrExpired(token: string, v: Verifier)
    requires v.signatureErr(token).None? && v.claims(token).Ok?
    requires v.claims(token).value.aud != v.audience || v.now > v.claims(token).value.exp
    ensures Middleware("Bearer " + token, v) == Some(Reply(StatusUnauthorized, Text("Invalid token")))
  {
    assert HasPrefix("Bearer " + token, "Bearer ");
    assert MiddlewareToken("Bearer " + token) == Some(token);
  }

  const DefaultMaxAttempts: nat := 8
  const FallbackAttempts: nat := 4
  const MaxPrimaryDelayMs: nat := 30000

  /** maxAttempts: the configured value when it parses as a positive integer, 8 otherwise. */
  function MaxAttemptsFrom(setting: string): (n: nat)
    ensures n > 0
    ensures n == DefaultMaxAttempts || (Atoi(setting).Some? && Atoi(setting).value == n)
    ensures Atoi(setting).Some? && Atoi(setting).value > 0 <==> n == Atoi(setting).GetOr(0)
  {
    match Atoi(setting)
    case Some(v) => if v > 0 then v else DefaultMaxAttempts
    case None => DefaultMaxAttempts
  }

  function Pow2(k: nat): (p: nat)
    ensures p >= 1
  {
    if k == 0 then 1 else 2 * Pow2(k - 1)
  }

  /** The wait after failed primary attempt k: 2^k seconds, capped at 30 seconds. The float
      arithmetic of the code is exact on these values. */
  function PrimaryDelayMs(k: nat): (d: nat)
    ensures d <= MaxPrimaryDelayMs
  {
    if 1000 * Pow2(k) < MaxPrimaryDelayMs then 1000 * Pow2(k) else MaxPrimaryDelayMs
  }

  lemma {:induction false} Pow2AtLeast32(k: nat)
    requires k >= 5
    ensures Pow2(k) >= 32
  {
    if k > 5 {
      Pow2AtLeast32(k - 1);
    }
  }

  /** The waits go 2, 4, 8 and 16 seconds, then stay at 30 seconds. */
  lemma PrimaryDelaySchedule(k: nat)
    ensures k == 1 ==> PrimaryDelayMs(k) == 2000
    ensures k == 2 ==> PrimaryDelayMs(k) == 4000
    ensures k == 3 ==> PrimaryDelayMs(k) == 8000
    ensures k == 4 ==> PrimaryDelayMs(k) == 16000
    ensures k >= 5 ==> PrimaryDelayMs(k) == MaxPrimaryDelayMs
  {
    if k >= 5 {
      Pow2AtLeast32(k);
    } else {
      assert Pow2(4) == 16;
    }
  }

  /** The wait after failed fallback attempt k: 500 ms times k. */
  function FallbackDelayMs(k: nat): (d: nat) { 500 * k }

  /** The waits after the first n failed attempts of a phase, in order. */
  function Waits(delay: nat -> nat, n: nat): (s: seq<nat>)
    ensures |s| == n
    ensures forall i :: 0 <= i < n ==> s[i] == delay(i + 1)
  {
    if n == 0 then [] else Waits(delay, n - 1) + [delay(n)]
  }

  /** The waits of the primary phase when all eight default attempts fail. */
  lemma DefaultPrimaryWaits()
    ensures Waits(PrimaryDelayMs, DefaultMaxAttempts) == [2000, 4000, 8000, 16000, 30000, 30000, 30000, 30000]
  {
    forall k | 1 <= k <= DefaultMaxAttempts
      ensures PrimaryDelayMs(k) == [2000, 4000, 8000, 16000, 30000, 30000, 30000, 30000][k - 1]
    {
      PrimaryDelaySchedule(k);
    }
  }

  /** The waits of the fallback phase when all four attempts fail. */
  lemma FallbackWaits()
    ensures Waits(FallbackDelayMs, FallbackAttempts) == [500, 1000, 1500, 2000]
  {
  }

  /** The first attempt in from..limit that succeeds (its error is None), if any. */
  function FirstSuccess(outcome: nat -> Option<string>, from: nat, limit: nat): (r: Option<nat>)
    ensures r.Some? ==> from <= r.value <= limit && outcome(r.value).None?
    ensures r.Some? ==> forall j :: from <= j < r.value ==> outcome(j).Some?
    ensures r.None? ==> forall j :: from <= j <= limit ==> outcome(j).Some?
    decreases limit + 1 - from
  {
    if from > limit then None
    else if outcome(from).None? then Some(from)
    else FirstSuccess(outcome, from + 1, limit)
  }

  /** Whether the fallback phase runs: the flag reads "true" in any case, and the issuer is
      not already the internal one. */
  predicate FallbackEnabled(flag: string, issuer: string, internalIssuer: string) {
    EqualFoldTrue(flag) && issuer != internalIssuer
  }

  /** How discovery ends: a provider for an issuer (the configured one, or the internal one
      when the fallback phase found it) after some attempt of that phase, or log.Fatalf. */
  datatype Discovery = Provider(issuer: string, viaFallback: bool, attempt: nat) | Fatal(text: string)

  /** One attempt loop: NewProvider until an attempt succeeds or `limit` attempts have
      failed, waiting delay(k) after failed attempt k, the last one included. */
  method RetryPhase(outcome: nat -> Option<string>, limit: nat, delay: nat -> nat)
    returns (found: Option<nat>, ghost waits: seq<nat>)
    ensures found == FirstSuccess(outcome, 1, limit)
    ensures found.Some? ==> waits == Waits(delay, found.value - 1)
    ensures found.None? ==> waits == Waits(delay, limit)
  {
    waits := [];
    var attempt := 1;
    while attempt <= limit
      invariant 1 <= attempt <= limit + 1
      invariant FirstSuccess(outcome, 1, limit) == FirstSuccess(outcome, attempt, limit)
      invariant waits == Waits(delay, attempt - 1)
      decreases limit + 1 - attempt
    {
      if outcome(attempt).None? {
        return Some(attempt), waits;
      }
      waits := waits + [delay(attempt)];
      attempt := attempt + 1;
    }
    return None, waits;
  }

  /** initProviderWithBackoff. Each NewProvider call's error is given by `primary` for the
      primary phase and `fallback` for the fallback phase, attempt by attempt; the waits are
      returned instead of slept. A failed primary phase reports the last primary error. */
  method InitProviderWithBackoff(issuer: string, internalIssuer: string, fallbackFlag: string,
                                 maxAttemptsSetting: string,
                                 primary: nat -> Option<string>, fallback: nat -> Option<string>)
    returns (d: Discovery, ghost sleeps: seq<nat>)
    ensures var max := MaxAttemptsFrom(maxAttemptsSetting);
      var p := FirstSuccess(primary, 1, max);
      var f := FirstSuccess(fallback, 1, FallbackAttempts);
      && (p.Some? ==> d == Provider(issuer, false, p.value))
      && (p.None? && !FallbackEnabled(fallbackFlag, issuer, internalIssuer) ==>
            d == Fatal("Failed to initialize OIDC provider after retries: " + primary(max).value))
      && (p.None? && FallbackEnabled(fallbackFlag, issuer, internalIssuer) && f.Some? ==>
            d == Provider(internalIssuer, true, f.value))
      && (p.None? && FallbackEnabled(fallbackFlag, issuer, internalIssuer) && f.None? ==>
            d == Fatal("Failed to initialize OIDC provider after fallback attempts: " + primary(max).value))
    ensures var max := MaxAttemptsFrom(maxAttemptsSetting);
      var p := FirstSuccess(primary, 1, max);
      var f := FirstSuccess(fallback, 1, FallbackAttempts);
      && (p.Some? ==> sleeps == Waits(PrimaryDelayMs, p.value - 1))
      && (p.None? && !FallbackEnabled(fallbackFlag, issuer, internalIssuer) ==> sleeps == Waits(PrimaryDelayMs, max))
      && (p.None? && FallbackEnabled(fallbackFlag, issuer, internalIssuer) && f.Some? ==>
            sleeps == Waits(PrimaryDelayMs, max) + Waits(FallbackDelayMs, f.value - 1))
      && (p.None? && FallbackEnabled(fallbackFlag, issuer, internalIssuer) && f.None? ==>
            sleeps == Waits(PrimaryDelayMs, max) + Waits(FallbackDelayMs, FallbackAttempts))
  {
    var maxAttempts := MaxAttemptsFrom(maxAttemptsSetting);
    var found;
    found, sleeps := RetryPhase(primary, maxAttempts, PrimaryDelayMs);
    if found.Some? {
      return Provider(issuer, false, found.value), sleeps;
    }
    var err := primary(maxAttempts).value;
    if EqualFoldTrue(fallbackFlag) && issuer != internalIssuer {
      ghost var fallbackWaits;
      found, fallbackWaits := RetryPhase(fallback, FallbackAttempts, FallbackDelayMs);
      sleeps := sleeps + fallbackWaits;
      if found.Some? {
        return Provider(internalIssuer, true, found.value), sleeps;
      }
      return Fatal("Failed to initialize OIDC provider after fallback attempts: " + err), sleeps;
    }
    return Fatal("Failed to initialize OIDC provider after retries: " + err), sleeps;
  }
}
