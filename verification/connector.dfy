/** The development HTTP side of the password connector (dex_password/src/main.go): the small
    string helpers, the in-memory session table behind /login and /auth, and the response
    writer wrapper the logging middleware uses. */
module Connector {
  import opened Optional
  import opened Text
  import opened Config
  import opened Http

  const StatusCreated := 201
  const StatusFound := 302
  const StatusConflict := 409

  /** The listen addresses main reads through getEnv, with their defaults. */
  function ListenAddrs(env: Env): (r: (string, string))
    ensures r.0 == (if Getenv(env, "LISTEN_ADDR") != "" then env["LISTEN_ADDR"] else ":5557")
    ensures r.1 == (if Getenv(env, "LISTEN_HTTP") != "" then env["LISTEN_HTTP"] else ":8080")
    ensures r.0 != "" && r.1 != ""
  {
    (GetEnv(env, "LISTEN_ADDR", ":5557"), GetEnv(env, "LISTEN_HTTP", ":8080"))
  }

  /** The replacement htmlEscape makes for one character. */
  function EscapeChar(c: char): (r: string)
    ensures |r| >= 1
  {
    if c == '&' then "&amp;"
    else if c == '<' then "&lt;"
    else if c == '>' then "&gt;"
    else if c == '"' then "&quot;"
    else [c]
  }

  predicate Special(c: char) { c == '&' || c == '<' || c == '>' || c == '"' }

  /** htmlEscape: every &, <, > and " replaced by its entity, every other character copied,
      in order. */
  function HtmlEscape(s: string): (r: string)
    ensures forall k :: 0 <= k < |r| ==> r[k] != '<' && r[k] != '>' && r[k] != '"'
    ensures |r| >= |s|
  {
    if s == [] then [] else EscapeChar(s[0]) + HtmlEscape(s[1..])
  }

  /** Reading the entities back, the way an HTML parser does for these four. */
  function Unescape(s: string): (r: string)
    decreases |s|
  {
    if s == [] then []
    else if HasPrefix(s, "&amp;") then "&" + Unescape(s[5..])
    else if HasPrefix(s, "&lt;") then "<" + Unescape(s[4..])
    else if HasPrefix(s, "&gt;") then ">" + Unescape(s[4..])
    else if HasPrefix(s, "&quot;") then "\"" + Unescape(s[6..])
    else [s[0]] + Unescape(s[1..])
  }

  lemma NotPrefixAt(s: string, prefix: string, i: nat)
    requires i < |s| && i < |prefix| && s[i] != prefix[i]
    ensures !HasPrefix(s, prefix)
  {
  }

  lemma UnescapeAmp(rest: string)
    ensures Unescape("&amp;" + rest) == "&" + Unescape(rest)
  {
    var s := "&amp;" + rest;
    assert s[..5] == "&amp;" && s[5..] == rest;
  }

  lemma UnescapeLt(rest: string)
    ensures Unescape("&lt;" + rest) == "<" + Unescape(rest)
  {
    var s := "&lt;" + rest;
    assert s[..4] == "&lt;" && s[4..] == rest;
    NotPrefixAt(s, "&amp;", 1);
  }

  lemma UnescapeGt(rest: string)
    ensures Unescape("&gt;" + rest) == ">" + Unescape(rest)
  {
    var s := "&gt;" + rest;
    assert s[..4] == "&gt;" && s[4..] == rest;
    NotPrefixAt(s, "&amp;", 1);
    NotPrefixAt(s, "&lt;", 1);
  }

  lemma UnescapeQuot(rest: string)
    ensures Unescape("&quot;" + rest) == "\"" + Unescape(rest)
  {
    var s := "&quot;" + rest;
    assert s[..6] == "&quot;" && s[6..] == rest;
    NotPrefixAt(s, "&amp;", 1);
    NotPrefixAt(s, "&lt;", 1);
    NotPrefixAt(s, "&gt;", 1);
  }

  lemma UnescapePlain(c: char, rest: string)
    requires !Special(c)
    ensures Unescape([c] + rest) == [c] + Unescape(rest)
  {
    var s := [c] + rest;
    assert s[0] == c && s[1..] == rest;
    NotPrefixAt(s, "&amp;", 0);
    NotPrefixAt(s, "&lt;", 0);
    NotPrefixAt(s, "&gt;", 0);
    NotPrefixAt(s, "&quot;", 0);
  }

  lemma UnescapeChar(c: char, rest: string)
    ensures Unescape(EscapeChar(c) + rest) == [c] + Unescape(rest)
  {
    if c == '&' {
      UnescapeAmp(rest);
    } else if c == '<' {
      UnescapeLt(rest);
    } else if c == '>' {
      UnescapeGt(rest);
    } else if c == '"' {
      UnescapeQuot(rest);
    } else {
      UnescapePlain(c, rest);
    }
  }

  /** Escaping loses nothing: the original text can be read back from the escaped one. */
  lemma {:induction false} UnescapeHtmlEscape(s: string)
    ensures Unescape(HtmlEscape(s)) == s
    decreases |s|
  {
    if s != [] {
      UnescapeChar(s[0], HtmlEscape(s[1..]));
      UnescapeHtmlEscape(s[1..]);
      assert [s[0]] + s[1..] == s;
    }
  }

  /** Text without the four special characters is copied unchanged, and any other text is
      changed. */
  lemma {:induction false} HtmlEscapeIdentity(s: string)
    ensures HtmlEscape(s) == s <==> forall k :: 0 <= k < |s| ==> !Special(s[k])
    decreases |s|
  {
    if s != [] {
      HtmlEscapeIdentity(s[1..]);
      if Special(s[0]) {
        assert |HtmlEscape(s)| > |s|;
      } else {
        assert forall k :: 1 <= k < |s| ==> s[1..][k - 1] == s[k];
      }
    }
  }

  /** clientIP. With an X-Forwarded-For header: the text before its first comma when that
      comma is not at the start, otherwise the whole header, trimmed either way. Without it:
      the host part of RemoteAddr, or RemoteAddr itself when net.SplitHostPort fails
      (`splitHost` is that call's host, None on error). */
  function ClientIP(forwardedFor: string, remoteAddr: string, splitHost: Option<string>): (r: string)
    ensures forwardedFor != "" && IndexByte(forwardedFor, ',') > 0 ==>
      r == TrimSpace(forwardedFor[..IndexByte(forwardedFor, ',')]) && ',' !in r
    ensures forwardedFor != "" && IndexByte(forwardedFor, ',') <= 0 ==> r == TrimSpace(forwardedFor)
    ensures forwardedFor == "" ==> r == splitHost.GetOr(remoteAddr)
  {
    if forwardedFor != "" then
      var i := IndexByte(forwardedFor, ',');
      if i > 0 then TrimSpace(forwardedFor[..i]) else TrimSpace(forwardedFor)
    else match splitHost
      case Some(host) => host
      case None => remoteAddr
  }

  /** A header that starts with a comma is taken whole, commas included. */
  lemma LeadingCommaKeepsHeader(rest: string)
    ensures ClientIP("," + rest, "", None) == TrimSpace("," + rest)
  {
    assert IndexByte("," + rest, ',') == 0;
  }

  newtype byte = x: int | 0 <= x < 256

  predicate IsHexDigit(c: char) { '0' <= c <= '9' || 'a' <= c <= 'f' }

  /** The lower-case hex digit of a nibble. */
  function HexDigit(v: nat): (c: char)
    requires v < 16
    ensures IsHexDigit(c)
  {
    if v < 10 then ('0' as int + v) as char else ('a' as int + v - 10) as char
  }

  /** hex.EncodeToString: two lower-case hex digits per byte, high nibble first. */
  function HexEncode(b: seq<byte>): (s: string)
    ensures |s| == 2 * |b|
    ensures forall k :: 0 <= k < |s| ==> IsHexDigit(s[k])
  {
    if b == [] then []
    else [HexDigit(b[0] as int / 16), HexDigit(b[0] as int % 16)] + HexEncode(b[1..])
  }

  function HexValue(c: char): (v: nat)
    requires IsHexDigit(c)
    ensures v < 16
  {
    if c <= '9' then c as int - '0' as int else c as int - 'a' as int + 10
  }

  /** hex.DecodeString on well-formed input. */
  function HexDecode(s: string): (b: seq<byte>)
    requires |s| % 2 == 0 && forall k :: 0 <= k < |s| ==> IsHexDigit(s[k])
    decreases |s|
  {
    if s == [] then []
    else [(16 * HexValue(s[0]) + HexValue(s[1])) as byte] + HexDecode(s[2..])
  }

  /** Hex encoding loses nothing. */
  lemma {:induction false} HexRoundTrip(b: seq<byte>)
    ensures HexDecode(HexEncode(b)) == b
    decreases |b|
  {
    if b != [] {
      var s := HexEncode(b);
      var hi, lo := b[0] as int / 16, b[0] as int % 16;
      assert s[0] == HexDigit(hi) && s[1] == HexDigit(lo);
      assert s[2..] == HexEncode(b[1..]);
      HexRoundTrip(b[1..]);
    }
  }

  /** randomID(n): n bytes from crypto/rand (supplied as `random`), hex encoded. */
  function RandomID(n: nat, random: seq<byte>): (id: string)
    requires |random| == n
    ensures |id| == 2 * n
    ensures forall k :: 0 <= k < |id| ==> IsHexDigit(id[k])
    ensures HexDecode(id) == random
  {
    HexRoundTrip(random);
    HexEncode(random)
  }

  /** reqID: the X-Request-Id header when present, otherwise an 8-byte random id. */
  function ReqID(header: string, random: seq<byte>): (id: string)
    requires |random| == 8
    ensures header != "" ==> id == header
    ensures header == "" ==> |id| == 16 && forall k :: 0 <= k < |id| ==> IsHexDigit(id[k])
  {
    if header != "" then header else RandomID(8, random)
  }

  /** The login form shown on GET /login: the rd value is placed inside a double-quoted
      attribute, escaped. */
  const LoginPageHead := "<!doctype html><html><body><h2>Login</h2><form method=\"post\"><input type=\"hidden\" name=\"rd\" value=\""
  const LoginPageTail := "\"><input type=\"email\" name=\"email\" placeholder=\"email\" required><br><input type=\"password\" name=\"password\" placeholder=\"password\" required><br><button type=\"submit\">Login</button></form><p><a href=\"/register\">Register</a></p></body></html>"

  function LoginPage(rd: string): (page: string)
    ensures page == LoginPageHead + HtmlEscape(rd) + LoginPageTail
    ensures forall k :: |LoginPageHead| <= k < |LoginPageHead| + |HtmlEscape(rd)| ==> page[k] != '"'
  {
    LoginPageHead + HtmlEscape(rd) + LoginPageTail
  }

  /** The request method, as far as the handlers tell methods apart. */
  datatype Method = Get | Post | Other

  /** A form POST as the handlers read it: None when ParseForm fails, otherwise the email,
      password and rd fields ("" when absent). */
  datatype Form = Form(email: string, password: string, rd: string)

  /** What a handler writes: the status, a Set-Cookie sid when one is issued, the redirect
      target, the X-Remote-User and X-Remote-Email headers, and the page for a GET. */
  datatype Response = Response(status: int, cookie: Option<string>, location: Option<string>,
                               remoteUser: Option<string>, remoteEmail: Option<string>, page: string)

  function Status(code: int): Response { Response(code, None, None, None, None, "") }

  /** The e-mail a session id maps to, "" when it maps to nothing. */
  function SessionEmail(sessions: map<string, string>, sid: string): string {
    if sid in sessions then sessions[sid] else ""
  }

  /** The httpServer: whether a repository is configured, and the session table. */
  class AuthServer {
    const hasRepo: bool
    var sessions: map<string, string>

    /** newHTTPServer: an empty session table. */
    constructor (hasRepo: bool)
      ensures this.hasRepo == hasRepo && sessions == map[]
    {
      this.hasRepo := hasRepo;
      sessions := map[];
    }

    /** register. A GET gets the form; a POST that does not parse, lacks the email or the
        password, or finds no repository gets 400; a hashing error 500; an error from the
        insert 409; otherwise 201. The insert does nothing on an e-mail that is already
        registered and reports no error, so that case is 201 as well. Sessions are not
        touched. */
    method Register(m: Method, form: Option<Form>, hashErr: bool, createErr: bool) returns (r: Response)
      ensures m.Get? ==> r.status == StatusOK
      ensures m.Other? ==> r == Status(StatusMethodNotAllowed)
      ensures m.Post? && (form.None? || form.value.email == "" || form.value.password == "" || !hasRepo) ==>
        r == Status(StatusBadRequest)
      ensures m.Post? && form.Some? && form.value.email != "" && form.value.password != "" && hasRepo ==>
        r == Status(if hashErr then StatusInternalServerError else if createErr then StatusConflict else StatusCreated)
      ensures r.cookie.None? && r.remoteUser.None?
    {
      match m {
        case Get =>
          return Response(StatusOK, None, None, None, None, "<register form>");
        case Other =>
          return Status(StatusMethodNotAllowed);
        case Post =>
          if form.None? {
            return Status(StatusBadRequest);
          }
          var f := form.value;
          if f.email == "" || f.password == "" || !hasRepo {
            return Status(StatusBadRequest);
          }
          if hashErr {
            return Status(StatusInternalServerError);
          }
          if createErr {
            return Status(StatusConflict);
          }
          return Status(StatusCreated);
      }
    }

    /** login. A GET gets the form with the escaped rd. A POST that does not parse, lacks the
        email or the password, or finds no repository gets 400, and one whose lookup fails or
        whose password does not match gets 401; none of these touches the sessions. Otherwise
        the new session id `sid` maps to the e-mail exactly as typed, the id is set as the sid
        cookie, and the reply is a redirect to rd, or 200 when rd is empty. `lookup` is the
        repository's answer (the stored hash) and `compare` the bcrypt comparison. */
    method Login(m: Method, rd: string, form: Option<Form>, lookup: Result<string>,
                 compare: (string, string) -> bool, sid: string) returns (r: Response)
      modifies this
      ensures m.Get? ==> r == Response(StatusOK, None, None, None, None, LoginPage(rd)) && sessions == old(sessions)
      ensures m.Other? ==> r == Status(StatusMethodNotAllowed) && sessions == old(sessions)
      ensures m.Post? && (form.None? || form.value.email == "" || form.value.password == "" || !hasRepo) ==>
        r == Status(StatusBadRequest) && sessions == old(sessions)
      ensures m.Post? && form.Some? && form.value.email != "" && form.value.password != "" && hasRepo ==>
        if lookup.Err? || !compare(lookup.value, form.value.password) then
          r == Status(StatusUnauthorized) && sessions == old(sessions)
        else
          && sessions == old(sessions)[sid := form.value.email]
          && r.cookie == Some(sid) && r.remoteUser.None?
          && (form.value.rd != "" ==> r.status == StatusFound && r.location == Some(form.value.rd))
          && (form.value.rd == "" ==> r.status == StatusOK && r.location.None?)
    {
      match m {
        case Get =>
          return Response(StatusOK, None, None, None, None, LoginPage(rd));
        case Other =>
          return Status(StatusMethodNotAllowed);
        case Post =>
          if form.None? {
            return Status(StatusBadRequest);
          }
          var f := form.value;
          if f.email == "" || f.password == "" || !hasRepo {
            return Status(StatusBadRequest);
          }
          if lookup.Err? || !compare(lookup.value, f.password) {
            return Status(StatusUnauthorized);
          }
          sessions := sessions[sid := f.email];
          if f.rd != "" {
            return Response(StatusFound, Some(sid), Some(f.rd), None, None, "");
          }
          return Response(StatusOK, Some(sid), None, None, None, "");
      }
    }

    /** auth: 401 without a sid cookie or when the sid maps to no e-mail; otherwise 200 with
        both identity headers set to that e-mail. */
    method Auth(cookie: Option<string>) returns (r: Response)
      ensures cookie.None? ==> r == Status(StatusUnauthorized)
      ensures cookie.Some? && SessionEmail(sessions, cookie.value) == "" ==> r == Status(StatusUnauthorized)
      ensures r.status == StatusOK <==> cookie.Some? && SessionEmail(sessions, cookie.value) != ""
      ensures r.status == StatusOK ==>
        r.remoteUser == Some(SessionEmail(sessions, cookie.value)) && r.remoteEmail == r.remoteUser
    {
      if cookie.None? {
        return Status(StatusUnauthorized);
      }
      var email := if cookie.value in sessions then sessions[cookie.value] else "";
      if email == "" {
        return Status(StatusUnauthorized);
      }
      return Response(StatusOK, None, None, Some(email), Some(email), "");
    }
  }

  /** After a successful login under sid, auth with that cookie answers 200 for the e-mail
      given at login, and every other session id answers as before. */
  lemma LoginThenAuth(sessions: map<string, string>, sid: string, email: string, other: string)
    requires email != "" && other != sid
    ensures SessionEmail(sessions[sid := email], sid) == email
    ensures SessionEmail(sessions[sid := email], other) == SessionEmail(sessions, other)
  {
  }

  /** loggingResponseWriter: the status last written (200 until WriteHeader is called) and
      the number of body bytes the underlying writer accepted. */
  class LoggingResponseWriter {
    var status: int
    var size: int

    constructor ()
      ensures status == StatusOK && size == 0
    {
      status, size := StatusOK, 0;
    }

    method WriteHeader(code: int)
      modifies this
      ensures status == code && size == old(size)
    {
      status := code;
    }

    /** Write: `accepted` is the count the underlying writer reports for b. */
    method Write(b: seq<byte>, accepted: nat) returns (n: nat)
      modifies this
      ensures n == accepted && size == old(size) + accepted && status == old(status)
    {
      n := accepted;
      size := size + n;
    }
  }
}
