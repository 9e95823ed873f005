/** `authenticateToken`: the bearer gate in front of protected routes. It
    takes the second space-separated field of the `Authorization` header as
    the credential (in the spirit of section 2.1 of RFC 6750, but without
    looking at the scheme word), verifies it, and either answers 401 or
    records the decoded claims on the request and passes it on. */
module AuthMiddleware {
  import opened Common
  import opened Users
  import opened Http

  /** `s.split(' ')`: the maximal runs between single spaces, empty runs
      included; never an empty list. */
  function Split(s: string): (fields: seq<string>)
    ensures |fields| >= 1
    ensures forall i :: 0 <= i < |fields| ==> ' ' !in fields[i]
    decreases |s|
  {
    if s == [] then [""]
    else
      var rest := Split(s[1..]);
      if s[0] == ' ' then [""] + rest
      else [[s[0]] + rest[0]] + rest[1..]
  }

  /** `fields.join(' ')` */
  function Join(fields: seq<string>): string
    requires |fields| >= 1
  {
    if |fields| == 1 then fields[0] else fields[0] + " " + Join(fields[1..])
  }

  /** Splitting loses nothing: joining the fields with single spaces gives
      the header back. */
  lemma {:induction false} JoinSplit(s: string)
    ensures Join(Split(s)) == s
  {
    if s != [] {
      var rest := Split(s[1..]);
      JoinSplit(s[1..]);
      if s[0] == ' ' {
        assert ([""] + rest)[1..] == rest;
      } else if |rest| == 1 {
        assert Split(s) == [[s[0]] + rest[0]];
        assert s == [s[0]] + s[1..];
      } else {
        var fields := Split(s);
        assert fields[1..] == rest[1..];
        assert Join(rest) == rest[0] + " " + Join(rest[1..]);
        assert s == [s[0]] + s[1..];
      }
    }
  }

  /** A word without spaces glues onto the first field of what follows it. */
  lemma {:induction false} SplitWordPrefix(t: string, rest: string)
    requires ' ' !in t
    ensures Split(t + rest) == [t + Split(rest)[0]] + Split(rest)[1..]
    decreases |t|
  {
    if t != [] {
      assert (t + rest)[1..] == t[1..] + rest;
      assert t[0] != ' ' by { assert t[0] in t; }
      SplitWordPrefix(t[1..], rest);
      var r := Split(t[1..] + rest);
      assert Split(t + rest) == [[t[0]] + r[0]] + r[1..];
      assert r[0] == t[1..] + Split(rest)[0] && r[1..] == Split(rest)[1..];
      assert [t[0]] + (t[1..] + Split(rest)[0]) == t + Split(rest)[0];
    } else {
      assert t + rest == rest && t + Split(rest)[0] == Split(rest)[0];
      assert [Split(rest)[0]] + Split(rest)[1..] == Split(rest);
    }
  }

  /** The credential: `authHeader && authHeader.split(' ')[1]`, where an
      empty result counts as no token. */
  function BearerToken(authorization: Option<string>): (token: Option<string>)
    ensures token.Some? ==> token.value != "" && ' ' !in token.value
    ensures token.Some? ==> authorization.Some? && |Split(authorization.value)| >= 2
                            && Split(authorization.value)[1] == token.value
  {
    match authorization
    case None => None
    case Some(h) =>
      var fields := Split(h);
      if |fields| >= 2 && fields[1] != "" then Some(fields[1]) else None
  }

  /** Any first word, one space, a space-free token, then nothing or a space:
      the token is extracted, whatever the first word is. */
  lemma HeaderCarriesToken(scheme: string, t: string, rest: string)
    requires ' ' !in scheme && ' ' !in t && t != ""
    requires rest == "" || rest[0] == ' '
    ensures BearerToken(Some(scheme + " " + t + rest)) == Some(t)
  {
    var h := scheme + " " + t + rest;
    assert h == scheme + (" " + (t + rest));
    SplitWordPrefix(scheme, " " + (t + rest));
    assert (" " + (t + rest))[1..] == t + rest;
    assert Split(" " + (t + rest)) == [""] + Split(t + rest);
    SplitWordPrefix(t, rest);
    assert Split(rest)[0] == "" by {
      if rest != "" { assert Split(rest) == [""] + Split(rest[1..]); }
    }
    var fields := Split(h);
    assert fields == [scheme + ""] + ([""] + Split(t + rest))[1..];
    assert fields[1] == Split(t + rest)[0] == t;
  }

  /** Conversely, an extracted token sits right after the first space of the
      header and runs to the next space or to the end. */
  lemma TokenLocation(h: string, t: string) returns (scheme: string, rest: string)
    requires BearerToken(Some(h)) == Some(t)
    ensures h == scheme + " " + t + rest
    ensures ' ' !in scheme
    ensures rest == "" || rest[0] == ' '
  {
    var fields := Split(h);
    JoinSplit(h);
    scheme := fields[0];
    assert fields[1..][0] == t;
    if |fields| == 2 {
      rest := "";
      assert Join(fields[1..]) == t;
    } else {
      rest := " " + Join(fields[2..]);
      assert fields[1..][1..] == fields[2..];
      assert Join(fields[1..]) == t + rest;
    }
  }

  /** A header without a space, or with two spaces after the first word,
      carries no token; so does a missing header. */
  lemma NoTokenCases(scheme: string, rest: string)
    requires ' ' !in scheme
    ensures BearerToken(None) == None
    ensures BearerToken(Some(scheme)) == None
    ensures BearerToken(Some(scheme + "  " + rest)) == None
  {
    SplitWordPrefix(scheme, "");
    assert scheme + "" == scheme;
    assert Split("") == [""];
    assert scheme + "  " + rest == scheme + (" " + (" " + rest));
    SplitWordPrefix(scheme, " " + (" " + rest));
    assert (" " + (" " + rest))[1..] == " " + rest;
    assert Split(" " + rest) == [""] + Split(rest) by {
      assert (" " + rest)[1..] == rest;
    }
  }

  /** The scheme word is never checked. */
  lemma SchemeIgnored()
    ensures BearerToken(Some("Bearer abc")) == Some("abc")
    ensures BearerToken(Some("Token abc")) == Some("abc")
    ensures BearerToken(Some("Bearer")) == None
    ensures BearerToken(Some("Bearer  x")) == None
  {
    HeaderCarriesToken("Bearer", "abc", "");
    assert "Bearer abc" == "Bearer" + " " + "abc" + "";
    HeaderCarriesToken("Token", "abc", "");
    assert "Token abc" == "Token" + " " + "abc" + "";
    NoTokenCases("Bearer", "x");
    assert "Bearer  x" == "Bearer" + "  " + "x";
  }

  /** The header the frontend's request interceptor attaches. */
  function AuthorizationHeader(token: string): string {
    "Bearer " + token
  }

  /** What the interceptor attaches, the gate extracts again, exactly when the
      token is non-empty and has no space (true of every compact JWT). */
  lemma AttachThenExtract(token: string)
    ensures BearerToken(Some(AuthorizationHeader(token))) == Some(token)
            <==> token != "" && ' ' !in token
  {
    if token != "" && ' ' !in token {
      HeaderCarriesToken("Bearer", token, "");
      assert AuthorizationHeader(token) == "Bearer" + " " + token + "";
    }
  }

  /** `tokenService.verifyToken`: the decoded claims, or None where
      `jwt.verify` throws (bad signature, expired, malformed). */
  type Verifier = string -> Option<Token>

  /** The gate's three-way outcome: a 401 answer, or `next()` with the claims
      that become `req.user`. */
  datatype GateOutcome = Halt(response: Response) | Proceed(claims: Token)

  const NoTokenResponse: Response := Response(401, Rejected("No token provided"))
  const InvalidTokenResponse: Response := Response(401, Rejected("Invalid token"))

  function Gate(authorization: Option<string>, verify: Verifier): (g: GateOutcome)
    ensures g.Halt? ==> g.response.status == 401
    ensures g == Halt(NoTokenResponse) <==> BearerToken(authorization).None?
    ensures g == Halt(InvalidTokenResponse)
            <==> exists t :: BearerToken(authorization) == Some(t) && verify(t).None?
    ensures g.Proceed? ==> exists t :: BearerToken(authorization) == Some(t) && verify(t) == Some(g.claims)
  {
    match BearerToken(authorization)
    case None => Halt(NoTokenResponse)
    case Some(t) =>
      match verify(t)
      case None => Halt(InvalidTokenResponse)
      case Some(c) => Proceed(c)
  }

  /** A token the signer produced and the verifier accepts passes the gate
      when sent as the frontend sends it. */
  lemma SignedTokenPasses(sign: Token -> string, verify: Verifier, tok: Token)
    requires verify(sign(tok)) == Some(tok)
    requires sign(tok) != "" && ' ' !in sign(tok)
    ensures Gate(Some(AuthorizationHeader(sign(tok))), verify) == Proceed(tok)
  {
    AttachThenExtract(sign(tok));
  }

  /** The Express request as the gate sees it: the header it reads, the
      `req.user` it may set, the response it may write and how often it has
      called `next`. */
  class Request {
    const authorization: Option<string>
    var user: Option<Token>
    var response: Option<Response>
    var nextCalls: nat

    constructor (authorization: Option<string>)
      ensures this.authorization == authorization
      ensures user == None && response == None && nextCalls == 0
    {
      this.authorization := authorization;
      user := None;
      response := None;
      nextCalls := 0;
    }
  }

  /** `authenticateToken(req, res, next)` */
  method Authenticate(req: Request, verify: Verifier)
    modifies req
    ensures match Gate(req.authorization, verify)
      case Halt(r) =>
        req.response == Some(r) && req.user == old(req.user) && req.nextCalls == old(req.nextCalls)
      case Proceed(c) =>
        req.user == Some(c) && req.response == old(req.response) && req.nextCalls == old(req.nextCalls) + 1
  {
    var token := BearerToken(req.authorization);
    if token.None? {
      req.response := Some(NoTokenResponse);
      return;
    }
    var decoded := verify(token.value);
    if decoded.None? {
      req.response := Some(InvalidTokenResponse);
      return;
    }
    req.user := decoded;
    req.nextCalls := req.nextCalls + 1;
  }
}
