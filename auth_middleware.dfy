/**
 * The Express authentication middleware: the JWT configuration read from the
 * environment, `generateToken`, and `authenticateToken`, which parses the
 * `Authorization` header, verifies the token and re-reads the admin record.
 */
module AuthMiddleware {
  import opened Wrappers
  import opened Text
  import opened Models
  import opened Oracles
  import opened Collections
  import opened AdminUserModel
  import opened Http
  import opened Store

  const DefaultSecret := "your-secret-key-change-this-in-production-12345"
  const DefaultExpiresIn := "7d"
  const TokenRequired := "Access token required"
  const InvalidToken := "Invalid token"

  /** The environment variables the module reads at load time. */
  datatype Env = Env(jwtSecret: Option<string>, jwtExpiresIn: Option<string>)

  datatype JwtConfig = JwtConfig(secret: string, expiresIn: string)

  /** `process.env.X || default`: an unset or empty variable falls back, so
      the secret and the lifetime are never empty. */
  function Configure(env: Env): (c: JwtConfig)
    ensures c.secret != "" && c.expiresIn != ""
    ensures env.jwtSecret.None? ==> c.secret == DefaultSecret
    ensures env.jwtExpiresIn.None? ==> c.expiresIn == "7d"
    ensures env.jwtSecret.Some? && env.jwtSecret.value != "" ==> c.secret == env.jwtSecret.value
    ensures env.jwtExpiresIn.Some? && env.jwtExpiresIn.value != "" ==> c.expiresIn == env.jwtExpiresIn.value
  {
    JwtConfig(OrDefault(env.jwtSecret, DefaultSecret), OrDefault(env.jwtExpiresIn, DefaultExpiresIn))
  }

  /** `generateToken(payload)` at time `now`; `None` is the exception
      `jwt.sign` throws for an `expiresIn` it cannot read. */
  function GenerateToken(cfg: JwtConfig, j: Jwt, payload: Claims, now: int): (t: Option<string>)
    ensures t.Some? <==> j.span(cfg.expiresIn).Some?
  {
    if j.span(cfg.expiresIn).Some? then Some(j.sign(payload, cfg.secret, now, cfg.expiresIn)) else None
  }

  /** A generated token verifies to its payload under the same secret exactly
      until its lifetime has passed; with the default configuration that
      lifetime is seven days. */
  lemma GeneratedTokenLifetime(cfg: JwtConfig, j: Jwt, payload: Claims, iat: int, now: int)
    requires JwtLaws(j)
    requires GenerateToken(cfg, j, payload, iat).Some?
    ensures GenerateToken(cfg, j, payload, iat).value != "" && ' ' !in GenerateToken(cfg, j, payload, iat).value
    ensures j.verify(GenerateToken(cfg, j, payload, iat).value, cfg.secret, now)
              == if now < iat + j.span(cfg.expiresIn).value then Some(payload) else None
    ensures cfg.expiresIn == DefaultExpiresIn ==> j.span(cfg.expiresIn).value == SevenDays
  {
  }

  /** `authHeader && authHeader.split(' ')[1]`: the second space-separated
      piece when it is a non-empty string; `None` for every falsy outcome
      (no header, an empty header, no space, an empty second piece). */
  function BearerToken(header: Option<string>): (t: Option<string>)
    ensures t.Some? ==> header.Some? && t.value != "" && ' ' !in t.value
  {
    if header.None? || header.value == "" then None
    else
      var parts := Split(header.value, ' ');
      SplitPiecesFree(header.value, ' ');
      if |parts| < 2 || parts[1] == "" then None else Some(parts[1])
  }

  /** The first word is never checked: any space-free word followed by a space
      and a space-free token yields that token, `Bearer` included. */
  lemma {:induction false} BearerTokenAfterAnyWord(word: string, token: string)
    requires ' ' !in word && ' ' !in token && token != ""
    ensures BearerToken(Some(word + " " + token)) == Some(token)
  {
    SplitAfterWord(word, token, ' ');
    SplitFree(token, ' ');
    assert word + " " + token == word + [' '] + token;
  }

  /** A header with no space carries no token. */
  lemma {:induction false} BearerTokenNeedsSpace(header: string)
    requires ' ' !in header
    ensures BearerToken(Some(header)) == None
  {
    SplitFree(header, ' ');
  }

  /** What `authenticateToken` decides: call `next` with this identity, or
      answer 401 with this error. */
  datatype Verdict = Pass(user: Identity) | Reject(error: string)

  /** The identities the admin collection can vouch for. */
  function StoredIdentities(admins: seq<AdminUser>): set<Identity> {
    set a | a in admins :: Identity(a.username, a.role)
  }

  /** The decision of `authenticateToken`, as a function of the header, the
      admin collection and the clock. */
  function Guard(cfg: JwtConfig, j: Jwt, admins: seq<AdminUser>, header: Option<string>, now: int): (v: Verdict)
    ensures v.Reject? ==> v.error == TokenRequired || v.error == InvalidToken
    ensures v.Reject? && v.error == TokenRequired <==> BearerToken(header).None?
    ensures v.Pass? ==> v.user in StoredIdentities(admins)
  {
    match BearerToken(header)
    case None => Reject(TokenRequired)
    case Some(token) =>
      match j.verify(token, cfg.secret, now)
      case None => Reject(InvalidToken)
      case Some(claims) =>
        match QueryAdmin(admins, claims.username)
        case None => Reject(InvalidToken)
        case Some(a) => Pass(Identity(a.username, a.role))
  }

  /** Only a token that verifies under the server's secret passes, and under
      the jsonwebtoken laws such a token was signed with that secret and has
      not expired. */
  lemma GuardPassNeedsSignedToken(cfg: JwtConfig, j: Jwt, admins: seq<AdminUser>, header: Option<string>, now: int)
    requires JwtLaws(j)
    requires Guard(cfg, j, admins, header, now).Pass?
    ensures BearerToken(header).Some?
    ensures var t := BearerToken(header).value;
      j.verify(t, cfg.secret, now).Some? &&
      exists iat, e :: j.sign(j.verify(t, cfg.secret, now).value, cfg.secret, iat, e) == t
                       && j.span(e).Some? && now < iat + j.span(e).value
  {
  }

  /** A token that verifies but names no stored admin (a deleted account) is
      refused with the same error as a forged or expired one. */
  lemma GuardUnknownUser(cfg: JwtConfig, j: Jwt, admins: seq<AdminUser>, token: string, now: int)
    requires BearerToken(Some("Bearer " + token)) == Some(token)
    requires j.verify(token, cfg.secret, now).Some?
    requires Trim(j.verify(token, cfg.secret, now).value.username) !in Ids(admins, AdminUsername)
    ensures Guard(cfg, j, admins, Some("Bearer " + token), now) == Reject(InvalidToken)
  {
  }

  /** An issued token, sent as `Bearer <token>`, passes before it expires and
      is refused from then on; on success the identity is the stored record's,
      whatever role the token claims. */
  lemma {:induction false} GuardOnIssuedToken(cfg: JwtConfig, j: Jwt, admins: seq<AdminUser>, a: AdminUser,
                                              claimedRole: string, iat: int, now: int)
    requires JwtLaws(j)
    requires UniqueIds(admins, AdminUsername) && a in admins && AdminUserModel.Valid(a)
    requires GenerateToken(cfg, j, Claims(a.username, claimedRole), iat).Some?
    ensures var t := GenerateToken(cfg, j, Claims(a.username, claimedRole), iat).value;
      Guard(cfg, j, admins, Some("Bearer " + t), now)
        == if now < iat + j.span(cfg.expiresIn).value then Pass(Identity(a.username, a.role))
           else Reject(InvalidToken)
  {
    var c := Claims(a.username, claimedRole);
    var t := GenerateToken(cfg, j, c, iat).value;
    GeneratedTokenLifetime(cfg, j, c, iat, now);
    BearerTokenAfterAnyWord("Bearer", t);
    assert "Bearer " + t == "Bearer" + " " + t;
    var header := Some("Bearer " + t);
    assert BearerToken(header) == Some(t);
    if now < iat + j.span(cfg.expiresIn).value {
      assert j.verify(t, cfg.secret, now) == Some(c);
      QueryAdminStored(admins, a);
      assert QueryAdmin(admins, c.username) == Some(a);
    } else {
      assert j.verify(t, cfg.secret, now) == None;
    }
  }

  /** The header `authenticateToken` reads. */
  function AuthorizationHeader(req: Request): Option<string>
    reads req`headers
  {
    HeaderValue(req.headers, "authorization")
  }

  /** `authenticateToken(req, res, next)`: the result says whether `next` is
      called. On a pass `req.user` is set and the response is untouched; on a
      rejection the response is 401 with the error and `req.user` is left
      alone. */
  method AuthenticateToken(cfg: JwtConfig, j: Jwt, db: Database, req: Request, res: Response, now: int)
    returns (next: bool)
    modifies req`user, res
    ensures var v := Guard(cfg, j, db.admins, AuthorizationHeader(req), now);
      && (next <==> v.Pass?)
      && (v.Pass? ==> req.user == Some(v.user) && res.statusCode == old(res.statusCode) && res.body == old(res.body))
      && (v.Reject? ==> req.user == old(req.user) && res.statusCode == 401 && res.body == ErrorBody(v.error))
  {
    var header := HeaderValue(req.headers, "authorization");
    ghost var v := Guard(cfg, j, db.admins, header, now);
    var token := BearerToken(header);
    if token.None? {
      assert v == Reject(TokenRequired);
      res.Send(401, ErrorBody(TokenRequired));
      return false;
    }
    var decoded := j.verify(token.value, cfg.secret, now);
    if decoded.None? {
      assert v == Reject(InvalidToken);
      res.Send(401, ErrorBody(InvalidToken));
      return false;
    }
    var admin := QueryAdmin(db.admins, decoded.value.username);
    if admin.None? {
      assert v == Reject(InvalidToken);
      res.Send(401, ErrorBody(InvalidToken));
      return false;
    }
    assert v == Pass(Identity(admin.value.username, admin.value.role));
    req.user := Some(Identity(admin.value.username, admin.value.role));
    return true;
  }
}
