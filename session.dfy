/**
 * A whole admin session across the three parts: the Express login issues a
 * token for the stored admin and records `lastLogin`, the browser keeps the
 * token and sends it back as `Bearer <token>`, and `authenticateToken`
 * admits it with the stored identity until the token expires.
 */
module Session {
  import opened Wrappers
  import opened Models
  import opened Oracles
  import opened Collections
  import opened AdminUserModel
  import opened Http
  import opened Store
  import opened AuthMiddleware
  import opened ApiClient

  /** The admin records right after a successful Express login of `username`
      at time `iat`. */
  function AfterLogin(admins: seq<AdminUser>, username: string, iat: int): seq<AdminUser>
    requires QueryAdmin(admins, username).Some?
  {
    UpdateById(admins, AdminId, QueryAdmin(admins, username).value.id, WithLastLogin(iat))
  }

  /** The token issued at login, sent back through the interceptor's header,
      parses back to itself and is admitted as the stored admin strictly
      before `iat` plus the configured lifetime (seven days by default), and
      rejected as invalid from then on; the `lastLogin` write in between
      does not disturb it. */
  lemma IssuedTokenAdmitsUntilExpiry(cfg: JwtConfig, j: Jwt, admins: seq<AdminUser>,
                                     username: string, iat: int, now: int)
    requires JwtLaws(j) && AdminsValid(admins)
    requires QueryAdmin(admins, username).Some?
    requires var a := QueryAdmin(admins, username).value;
      GenerateToken(cfg, j, Claims(a.username, a.role), iat).Some?
    ensures var a := QueryAdmin(admins, username).value;
      var t := GenerateToken(cfg, j, Claims(a.username, a.role), iat).value;
      && BearerToken(Some(BearerValue(t))) == Some(t)
      && Guard(cfg, j, AfterLogin(admins, username, iat), Some(BearerValue(t)), now)
           == (if now < iat + j.span(cfg.expiresIn).value then Pass(Identity(a.username, a.role))
               else Reject(InvalidToken))
      && (cfg.expiresIn == DefaultExpiresIn ==> j.span(cfg.expiresIn).value == SevenDays)
  {
    var a := QueryAdmin(admins, username).value;
    var t := GenerateToken(cfg, j, Claims(a.username, a.role), iat).value;
    var after := AfterLogin(admins, username, iat);
    var stamped := WithLastLogin(iat)(a);
    GeneratedTokenLifetime(cfg, j, Claims(a.username, a.role), iat, now);
    BearerRoundTrip(t);
    UpdateByIdSpec(admins, AdminId, a.id, WithLastLogin(iat));
    UpdateByIdKeepsKey(admins, AdminId, a.id, WithLastLogin(iat), AdminUsername);
    assert FindById(admins, AdminId, a.id) == Some(a) by {
      var found := FindById(admins, AdminId, a.id).value;
      assert AdminId(found) == AdminId(a);
    }
    assert stamped in after && AdminUserModel.Valid(stamped);
    GuardOnIssuedToken(cfg, j, after, stamped, a.role, iat, now);
  }

  /** A client whose storage holds the issued token sends a header the guard
      admits (before expiry) as the admin who signed in. */
  lemma InterceptedHeaderAdmits(cfg: JwtConfig, j: Jwt, admins: seq<AdminUser>, username: string,
                                iat: int, now: int, stored: map<string, string>)
    requires JwtLaws(j) && AdminsValid(admins)
    requires QueryAdmin(admins, username).Some?
    requires var a := QueryAdmin(admins, username).value;
      GenerateToken(cfg, j, Claims(a.username, a.role), iat).Some?
    requires var a := QueryAdmin(admins, username).value;
      stored == map[TokenKey := GenerateToken(cfg, j, Claims(a.username, a.role), iat).value]
    requires now < iat + j.span(cfg.expiresIn).value
    ensures Truthy(if TokenKey in stored then Some(stored[TokenKey]) else None)
    ensures var a := QueryAdmin(admins, username).value;
      Guard(cfg, j, AfterLogin(admins, username, iat), Some(BearerValue(stored[TokenKey])), now)
        == Pass(Identity(a.username, a.role))
  {
    var a := QueryAdmin(admins, username).value;
    GeneratedTokenLifetime(cfg, j, Claims(a.username, a.role), iat, now);
    IssuedTokenAdmitsUntilExpiry(cfg, j, admins, username, iat, now);
  }
}
