/**
 * The Mongoose `AdminUser` model: its schema constraints, the pre-save hook
 * that hashes the password only when `passwordHash` was modified, the
 * `comparePassword` method, and the `toJSON` transform that hides the hash.
 *
 * A document is an object whose fields the hook and the login handler assign,
 * so it is a class; `passwordModified` is Mongoose's `isModified('passwordHash')`.
 */
module AdminUserModel {
  import opened Wrappers
  import opened Text
  import opened Models
  import opened SchemaTypes
  import opened Oracles

  const Roles: set<string> := {"admin", "moderator"}

  /** What every admin record saved through the schema satisfies. */
  predicate Valid(a: AdminUser) {
    RequiredText(a.username) && NormalEmail(a.email) && a.passwordHash != "" && a.role in Roles
  }

  /** What the schema's validators check when `save()` runs: the required
      paths are non-empty strings and the role is in the enum. The `trim` and
      `lowercase` setters are not validators; they run on assignment. */
  predicate PassesValidators(a: AdminUser) {
    a.username != "" && a.email != "" && a.passwordHash != "" && a.role in Roles
  }

  /** A record built through the setters is a valid stored record exactly
      when it passes the validators. */
  lemma SettersMakeValid(id: string, username: string, email: string, password: string,
                         role: string, now: int)
    ensures var a := AdminUser(id, Trim(username), NormalizeEmail(email), password, role, None, now);
      PassesValidators(a) <==> Valid(a)
  {
    NormalizeEmailSpec(email);
  }

  /** Every valid stored record passes the validators. */
  lemma ValidPassesValidators(a: AdminUser)
    requires Valid(a)
    ensures PassesValidators(a)
  {
  }

  function AdminUsername(a: AdminUser): string { a.username }

  /** The `toJSON` output: every stored field except `passwordHash`. */
  datatype AdminJson = AdminJson(id: string, username: string, email: string, role: string,
                                 lastLogin: Option<int>, createdAt: int)

  function ToJson(a: AdminUser): AdminJson {
    AdminJson(a.id, a.username, a.email, a.role, a.lastLogin, a.createdAt)
  }

  /** The JSON form does not depend on the hash, and two records with the same
      JSON form differ at most in their hash. */
  lemma ToJsonHidesHash(a: AdminUser, b: AdminUser)
    ensures ToJson(a) == ToJson(b) <==> a.(passwordHash := b.passwordHash) == b
  {
  }

  /** Under the bcrypt laws a stored hash of `pw` accepts `pw`, and any
      candidate from which bcrypt reads the same key. Among passwords read in
      full (under 72 bytes, no NUL) that is `pw` alone. */
  lemma HashAcceptsOnlyItsPassword(b: Bcrypt, pw: string, salt: Salt)
    requires BcryptLaws(b)
    ensures b.compare(pw, b.hash(pw, salt))
    ensures forall c :: b.compare(c, b.hash(pw, salt)) <==> BcryptKey(c) == BcryptKey(pw)
    ensures ReadInFull(pw) ==>
              forall c :: ReadInFull(c) ==> (b.compare(c, b.hash(pw, salt)) <==> c == pw)
  {
    assert b.compare(pw, b.hash(pw, salt)) <==> BcryptKey(pw) == BcryptKey(pw);
    forall c | ReadInFull(pw) && ReadInFull(c)
      ensures b.compare(c, b.hash(pw, salt)) <==> c == pw
    {
      KeyDeterminesPassword(c, pw);
    }
  }

  /** bcryptjs reads no more than 72 bytes: a candidate that shares them with
      the hashed password is accepted in its place, whatever follows. */
  lemma HashAcceptsSharedPrefix(b: Bcrypt, p: string, x: string, y: string, salt: Salt)
    requires BcryptLaws(b) && |Utf8(p)| >= 72
    ensures b.compare(p + y, b.hash(p + x, salt))
  {
    SharedPrefixSameKey(p, y, x);
  }

  class AdminUserDoc {
    var id: string
    var username: string
    var email: string
    var passwordHash: string
    var role: string
    var lastLogin: Option<int>
    var createdAt: int
    /** `isModified('passwordHash')` */
    var passwordModified: bool

    function Record(): AdminUser
      reads this
    {
      AdminUser(id, username, email, passwordHash, role, lastLogin, createdAt)
    }

    /** A document loaded by a query: nothing is modified yet. */
    constructor Load(r: AdminUser)
      ensures Record() == r && !passwordModified
    {
      id, username, email, passwordHash := r.id, r.username, r.email, r.passwordHash;
      role, lastLogin, createdAt := r.role, r.lastLogin, r.createdAt;
      passwordModified := false;
    }

    /** `new AdminUser({username, email, passwordHash, role})`: the setters trim
        the username and normalise the email, `role` defaults to `admin`,
        `lastLogin` to null, and the plain password counts as modified. */
    constructor New(id: string, username: string, email: string, password: string,
                    role: Option<string>, now: int)
      ensures Record() == AdminUser(id, Trim(username), NormalizeEmail(email), password,
                                    role.GetOr(DefaultRole), None, now)
      ensures passwordModified
      ensures PassesValidators(Record()) <==> Valid(Record())
    {
      SettersMakeValid(id, username, email, password, role.GetOr(DefaultRole), now);
      this.id, this.username, this.email, passwordHash := id, Trim(username), NormalizeEmail(email), password;
      this.role, lastLogin, createdAt := role.GetOr(DefaultRole), None, now;
      passwordModified := true;
    }

    function ComparePassword(b: Bcrypt, candidate: string): (ok: bool)
      reads this
      ensures BcryptLaws(b) ==>
                forall pw, salt :: passwordHash == b.hash(pw, salt) ==> (ok <==> BcryptKey(candidate) == BcryptKey(pw))
    {
      b.compare(candidate, passwordHash)
    }

    /** `admin.lastLogin = new Date()`; the password path is untouched. */
    method SetLastLogin(now: int)
      modifies this
      ensures Record() == old(Record()).(lastLogin := Some(now))
      ensures passwordModified == old(passwordModified)
    {
      lastLogin := Some(now);
    }

    /** Assigning a new plain-text password marks the path modified. */
    method SetPassword(pw: string)
      modifies this
      ensures Record() == old(Record()).(passwordHash := pw)
      ensures passwordModified
    {
      passwordHash := pw;
      passwordModified := true;
    }

    /** The pre-save hook: when the password was modified, replace it by its
        bcrypt hash under a fresh cost-12 salt; otherwise change nothing. */
    method HashIfModified(b: Bcrypt, nonce: nat)
      modifies this
      ensures old(passwordModified) ==>
                Record() == old(Record()).(passwordHash := b.hash(old(passwordHash), GenSalt(SaltRounds, nonce)))
      ensures !old(passwordModified) ==> Record() == old(Record())
      ensures passwordModified == old(passwordModified)
    {
      if !passwordModified {
        return;
      }
      var salt := GenSalt(SaltRounds, nonce);
      passwordHash := b.hash(passwordHash, salt);
    }

    /** `save()`: validation, then the pre-save hook; a saved document has no
        pending modifications. The result is the record to store. */
    method Save(b: Bcrypt, nonce: nat) returns (r: Result<AdminUser, ValidationError>)
      modifies this
      ensures r.Ok? <==> PassesValidators(old(Record()))
      ensures r.Err? ==> Record() == old(Record()) && passwordModified == old(passwordModified)
      ensures r.Ok? ==> r.value == Record() && !passwordModified
      ensures r.Ok? && !old(passwordModified) ==> Record() == old(Record())
      ensures r.Ok? && old(passwordModified) ==>
                Record() == old(Record()).(passwordHash := b.hash(old(passwordHash), GenSalt(SaltRounds, nonce)))
      ensures r.Ok? && old(passwordModified) && BcryptLaws(b) ==>
                && (forall c :: ComparePassword(b, c) <==> BcryptKey(c) == BcryptKey(old(passwordHash)))
                && (ReadInFull(old(passwordHash)) ==>
                      forall c :: ReadInFull(c) ==> (ComparePassword(b, c) <==> c == old(passwordHash)))
    {
      if !PassesValidators(Record()) {
        return Err(ValidationError(if username == "" then "username"
                                   else if email == "" then "email"
                                   else if passwordHash == "" then "passwordHash"
                                   else "role"));
      }
      ghost var plain := passwordHash;
      HashIfModified(b, nonce);
      if old(passwordModified) && BcryptLaws(b) {
        HashAcceptsOnlyItsPassword(b, plain, GenSalt(SaltRounds, nonce));
      }
      passwordModified := false;
      r := Ok(Record());
    }
  }
}
