/**
 * The libraries the core calls but does not implement, as values: bcryptjs
 * (`genSalt`, `hash`, `compare`), jsonwebtoken (`sign`, `verify`, and its
 * reading of an `expiresIn` string), and the Python `auth` module whose source
 * is not part of this model (`verify_password`, `create_access_token`).
 *
 * Each is a datatype of total functions; what the code relies on them for is
 * stated once as a law predicate, and the lemmas that need it require it.
 * The clock is an explicit argument.
 */
module Oracles {
  import opened Wrappers
  import opened Text

  // ---------------------------------------------------------------------------
  // bcryptjs
  // ---------------------------------------------------------------------------

  /** The cost factor used by the admin schema's pre-save hook. */
  const SaltRounds := 12

  /** What `bcrypt.genSalt(rounds)` returns: the cost and its random part. */
  datatype Salt = Salt(rounds: nat, nonce: nat)

  /** `bcrypt.genSalt(rounds)`, with the randomness passed in as `nonce`. */
  function GenSalt(rounds: nat, nonce: nat): (s: Salt)
    ensures s.rounds == rounds
  {
    Salt(rounds, nonce)
  }

  datatype Bcrypt = Bcrypt(hash: (string, Salt) -> string, compare: (string, string) -> bool)

  /** A byte of an encoded password. */
  type Byte = b: int | 0 <= b < 0x100

  /** The UTF-8 encoding of one character (a Unicode scalar value). */
  function Utf8Char(c: char): (r: seq<Byte>)
    ensures 1 <= |r| <= 4
    ensures |r| == 1 <==> (c as int) < 0x80
  {
    var n := c as int;
    if n < 0x80 then [n]
    else if n < 0x800 then [(0xC0 + n / 0x40), (0x80 + n % 0x40)]
    else if n < 0x10000 then
      [(0xE0 + n / 0x1000), (0x80 + n / 0x40 % 0x40), (0x80 + n % 0x40)]
    else
      [(0xF0 + n / 0x40000), (0x80 + n / 0x1000 % 0x40),
       (0x80 + n / 0x40 % 0x40), (0x80 + n % 0x40)]
  }

  /** The UTF-8 encoding of a string, as bcryptjs computes it before hashing. */
  function Utf8(s: string): (r: seq<Byte>)
    ensures |r| >= |s|
  {
    if s == [] then [] else Utf8Char(s[0]) + Utf8(s[1..])
  }

  /** The first byte of a character's encoding tells how long it is. */
  lemma Utf8Lead(c: char)
    ensures var r := Utf8Char(c);
      && (|r| == 1 <==> r[0] < 0x80)
      && (|r| == 2 <==> 0xC0 <= r[0] < 0xE0)
      && (|r| == 3 <==> 0xE0 <= r[0] < 0xF0)
      && (|r| == 4 <==> 0xF0 <= r[0])
  {
  }

  /** Reads a character's code point back from its encoding. */
  function Utf8Decode(r: seq<Byte>): int
    requires 1 <= |r| <= 4
  {
    if |r| == 1 then r[0]
    else if |r| == 2 then (r[0] as int - 0xC0) * 0x40 + (r[1] as int - 0x80)
    else if |r| == 3 then (r[0] as int - 0xE0) * 0x1000 + (r[1] as int - 0x80) * 0x40 + (r[2] as int - 0x80)
    else (r[0] as int - 0xF0) * 0x40000 + (r[1] as int - 0x80) * 0x1000 + (r[2] as int - 0x80) * 0x40 + (r[3] as int - 0x80)
  }

  /** Splitting a number into base-64 digits and reassembling it. */
  lemma Digits64(n: int)
    requires n >= 0
    ensures n == n / 0x40 * 0x40 + n % 0x40
    ensures n / 0x40 == n / 0x1000 * 0x40 + n / 0x40 % 0x40
    ensures n / 0x1000 == n / 0x40000 * 0x40 + n / 0x1000 % 0x40
  {
    var q := n / 0x40;
    assert q / 0x40 == n / 0x1000;
    assert q / 0x40 / 0x40 == n / 0x40000;
  }

  /** Decoding undoes the encoding of one character. */
  lemma Utf8DecodeChar(c: char)
    ensures Utf8Decode(Utf8Char(c)) == c as int
  {
    Digits64(c as int);
  }

  /** Different characters encode differently. */
  lemma Utf8CharInjective(c: char, d: char)
    requires Utf8Char(c) == Utf8Char(d)
    ensures c == d
  {
    Utf8DecodeChar(c);
    Utf8DecodeChar(d);
  }

  /** Different strings encode differently. */
  lemma {:induction false} Utf8Injective(a: string, b: string)
    requires Utf8(a) == Utf8(b)
    ensures a == b
  {
    if a != [] && b != [] {
      var ra, rb := Utf8Char(a[0]), Utf8Char(b[0]);
      assert Utf8(a) == ra + Utf8(a[1..]) && Utf8(b) == rb + Utf8(b[1..]);
      assert ra[0] == Utf8(a)[0] == rb[0];
      Utf8Lead(a[0]);
      Utf8Lead(b[0]);
      assert |ra| == |rb|;
      assert ra == Utf8(a)[..|ra|] == rb;
      Utf8CharInjective(a[0], b[0]);
      assert Utf8(a[1..]) == Utf8(a)[|ra|..] == Utf8(b[1..]);
      Utf8Injective(a[1..], b[1..]);
      assert a == [a[0]] + a[1..] && b == [b[0]] + b[1..];
    }
  }

  /** Encoding distributes over concatenation. */
  lemma {:induction false} Utf8Append(s: string, t: string)
    ensures Utf8(s + t) == Utf8(s) + Utf8(t)
  {
    if s != [] {
      var st := s + t;
      assert st[0] == s[0] && st[1..] == s[1..] + t;
      Utf8Append(s[1..], t);
      assert Utf8(st) == Utf8Char(s[0]) + Utf8(s[1..] + t);
    } else {
      assert s + t == t;
    }
  }

  /** The key bcrypt's Blowfish key schedule reads from a password: the UTF-8
      bytes with a NUL terminator appended (the `$2a$`/`$2b$` variants), read
      cyclically for 72 bytes. Bytes past the 72nd are never read. */
  function BcryptKey(pw: string): (k: seq<Byte>)
    ensures |k| == 72
  {
    Cycle(Utf8(pw) + [0], 72)
  }

  /** The first `n` bytes of `u` repeated without end. */
  function Cycle(u: seq<Byte>, n: nat): (k: seq<Byte>)
    requires |u| > 0
    ensures |k| == n
  {
    seq(n, i requires 0 <= i < n => u[i % |u|])
  }

  /** Before it wraps, a cycle reads `u` itself. */
  lemma CycleBelow(u: seq<Byte>, n: nat, i: nat)
    requires i < n && i < |u|
    ensures Cycle(u, n)[i] == u[i]
  {
    assert i % |u| == i;
  }

  /** Before the cycle wraps, the key is the terminated encoding itself. */
  lemma KeyPrefix(pw: string, i: nat)
    requires i < 72 && i <= |Utf8(pw)|
    ensures BcryptKey(pw)[i] == (Utf8(pw) + [0])[i]
  {
    CycleBelow(Utf8(pw) + [0], 72, i);
  }

  /** Two passwords whose encodings share their first 72 bytes have the same
      key, whatever follows. */
  lemma SharedPrefixSameKey(p: string, x: string, y: string)
    requires |Utf8(p)| >= 72
    ensures BcryptKey(p + x) == BcryptKey(p + y)
  {
    Utf8Append(p, x);
    Utf8Append(p, y);
    forall i | 0 <= i < 72 ensures BcryptKey(p + x)[i] == BcryptKey(p + y)[i] {
      KeyPrefix(p + x, i);
      KeyPrefix(p + y, i);
      assert (Utf8(p + x) + [0])[i] == Utf8(p)[i] == (Utf8(p + y) + [0])[i];
    }
  }

  /** A password of fewer than 72 bytes with no NUL byte is the only such
      password with its key: the terminator shows where it ends. */
  lemma ShortKeysDistinct(a: string, b: string)
    requires |Utf8(a)| < 72 && |Utf8(b)| < 72
    requires 0 !in Utf8(a) && 0 !in Utf8(b)
    requires Utf8(a) != Utf8(b)
    ensures BcryptKey(a) != BcryptKey(b)
  {
    var u, v := Utf8(a), Utf8(b);
    if |u| < |v| {
      KeyPrefix(a, |u|);
      KeyPrefix(b, |u|);
      assert v[|u|] in v;
    } else if |v| < |u| {
      KeyPrefix(a, |v|);
      KeyPrefix(b, |v|);
      assert u[|v|] in u;
    } else {
      var j :| 0 <= j < |u| && u[j] != v[j];
      KeyPrefix(a, j);
      KeyPrefix(b, j);
    }
  }

  /** A password bcrypt reads in full: under 72 bytes and free of NUL bytes,
      so that its terminator falls inside the key. */
  predicate ReadInFull(pw: string) {
    |Utf8(pw)| < 72 && 0 !in Utf8(pw)
  }

  /** Among passwords read in full, the key determines the password. */
  lemma KeyDeterminesPassword(a: string, b: string)
    requires ReadInFull(a) && ReadInFull(b)
    ensures BcryptKey(a) == BcryptKey(b) <==> a == b
  {
    if a != b {
      if Utf8(a) == Utf8(b) {
        Utf8Injective(a, b);
      }
      ShortKeysDistinct(a, b);
    }
  }

  /** A candidate matches a hash exactly when bcrypt reads the same key from
      it as from the hashed password, under any salt. That different keys
      never collide is the hash's collision resistance, taken as given. */
  ghost predicate BcryptLaws(b: Bcrypt) {
    forall pw, other, salt :: b.compare(other, b.hash(pw, salt)) <==> BcryptKey(other) == BcryptKey(pw)
  }

  /** The key bytes as characters. */
  function KeyText(k: seq<Byte>): (r: string)
    ensures |r| == |k|
    ensures forall i :: 0 <= i < |k| ==> r[i] == k[i] as char
  {
    seq(|k|, i requires 0 <= i < |k| => k[i] as char)
  }

  /** A symbolic hasher: the laws are consistent. */
  function SymbolicBcrypt(): Bcrypt {
    Bcrypt((pw: string, salt: Salt) => "$2a$" + KeyText(BcryptKey(pw)),
           (pw: string, h: string) => h == "$2a$" + KeyText(BcryptKey(pw)))
  }

  lemma SymbolicBcryptLawful()
    ensures BcryptLaws(SymbolicBcrypt())
  {
    var b := SymbolicBcrypt();
    forall pw: string, other: string, salt: Salt
      ensures b.compare(other, b.hash(pw, salt)) <==> BcryptKey(other) == BcryptKey(pw)
    {
      var ko, kp := BcryptKey(other), BcryptKey(pw);
      if ko != kp {
        var j :| 0 <= j < 72 && ko[j] != kp[j];
        var h1, h2 := "$2a$" + KeyText(ko), "$2a$" + KeyText(kp);
        assert h1[4 + j] == KeyText(ko)[j] && h2[4 + j] == KeyText(kp)[j];
        assert h1 != h2;
      }
    }
  }

  // ---------------------------------------------------------------------------
  // jsonwebtoken
  // ---------------------------------------------------------------------------

  /** The payload a token carries. */
  datatype Claims = Claims(username: string, role: string)

  /** `sign(payload, secret, iat, expiresIn)`, `verify(token, secret, now)`
      (`None` standing for the thrown `JsonWebTokenError`/`TokenExpiredError`),
      and `span(expiresIn)`: the number of seconds an `expiresIn` string means,
      `None` when the library rejects it. */
  datatype Jwt = Jwt(
    sign: (Claims, string, int, string) -> string,
    verify: (string, string, int) -> Option<Claims>,
    span: string -> Option<int>)

  const SevenDays := 7 * 24 * 60 * 60

  ghost predicate JwtLaws(j: Jwt) {
    // a signed token is non-empty and free of spaces (base64url segments and dots)
    && (forall c, key, iat, e :: j.sign(c, key, iat, e) != [] && ' ' !in j.sign(c, key, iat, e))
    // under the signing secret it verifies to its payload strictly before expiry
    && (forall c, key, iat, e, now :: j.span(e).Some? && now < iat + j.span(e).value
          ==> j.verify(j.sign(c, key, iat, e), key, now) == Some(c))
    // and fails from the expiry instant on
    && (forall c, key, iat, e, now :: j.span(e).Some? && iat + j.span(e).value <= now
          ==> j.verify(j.sign(c, key, iat, e), key, now) == None)
    // only tokens signed with the secret, and not yet expired, verify
    && (forall t, key, now :: j.verify(t, key, now).Some? ==>
          exists iat, e :: j.sign(j.verify(t, key, now).value, key, iat, e) == t
                           && j.span(e).Some? && now < iat + j.span(e).value)
    // "7d" means seven days
    && j.span("7d") == Some(SevenDays)
  }

  /** A symbolic jsonwebtoken, to show that the laws are consistent: the token
      is the escaped username, role and key and the expiry instant, joined by
      dots; `verify` re-encodes what it decodes under the key it is given (the
      signature check) and compares the expiry with the clock. */
  function EscapeChar(c: char): (r: string)
    ensures ' ' !in r && '.' !in r
  {
    if c == ' ' then "~s" else if c == '.' then "~d" else if c == '~' then "~~" else [c]
  }

  /** A token field with its spaces and dots escaped. */
  function Escape(s: string): (r: string)
    ensures ' ' !in r && '.' !in r
  {
    if s == [] then [] else EscapeChar(s[0]) + Escape(s[1..])
  }

  function Unescape(s: string): string {
    if s == [] then []
    else if s[0] == '~' && |s| >= 2 then
      [if s[1] == 's' then ' ' else if s[1] == 'd' then '.' else '~'] + Unescape(s[2..])
    else [s[0]] + Unescape(s[1..])
  }

  /** Escaping is undone by unescaping. */
  lemma {:induction false} UnescapeEscape(s: string)
    ensures Unescape(Escape(s)) == s
  {
    if s != [] {
      UnescapeEscape(s[1..]);
      var e := EscapeChar(s[0]);
      var rest := Escape(s[1..]);
      assert Escape(s) == e + rest;
      if s[0] == ' ' || s[0] == '.' || s[0] == '~' {
        assert (e + rest)[2..] == rest;
      } else {
        assert (e + rest)[1..] == rest;
      }
      assert s == [s[0]] + s[1..];
    }
  }

  /** An instant as a sign letter followed by its magnitude in unary. */
  function EncodeInt(n: int): (r: string)
    ensures ' ' !in r && '.' !in r
    ensures DecodeInt(r) == n
  {
    if n >= 0 then "p" + seq(n, _ => 'i') else "n" + seq(-n, _ => 'i')
  }

  function DecodeInt(s: string): int {
    if s == [] then 0 else if s[0] == 'p' then |s| - 1 else -(|s| - 1)
  }

  function EncodeToken(c: Claims, key: string, exp: int): string {
    Join([Escape(c.username), Escape(c.role), Escape(key), EncodeInt(exp)], '.')
  }

  function SymbolicSpan(e: string): Option<int> {
    if e == "7d" then Some(SevenDays) else None
  }

  function SymbolicSign(c: Claims, key: string, iat: int, e: string): string {
    EncodeToken(c, key, iat + SymbolicSpan(e).GetOr(0))
  }

  function SymbolicVerify(t: string, key: string, now: int): Option<Claims> {
    var parts := Split(t, '.');
    if |parts| != 4 then None
    else
      var c := Claims(Unescape(parts[0]), Unescape(parts[1]));
      var exp := DecodeInt(parts[3]);
      if EncodeToken(c, key, exp) == t && now < exp then Some(c) else None
  }

  function SymbolicJwt(): Jwt {
    Jwt(SymbolicSign, SymbolicVerify, SymbolicSpan)
  }

  /** A token decodes to what it encodes, and is non-empty and space-free. */
  lemma EncodeTokenDecodes(c: Claims, key: string, exp: int, now: int)
    ensures var t := EncodeToken(c, key, exp);
      && t != [] && ' ' !in t
      && SymbolicVerify(t, key, now) == if now < exp then Some(c) else None
  {
    var parts := [Escape(c.username), Escape(c.role), Escape(key), EncodeInt(exp)];
    var t := EncodeToken(c, key, exp);
    SplitJoin(parts, '.');
    JoinAvoids(parts, '.', ' ');
    assert |t| >= 3 by {
      assert t == parts[0] + "." + Join(parts[1..], '.');
      assert Join(parts[1..], '.') == parts[1] + "." + Join(parts[2..], '.');
    }
    UnescapeEscape(c.username);
    UnescapeEscape(c.role);
  }

  /** The jsonwebtoken laws hold together. */
  lemma SymbolicJwtLawful()
    ensures JwtLaws(SymbolicJwt())
  {
    var j := SymbolicJwt();
    forall c, key, iat, e ensures j.sign(c, key, iat, e) != [] && ' ' !in j.sign(c, key, iat, e) {
      EncodeTokenDecodes(c, key, iat + SymbolicSpan(e).GetOr(0), 0);
    }
    forall c, key, iat, e, now
      ensures j.span(e).Some? ==>
                (j.verify(j.sign(c, key, iat, e), key, now)
                   == if now < iat + j.span(e).value then Some(c) else None)
    {
      EncodeTokenDecodes(c, key, iat + SymbolicSpan(e).GetOr(0), now);
    }
    forall t, key, now | j.verify(t, key, now).Some?
      ensures exists iat, e :: j.sign(j.verify(t, key, now).value, key, iat, e) == t
                               && j.span(e).Some? && now < iat + j.span(e).value
    {
      var parts := Split(t, '.');
      var c := Claims(Unescape(parts[0]), Unescape(parts[1]));
      var exp := DecodeInt(parts[3]);
      assert j.verify(t, key, now).value == c && EncodeToken(c, key, exp) == t && now < exp;
      assert j.sign(c, key, exp - SevenDays, "7d") == t;
    }
  }

  // ---------------------------------------------------------------------------
  // The Python backend's auth module
  // ---------------------------------------------------------------------------

  /** The claims `create_access_token` is given: the username as `sub`. */
  datatype PyClaims = PyClaims(sub: string, role: string)

  datatype PyAuth = PyAuth(
    verifyPassword: (string, string) -> bool,
    createAccessToken: (PyClaims, int) -> string)
}
