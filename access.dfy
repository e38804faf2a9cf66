/** Access control of `app/utils/auth.py`: password hashing, token issue
    and decoding, and the `token_required` guard in front of every route
    but login. bcrypt and PyJWT are outside the model: they enter as a
    `Crypto` value whose functions are unknown, constrained only by the
    round-trip laws of `Sound`. */
module Access {
  import opened Common
  import opened Schema

  /** The claims `generate_token` puts in the payload. */
  datatype Claims = Claims(userId: Uuid, username: string, exp: int)

  /** bcrypt's salt, drawn by `gensalt()`. */
  type Salt = nat

  /** The foreign primitives: bcrypt's `hashpw` and `checkpw`, and HS256
      signing and signature checking (`verify` answers `None` for a token
      that is malformed or whose signature does not match the key). */
  datatype Crypto = Crypto(
    hash: (string, Salt) -> string,
    matches: (string, string) -> bool,
    sign: (Claims, string) -> string,
    verify: (string, string) -> Option<Claims>)

  /** What the model assumes of the foreign primitives: a password checks
      against its own hash, a signed token verifies under the key that
      signed it, and a token is non-empty compact text without spaces (the
      base64url serialization of RFC 7519 section 3). */
  ghost predicate Sound(c: Crypto)
  {
    && (forall p, salt :: c.matches(p, c.hash(p, salt)))
    && (forall claims, key :: c.verify(c.sign(claims, key), key) == Some(claims))
    && (forall claims, key :: c.sign(claims, key) != "" && ' ' !in c.sign(claims, key))
  }

  /** The process-wide configuration: primitives and `SECRET_KEY`, read
      once at start-up and never changed. */
  datatype Config = Config(crypto: Crypto, secret: string)

  /** `timedelta(days=7)` in seconds. */
  const TokenLifetime: int := 7 * 24 * 60 * 60

  function HashPassword(c: Crypto, password: string, salt: Salt): string
  {
    c.hash(password, salt)
  }

  function VerifyPassword(c: Crypto, password: string, passwordHash: string): bool
  {
    c.matches(password, passwordHash)
  }

  lemma VerifyHashed(c: Crypto, password: string, salt: Salt)
    requires Sound(c)
    ensures VerifyPassword(c, password, HashPassword(c, password, salt))
  {
  }

  /** `generate_token`: the signed payload with `exp` seven days after the
      issue time (time in whole seconds). */
  function GenerateToken(cfg: Config, userId: Uuid, username: string, now: int): string
  {
    cfg.crypto.sign(Claims(userId, username, now + TokenLifetime), cfg.secret)
  }

  /** What `jwt.decode` does: check the signature, then the `exp` claim,
      which section 4.1.4 of RFC 7519 says the current time must be before. */
  datatype Decoded = BadToken | Expired(claims: Claims) | Valid(claims: Claims)

  function JwtDecode(cfg: Config, token: string, now: int): (d: Decoded)
    ensures d.BadToken? <==> cfg.crypto.verify(token, cfg.secret).None?
    ensures !d.BadToken? ==> Some(d.claims) == cfg.crypto.verify(token, cfg.secret)
    ensures !d.BadToken? ==> (d.Valid? <==> now < d.claims.exp)
  {
    match cfg.crypto.verify(token, cfg.secret)
    case None => BadToken
    case Some(claims) => if now < claims.exp then Valid(claims) else Expired(claims)
  }

  /** `decode_token`: `ExpiredSignatureError` and `InvalidTokenError` both
      become `None`. */
  function DecodeToken(cfg: Config, token: string, now: int): (r: Option<Claims>)
    ensures r.Some? <==> JwtDecode(cfg, token, now).Valid?
    ensures r.Some? ==> r.value == JwtDecode(cfg, token, now).claims
  {
    match JwtDecode(cfg, token, now)
    case Valid(claims) => Some(claims)
    case _ => None
  }

  /** A token issued now decodes, until seven days have passed, to exactly
      the claims it was issued with; from then on it decodes to nothing. */
  lemma TokenRoundTrip(cfg: Config, userId: Uuid, username: string, issued: int, now: int)
    requires Sound(cfg.crypto)
    ensures now < issued + TokenLifetime ==>
              DecodeToken(cfg, GenerateToken(cfg, userId, username, issued), now)
                == Some(Claims(userId, username, issued + TokenLifetime))
    ensures now >= issued + TokenLifetime ==>
              DecodeToken(cfg, GenerateToken(cfg, userId, username, issued), now) == None
  {
    var claims := Claims(userId, username, issued + TokenLifetime);
    assert cfg.crypto.verify(cfg.crypto.sign(claims, cfg.secret), cfg.secret) == Some(claims);
  }

  /** Python's `s.split(' ')`: the pieces between single spaces, empty
      pieces included. */
  function Split(s: string): (parts: seq<string>)
    ensures |parts| >= 1
    ensures forall i :: 0 <= i < |parts| ==> ' ' !in parts[i]
    ensures |parts| == 1 <==> ' ' !in s
  {
    if s == [] then [""]
    else
      var rest := Split(s[1..]);
      assert ' ' in s <==> s[0] == ' ' || ' ' in s[1..] by {
        assert s == [s[0]] + s[1..];
      }
      if s[0] == ' ' then [""] + rest
      else [[s[0]] + rest[0]] + rest[1..]
  }

  /** `' '.join(parts)`. */
  function Join(parts: seq<string>): string
    requires |parts| >= 1
  {
    if |parts| == 1 then parts[0] else parts[0] + " " + Join(parts[1..])
  }

  /** Splitting then joining gives the header back. */
  lemma {:induction false} JoinSplit(s: string)
    ensures Join(Split(s)) == s
  {
    if s != [] {
      var rest := Split(s[1..]);
      JoinSplit(s[1..]);
      if s[0] == ' ' {
        assert ([""] + rest)[1..] == rest;
      } else if |rest| == 1 {
        assert s == [s[0]] + s[1..];
      } else {
        var parts := [[s[0]] + rest[0]] + rest[1..];
        assert parts[1..] == rest[1..];
        assert Join(rest) == rest[0] + " " + Join(rest[1..]);
        assert s == [s[0]] + s[1..];
      }
    }
  }

  /** A word without spaces followed by a space splits off as the first piece. */
  lemma {:induction false} SplitWord(w: string, rest: string)
    requires ' ' !in w
    ensures Split(w + " " + rest) == [w] + Split(rest)
  {
    if w == [] {
      assert w + " " + rest == [' '] + rest;
      assert ([' '] + rest)[1..] == rest;
    } else {
      var s := w + " " + rest;
      assert s[1..] == w[1..] + " " + rest;
      assert ' ' !in w[1..] by {
        assert w == [w[0]] + w[1..];
      }
      SplitWord(w[1..], rest);
      assert [w[0]] + w[1..] == w;
    }
  }

  lemma {:induction false} SplitNoSpace(w: string)
    requires ' ' !in w
    ensures Split(w) == [w]
  {
    if w != [] {
      assert ' ' !in w[1..] by {
        assert w == [w[0]] + w[1..];
      }
      SplitNoSpace(w[1..]);
      assert [w[0]] + w[1..] == w;
    }
  }

  /** Joining pieces without spaces and splitting again gives the pieces back. */
  lemma {:induction false} SplitJoin(parts: seq<string>)
    requires |parts| >= 1
    requires forall i :: 0 <= i < |parts| ==> ' ' !in parts[i]
    ensures Split(Join(parts)) == parts
  {
    if |parts| == 1 {
      SplitNoSpace(parts[0]);
    } else {
      SplitJoin(parts[1..]);
      SplitWord(parts[0], Join(parts[1..]));
    }
  }

  /** `auth_header.split(' ')[1]`: `None` stands for the `IndexError` of a
      header with a single piece. */
  function HeaderToken(header: string): Option<string>
  {
    var parts := Split(header);
    if |parts| < 2 then None else Some(parts[1])
  }

  /** The header yields a token exactly when it has a space; the token is
      the second word, whatever the first word is (the scheme is never
      compared with "Bearer", against section 2.1 of RFC 6750); and a
      scheme followed by nothing or by two spaces yields an empty token. */
  lemma HeaderTokenCases(header: string, scheme: string, token: string)
    requires ' ' !in scheme && ' ' !in token
    ensures HeaderToken(header).None? <==> ' ' !in header
    ensures HeaderToken(scheme + " " + token) == Some(token)
    ensures HeaderToken(scheme + "  " + token) == Some("")
  {
    SecondWord(scheme, token);
    EmptySecondWord(scheme, token);
  }

  lemma SecondWord(scheme: string, token: string)
    requires ' ' !in scheme && ' ' !in token
    ensures HeaderToken(scheme + " " + token) == Some(token)
  {
    SplitWord(scheme, token);
    SplitNoSpace(token);
  }

  lemma EmptySecondWord(scheme: string, token: string)
    requires ' ' !in scheme && ' ' !in token
    ensures HeaderToken(scheme + "  " + token) == Some("")
  {
    assert scheme + "  " + token == scheme + " " + (" " + token);
    SplitWord(scheme, " " + token);
    assert " " + token == "" + " " + token;
    SplitWord("", token);
  }

  /** The outcome of `token_required`: call the route with the payload, or
      answer 401 without calling it. */
  datatype Verdict = Admit(user: Claims) | Refuse(failure: Failure)

  function Guard(cfg: Config, header: Option<string>, now: int): (v: Verdict)
    ensures v.Refuse? ==> Status(v.failure) == 401
    ensures header.None? ==> v == Refuse(TokenMissing)
    ensures header.Some? && ' ' !in header.value ==> v == Refuse(TokenMalformed)
    ensures v.Admit? <==> header.Some? && HeaderToken(header.value).Some?
                          && HeaderToken(header.value).value != ""
                          && JwtDecode(cfg, HeaderToken(header.value).value, now).Valid?
    ensures v.Admit? ==> v.user == JwtDecode(cfg, HeaderToken(header.value).value, now).claims
    ensures header.Some? && HeaderToken(header.value) == Some("") ==> v == Refuse(TokenMissing)
    ensures (&& header.Some? && HeaderToken(header.value).Some? && HeaderToken(header.value).value != ""
             && !JwtDecode(cfg, HeaderToken(header.value).value, now).Valid?)
            ==> v == Refuse(TokenRejected)
  {
    match header
    case None => Refuse(TokenMissing)
    case Some(h) =>
      HeaderTokenCases(h, "", "");
      match HeaderToken(h)
      case None => Refuse(TokenMalformed)
      case Some(token) =>
        if token == "" then Refuse(TokenMissing)
        else
          match DecodeToken(cfg, token, now)
          case None => Refuse(TokenRejected)
          case Some(claims) => Admit(claims)
  }

  /** An expired token and an otherwise invalid one are refused alike. */
  lemma ExpiredLooksLikeForged(cfg: Config, scheme: string, token: string, now: int)
    requires ' ' !in scheme && ' ' !in token && token != ""
    requires !JwtDecode(cfg, token, now).Valid?
    ensures Guard(cfg, Some(scheme + " " + token), now) == Refuse(TokenRejected)
  {
    HeaderTokenCases(scheme + " " + token, scheme, token);
  }

  /** End to end: a token from `generate_token`, presented after any scheme
      word and a space, admits the request with its claims until it
      expires, and is refused as invalid-or-expired afterwards. */
  lemma IssuedTokenAdmits(cfg: Config, scheme: string, userId: Uuid, username: string, issued: int, now: int)
    requires Sound(cfg.crypto) && ' ' !in scheme
    ensures var header := Some(scheme + " " + GenerateToken(cfg, userId, username, issued));
      && (now < issued + TokenLifetime ==>
            Guard(cfg, header, now) == Admit(Claims(userId, username, issued + TokenLifetime)))
      && (now >= issued + TokenLifetime ==> Guard(cfg, header, now) == Refuse(TokenRejected))
  {
    var token := GenerateToken(cfg, userId, username, issued);
    assert token != "" && ' ' !in token;
    HeaderTokenCases(scheme + " " + token, scheme, token);
    TokenRoundTrip(cfg, userId, username, issued, now);
  }
}
