/** Access tokens: key rotation, parsing and revocation (pkg/jwt/jwt.go,
    pkg/jwt/redis_store.go). Times are milliseconds, except in claims, which count whole
    seconds (section 2 of RFC 7519, NumericDate). */
module Jwt {
  import opened Base

  const HS256: string := "HS256"
  const ACCESS: string := "access"

  datatype Claims = Claims(
    userID: nat,
    role: string,
    tenantID: string,
    tokenType: string,
    issuer: string,
    audience: seq<string>,
    expiresAt: Option<int>,
    notBefore: Option<int>,
    id: string)

  /** What is signed: the header and the claims. */
  datatype Body = Body(alg: string, kid: Option<string>, claims: Claims)

  datatype RawToken = Empty | Malformed | Signed(body: Body, mac: int)

  /** The keyed hash of a body; nothing is assumed about it. */
  type Hmac = (string, Body) -> int

  datatype Config = Config(
    appName: string,
    issuer: string,
    accessTTLSec: int,
    accessSecret: string,
    previousAccessSecret: string)

  datatype SigningKey = SigningKey(kid: string, secret: string)

  /** No more of the secret than its first eight bytes. */
  function KeyID(secret: string): (kid: string)
    ensures kid <= secret && |kid| <= 8 && (|secret| <= 8 ==> kid == secret) && (|secret| > 8 ==> |kid| == 8)
  {
    if |secret| <= 8 then secret else secret[..8]
  }

  ghost predicate HasSecret(keys: seq<SigningKey>, secret: string) {
    exists k :: k in keys && k.secret == secret
  }

  function BuildKeys(primary: string, previous: string): (keys: seq<SigningKey>)
    ensures primary != "" ==> keys != [] && keys[0].secret == primary
    ensures forall k | k in keys :: k.kid == KeyID(k.secret)
    ensures forall i, j | 0 <= i < j < |keys| :: keys[i].secret != keys[j].secret
    ensures forall s :: HasSecret(keys, s) <==> s != "" && (s == primary || s == previous)
  {
    var first := if primary != "" then [SigningKey(KeyID(primary), primary)] else [];
    var second := if previous != "" && previous != primary then [SigningKey(KeyID(previous), previous)] else [];
    assert primary != "" ==> SigningKey(KeyID(primary), primary) in first + second;
    assert previous != "" && previous != primary ==> SigningKey(KeyID(previous), previous) in first + second;
    first + second
  }

  function AccessKeys(cfg: Config): seq<SigningKey> { BuildKeys(cfg.accessSecret, cfg.previousAccessSecret) }

  predicate Verifies(hmac: Hmac, token: RawToken, secret: string) {
    token.Signed? && token.mac == hmac(secret, token.body)
  }

  /** Section 4.1.4 of RFC 7519: not on or after `exp`. */
  predicate Expired(claims: Claims, now: int) { claims.expiresAt.Some? && claims.expiresAt.value * 1000 <= now }

  /** Section 4.1.5 of RFC 7519: not before `nbf`. */
  predicate TooEarly(claims: Claims, now: int) { claims.notBefore.Some? && now < claims.notBefore.value * 1000 }

  datatype ParseError = Unparsable | NoKey | BadSignature | TokenExpired | NotYetValid

  /** The library's parser: the key function is asked first, the signature is checked before
      the claims. `secret` is None when the key function refuses. */
  function ParseWithClaims(hmac: Hmac, token: RawToken, secret: Option<string>, now: int): Result<Claims, ParseError> {
    if !token.Signed? then Err(Unparsable)
    else if token.body.alg != HS256 || secret.None? then Err(NoKey)
    else if !Verifies(hmac, token, secret.value) then Err(BadSignature)
    else if Expired(token.body.claims, now) then Err(TokenExpired)
    else if TooEarly(token.body.claims, now) then Err(NotYetValid)
    else Ok(token.body.claims)
  }

  predicate ClaimsFit(cfg: Config, claims: Claims, tokenType: string) {
    && claims.tokenType == tokenType && claims.id != "" && claims.issuer == cfg.issuer
    && cfg.appName in claims.audience && claims.userID != 0
  }

  /** The rule the parser implements: some configured key verifies an HS256 token whose
      times and claims fit. The key id of the header plays no part in it. */
  ghost predicate Accepts(
    hmac: Hmac, cfg: Config, token: RawToken, keys: seq<SigningKey>, tokenType: string, now: int)
  {
    && token.Signed? && token.body.alg == HS256
    && (exists k :: k in keys && Verifies(hmac, token, k.secret))
    && !Expired(token.body.claims, now) && !TooEarly(token.body.claims, now)
    && ClaimsFit(cfg, token.body.claims, tokenType)
  }

  datatype AuthError = Unauthorized | TokenInvalid | TokenBlacklisted | StoreError

  method ContainsAudience(audience: seq<string>, expected: string) returns (found: bool)
    ensures found <==> expected in audience
  {
    for i := 0 to |audience|
      invariant expected !in audience[..i]
    {
      if audience[i] == expected { return true; }
      assert audience[..i + 1] == audience[..i] + [audience[i]];
    }
    assert audience[..|audience|] == audience;
    return false;
  }

  /** Secrets by key id; a later key takes the place of an earlier one with the same id. */
  method KeyMap(keys: seq<SigningKey>) returns (secrets: map<string, string>)
    ensures forall kid | kid in secrets :: exists k :: k in keys && k.kid == kid && k.secret == secrets[kid]
    ensures forall k | k in keys :: k.kid in secrets
  {
    secrets := map[];
    for i := 0 to |keys|
      invariant forall kid | kid in secrets :: exists k :: k in keys && k.kid == kid && k.secret == secrets[kid]
      invariant forall j | 0 <= j < i :: keys[j].kid in secrets
    {
      assert keys[i] in keys;
      secrets := secrets[keys[i].kid := keys[i].secret];
    }
  }

  /** First the key the header names, then every key in turn, giving up early on an expired token. */
  method ParseByKeys(hmac: Hmac, token: RawToken, keys: seq<SigningKey>, now: int)
      returns (parsed: Result<Claims, ParseError>)
    ensures parsed.Ok? <==>
              && token.Signed? && token.body.alg == HS256
              && (exists k :: k in keys && Verifies(hmac, token, k.secret))
              && !Expired(token.body.claims, now) && !TooEarly(token.body.claims, now)
    ensures parsed.Ok? ==> parsed.value == token.body.claims
  {
    var secrets := KeyMap(keys);
    var named := None;
    if token.Signed? && token.body.kid.Some? && token.body.kid.value != "" && token.body.kid.value in secrets {
      named := Some(secrets[token.body.kid.value]);
    }
    parsed := ParseWithClaims(hmac, token, named, now);
    if parsed.Ok? {
      return;
    }
    for i := 0 to |keys|
      invariant parsed.Err?
      invariant forall j | 0 <= j < i :: ParseWithClaims(hmac, token, Some(keys[j].secret), now).Err?
    {
      parsed := ParseWithClaims(hmac, token, Some(keys[i].secret), now);
      if parsed.Ok? {
        assert keys[i] in keys;
        return;
      }
      if parsed.error.TokenExpired? {
        return;
      }
    }
  }

  /** `parse` accepts exactly what the rule accepts, for any key id in the header, two
      secrets with the same key id included. */
  method Parse(hmac: Hmac, cfg: Config, token: RawToken, keys: seq<SigningKey>, tokenType: string, now: int)
    returns (parsed: Result<Claims, AuthError>)
    ensures parsed.Ok? <==> Accepts(hmac, cfg, token, keys, tokenType, now)
    ensures parsed.Ok? ==> parsed.value == token.body.claims
    ensures parsed.Err? ==> parsed.error == if token.Empty? then Unauthorized else TokenInvalid
  {
    if token.Empty? {
      return Err(Unauthorized);
    }
    if |keys| == 0 {
      return Err(TokenInvalid);
    }
    var verified := ParseByKeys(hmac, token, keys, now);
    if verified.Err? {
      return Err(TokenInvalid);
    }
    var claims := verified.value;
    if claims.tokenType != tokenType || claims.id == "" || claims.issuer != cfg.issuer {
      return Err(TokenInvalid);
    }
    var forUs := ContainsAudience(claims.audience, cfg.appName);
    if !forUs || claims.userID == 0 {
      return Err(TokenInvalid);
    }
    return Ok(claims);
  }

  // ------------------------------------------------------------- minting and rotation

  /** A claim keeps whole seconds only. */
  function NumericDate(millis: int): int { millis / 1000 }

  datatype Subject = Subject(userID: nat, role: string, tenantID: string)

  function NewClaims(cfg: Config, subject: Subject, tokenType: string, id: string, now: int, expiry: int): Claims {
    Claims(subject.userID, subject.role, subject.tenantID, tokenType, cfg.issuer, [cfg.appName],
           Some(NumericDate(expiry)), Some(NumericDate(now)), id)
  }

  function Sign(hmac: Hmac, claims: Claims, key: SigningKey): RawToken {
    var body := Body(HS256, Some(key.kid), claims);
    Signed(body, hmac(key.secret, body))
  }

  /** The access token of a pair generated at `now`. */
  function Mint(hmac: Hmac, cfg: Config, subject: Subject, id: string, now: int): RawToken
    requires AccessKeys(cfg) != []
  {
    Sign(hmac, NewClaims(cfg, subject, ACCESS, id, now, now + cfg.accessTTLSec * 1000), AccessKeys(cfg)[0])
  }

  lemma WholeSeconds(millis: int)
    ensures millis - 1000 < NumericDate(millis) * 1000 <= millis
  {
  }

  /** A token stays accepted until its expiry when the secret it was signed with becomes the
      previous one, whatever the new secret is, and not a moment longer; the expiry in the
      token is the reported one rounded down to the second. */
  lemma RotationKeepsTokens(
    hmac: Hmac, minting: Config, rotated: Config, subject: Subject, id: string, mintedAt: int, now: int)
    requires minting.accessSecret != "" && subject.userID != 0 && id != ""
    requires rotated.issuer == minting.issuer && rotated.appName == minting.appName
    requires rotated.accessSecret == minting.accessSecret || rotated.previousAccessSecret == minting.accessSecret
    ensures var token := Mint(hmac, minting, subject, id, mintedAt);
            var expiry := mintedAt + minting.accessTTLSec * 1000;
            && (Accepts(hmac, rotated, token, AccessKeys(rotated), ACCESS, now) <==>
                  NumericDate(mintedAt) * 1000 <= now < NumericDate(expiry) * 1000)
            && mintedAt - 1000 < NumericDate(mintedAt) * 1000 <= mintedAt
            && expiry - 1000 < NumericDate(expiry) * 1000 <= expiry
  {
    var token := Mint(hmac, minting, subject, id, mintedAt);
    WholeSeconds(mintedAt);
    WholeSeconds(mintedAt + minting.accessTTLSec * 1000);
    assert AccessKeys(minting)[0].secret == minting.accessSecret;
    assert HasSecret(AccessKeys(rotated), minting.accessSecret);
    var k :| k in AccessKeys(rotated) && k.secret == minting.accessSecret;
    assert Verifies(hmac, token, k.secret);
  }

  /** A minted token speaks for its subject and for nobody else, under the primary key. */
  lemma MintedForSubject(hmac: Hmac, cfg: Config, subject: Subject, id: string, now: int)
    requires cfg.accessSecret != ""
    ensures var token := Mint(hmac, cfg, subject, id, now);
            && token.Signed? && token.body.alg == HS256 && token.body.kid == Some(KeyID(cfg.accessSecret))
            && token.mac == hmac(cfg.accessSecret, token.body)
            && var claims := token.body.claims;
            && claims.userID == subject.userID && claims.role == subject.role && claims.tenantID == subject.tenantID
            && claims.id == id && claims.tokenType == ACCESS && claims.issuer == cfg.issuer
            && claims.audience == [cfg.appName]
            && claims.notBefore == Some(NumericDate(now))
            && claims.expiresAt == Some(NumericDate(now + cfg.accessTTLSec * 1000))
  {
    assert AccessKeys(cfg)[0].secret == cfg.accessSecret && AccessKeys(cfg)[0] in AccessKeys(cfg);
  }

  // ------------------------------------------------------------- revocation

  /** Revoked token ids, each with the moment its entry expires. */
  type Blacklist = map<string, int>

  predicate Blacklisted(store: Blacklist, id: string, now: int) { id in store && now < store[id] }

  /** The moments of one authentication: the clock the claims are checked against, and the
      later one at which Redis looks the id up. */
  ghost predicate Authenticates(
    hmac: Hmac, cfg: Config, store: Blacklist, token: RawToken, parsedAt: int, lookedUpAt: int)
  {
    && Accepts(hmac, cfg, token, AccessKeys(cfg), ACCESS, parsedAt)
    && !Blacklisted(store, token.body.claims.id, lookedUpAt)
  }

  /** The manager, as an object over the revocation set in Redis. */
  class Manager {
    const cfg: Config
    const hmac: Hmac
    var blacklist: Blacklist

    constructor (cfg: Config, hmac: Hmac)
      ensures this.cfg == cfg && this.hmac == hmac && blacklist == map[]
    {
      this.cfg, this.hmac, this.blacklist := cfg, hmac, map[];
    }

    method AuthenticateAccessToken(token: RawToken, parsedAt: int, lookedUpAt: int, storeFails: bool)
      returns (claims: Result<Claims, AuthError>)
      ensures claims.Ok? <==> !storeFails && Authenticates(hmac, cfg, blacklist, token, parsedAt, lookedUpAt)
      ensures claims.Ok? ==> claims.value == token.body.claims
      ensures claims.Err? ==>
                claims.error == if token.Empty? then Unauthorized
                                else if !Accepts(hmac, cfg, token, AccessKeys(cfg), ACCESS, parsedAt) then TokenInvalid
                                else if storeFails then StoreError
                                else TokenBlacklisted
    {
      claims := Parse(hmac, cfg, token, AccessKeys(cfg), ACCESS, parsedAt);
      if claims.Err? {
        return;
      }
      if storeFails {
        return Err(StoreError);
      }
      if claims.value.id in blacklist && lookedUpAt < blacklist[claims.value.id] {
        return Err(TokenBlacklisted);
      }
    }

    /** The ttl is computed at `measuredAt` and takes effect at `storedAt`. */
    method BlacklistAccessToken(token: RawToken, parsedAt: int, measuredAt: int, storedAt: int, storeFails: bool)
      returns (error: Option<AuthError>)
      requires parsedAt <= measuredAt <= storedAt
      requires Accepts(hmac, cfg, token, AccessKeys(cfg), ACCESS, parsedAt) ==> token.body.claims.expiresAt.Some?
      modifies this
      ensures error.None? <==>
                && !storeFails && Accepts(hmac, cfg, token, AccessKeys(cfg), ACCESS, parsedAt)
                && measuredAt < token.body.claims.expiresAt.value * 1000
      ensures blacklist ==
                if error.Some? then old(blacklist)
                else AfterRevocation(old(blacklist), token.body.claims, measuredAt, storedAt)
      // the entry lasts for what was left of the token when that was measured
      ensures error.None? ==>
                var left := token.body.claims.expiresAt.value * 1000 - measuredAt;
                left > 0 && blacklist == old(blacklist)[token.body.claims.id := storedAt + left]
      ensures error.Some? ==>
                error.value == if token.Empty? then Unauthorized
                               else if !Accepts(hmac, cfg, token, AccessKeys(cfg), ACCESS, parsedAt)
                                       || token.body.claims.expiresAt.value * 1000 <= measuredAt then TokenInvalid
                               else StoreError
    {
      var claims := Parse(hmac, cfg, token, AccessKeys(cfg), ACCESS, parsedAt);
      if claims.Err? {
        return Some(claims.error);
      }
      var ttl := claims.value.expiresAt.value * 1000 - measuredAt;
      if ttl <= 0 {
        return Some(TokenInvalid);
      }
      if storeFails {
        return Some(StoreError);
      }
      blacklist := blacklist[claims.value.id := storedAt + ttl];
      return None;
    }
  }

  function AfterRevocation(store: Blacklist, claims: Claims, measuredAt: int, storedAt: int): Blacklist
    requires claims.expiresAt.Some?
  {
    store[claims.id := storedAt + claims.expiresAt.value * 1000 - measuredAt]
  }

  datatype Revocation = Revocation(claims: Claims, measuredAt: int, storedAt: int)

  /** Revocations measured before they are stored; an id belongs to one token. */
  ghost predicate Sound(revocations: seq<Revocation>) {
    && (forall r | r in revocations :: r.measuredAt <= r.storedAt && r.claims.expiresAt.Some?)
    && (forall q, r | q in revocations && r in revocations && q.claims.id == r.claims.id ::
            q.claims.expiresAt == r.claims.expiresAt)
  }

  function AfterRevocations(store: Blacklist, revocations: seq<Revocation>): Blacklist
    requires forall r | r in revocations :: r.claims.expiresAt.Some?
  {
    if revocations == [] then store
    else
      var last := revocations[|revocations| - 1];
      var before := AfterRevocations(store, revocations[..|revocations| - 1]);
      AfterRevocation(before, last.claims, last.measuredAt, last.storedAt)
  }

  lemma {:induction false} EntryCoversToken(store: Blacklist, revocations: seq<Revocation>, claims: Claims)
    requires Sound(revocations) && exists r :: r in revocations && r.claims == claims
    ensures var after := AfterRevocations(store, revocations);
            claims.id in after && after[claims.id] >= claims.expiresAt.value * 1000
  {
    var n := |revocations| - 1;
    var last := revocations[n];
    assert last in revocations;
    var r :| r in revocations && r.claims == claims;
    if last.claims.id != claims.id {
      assert revocations == revocations[..n] + [last];
      assert r in revocations[..n];
      EntryCoversToken(store, revocations[..n], claims);
    } else {
      assert last.claims.expiresAt == r.claims.expiresAt;
    }
  }

  /** Once a token was revoked, however many other tokens are, it authenticates again only in
      a call that checked its claims before it expired and looked it up after its entry did;
      so never when the lookup comes before the expiry, nor when the check comes after it. */
  lemma {:induction false} RevocationIsComplete(
    hmac: Hmac, cfg: Config, store: Blacklist, revocations: seq<Revocation>, token: RawToken,
    parsedAt: int, lookedUpAt: int)
    requires token.Signed? && Sound(revocations) && parsedAt <= lookedUpAt
    requires exists r :: r in revocations && r.claims == token.body.claims
    ensures var after := AfterRevocations(store, revocations);
            var expiry := token.body.claims.expiresAt.value * 1000;
            && token.body.claims.id in after
            && (Authenticates(hmac, cfg, after, token, parsedAt, lookedUpAt) <==>
                  Accepts(hmac, cfg, token, AccessKeys(cfg), ACCESS, parsedAt)
                      && after[token.body.claims.id] <= lookedUpAt)
            && (lookedUpAt < expiry || expiry <= parsedAt ==>
                    !Authenticates(hmac, cfg, after, token, parsedAt, lookedUpAt))
  {
    EntryCoversToken(store, revocations, token.body.claims);
  }

  /** Minting and authenticating: whoever presents the token is taken for the subject it was
      minted for, until it expires or is revoked, whether or not its key was rotated since. */
  lemma MintedIsAuthenticated(
    hmac: Hmac, minting: Config, cfg: Config, store: Blacklist, subject: Subject, id: string,
    mintedAt: int, parsedAt: int, lookedUpAt: int)
    requires minting.accessSecret != "" && subject.userID != 0 && id != "" && mintedAt <= parsedAt
    requires cfg.issuer == minting.issuer && cfg.appName == minting.appName
    requires cfg.accessSecret == minting.accessSecret || cfg.previousAccessSecret == minting.accessSecret
    ensures var token := Mint(hmac, minting, subject, id, mintedAt);
            var expiry := NumericDate(mintedAt + minting.accessTTLSec * 1000) * 1000;
            && (Authenticates(hmac, cfg, store, token, parsedAt, lookedUpAt) <==>
                  parsedAt < expiry && !Blacklisted(store, id, lookedUpAt))
            && token.body.claims.userID == subject.userID && token.body.claims.role == subject.role
            && token.body.claims.tenantID == subject.tenantID && token.body.claims.id == id
  {
    RotationKeepsTokens(hmac, minting, cfg, subject, id, mintedAt, parsedAt);
    MintedForSubject(hmac, minting, subject, id, mintedAt);
  }
}
