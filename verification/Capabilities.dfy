/** What a capability asserts, how it is issued, and what must hold when it is presented. */
module Capabilities {
  import opened Json
  import ContentHashes
  import opened Base64Url
  import opened Tokens

  const CLAIMS_VERSION := "vcap.v1"
  const MAX_TTL_SECONDS := 900

  /** Times are in nanoseconds. */
  const SECOND := 1_000_000_000

  type Time = int
  type PublicKey = int

  /** A restriction the gateway enforces besides the bindings; its content is not modelled. */
  datatype Constraint = Constraint(text: string)

  datatype Claims = Claims(
    version: string, capabilityId: string,
    tenant: string, environment: string, agent: string, instance: string, session: string, principal: string,
    kind: string, toolId: Option<string>, operation: string, target: Option<string>,
    actionHash: ContentHashes.ContentHash,
    remitVersion: string, policyBundle: string, approvalId: Option<string>, constraints: seq<Constraint>,
    issuedAt: Time, expiresAt: Time, nonce: string, maxUses: nat)

  /** The action as the gateway sees it. */
  datatype PresentedAction = PresentedAction(
    tenant: string, environment: string, agent: string, instance: string, session: string, principal: string,
    kind: string, toolId: Option<string>, operation: string, target: Option<string>,
    actionHash: ContentHashes.ContentHash)

  datatype Refusal =
    | Version | Tenant | Environment | Agent | Instance | Session | Principal | Kind | Operation | Tool | Target
    | ActionHash
    | Expired | NotYetValid | EmptyLifetime | LifetimeTooLong

  /** The presented action that the claims are bound to. */
  function Bound(c: Claims): PresentedAction {
    PresentedAction(c.tenant, c.environment, c.agent, c.instance, c.session, c.principal, c.kind, c.toolId, c.operation,
                    c.target, c.actionHash)
  }

  /** The field that a refusal names does differ. */
  predicate Mismatched(c: Claims, p: PresentedAction, r: Refusal) {
    match r
    case Version => c.version != "vcap.v1"
    case Tenant => c.tenant != p.tenant
    case Environment => c.environment != p.environment
    case Agent => c.agent != p.agent
    case Instance => c.instance != p.instance
    case Session => c.session != p.session
    case Principal => c.principal != p.principal
    case Kind => c.kind != p.kind
    case Operation => c.operation != p.operation
    case Tool => c.toolId != p.toolId
    case Target => c.target != p.target
    case ActionHash => c.actionHash != p.actionHash
    case _ => false
  }

  /**
   Compare field by field, the tenant first. Every field of the presented action takes part,
   and a foreign tenant is reported as such whatever else differs.
   */
  function CheckBinding(c: Claims, p: PresentedAction): (r: Option<Refusal>)
    ensures r.Some? ==> Mismatched(c, p, r.value)
    ensures r.None? <==> c.version == CLAIMS_VERSION && Bound(c) == p
    ensures r == Some(Tenant) <==> c.version == CLAIMS_VERSION && c.tenant != p.tenant
  {
    if c.version != CLAIMS_VERSION then Some(Version)
    else if c.tenant != p.tenant then Some(Tenant)
    else if c.environment != p.environment then Some(Environment)
    else if c.agent != p.agent then Some(Agent)
    else if c.instance != p.instance then Some(Instance)
    else if c.session != p.session then Some(Session)
    else if c.principal != p.principal then Some(Principal)
    else if c.kind != p.kind then Some(Kind)
    else if c.operation != p.operation then Some(Operation)
    else if c.toolId != p.toolId then Some(Tool)
    else if c.target != p.target then Some(Target)
    else if c.actionHash != p.actionHash then Some(ActionHash)
    else None
  }

  /** Whole seconds of a duration, towards zero. */
  function WholeSeconds(d: int): int {
    if d >= 0 then d / SECOND else -(-d / SECOND)
  }

  function Max(a: int, b: int): (r: int)
    ensures a <= r && b <= r && (r == a || r == b)
  {
    if a >= b then a else b
  }

  function Clamp(x: int, low: int, high: int): (r: int)
    ensures low <= high ==> low <= r <= high && (low <= x <= high ==> r == x) && (x < low ==> r == low)
  {
    if x < low then low else if x > high then high else x
  }

  /**
   Expiry is strict; only the start of validity has leeway. Because the length is compared in
   whole seconds, lifetimes up to but excluding 901 s pass.
   */
  function CheckLifetime(c: Claims, now: Time, leewaySeconds: int): (r: Option<Refusal>)
    ensures r.None? <==> && c.issuedAt - Max(leewaySeconds, 0) * SECOND <= now < c.expiresAt
                         && 0 < c.expiresAt - c.issuedAt < 901 * SECOND
    ensures r == Some(Expired) <==> c.expiresAt <= now
    ensures r == Some(NotYetValid) <==> now < c.expiresAt && now < c.issuedAt - Max(leewaySeconds, 0) * SECOND
    ensures r == Some(LifetimeTooLong) ==> c.expiresAt - c.issuedAt >= 901 * SECOND
    ensures r == Some(EmptyLifetime) ==> c.expiresAt <= c.issuedAt
  {
    if now >= c.expiresAt then Some(Expired)
    else if now < c.issuedAt - Max(leewaySeconds, 0) * SECOND then Some(NotYetValid)
    else if c.expiresAt <= c.issuedAt then Some(EmptyLifetime)
    else if WholeSeconds(c.expiresAt - c.issuedAt) > MAX_TTL_SECONDS then Some(LifetimeTooLong)
    else None
  }

  /** The claims as signed: version, lifetime and nonce are the issuer's own. */
  function Stamped(c: Claims, ttlSeconds: int, now: Time, nonce: string): (r: Claims)
    ensures Bound(r) == Bound(c) && r.version == CLAIMS_VERSION && r.nonce == nonce
    ensures r.issuedAt == now && 0 < r.expiresAt - r.issuedAt <= 900 * SECOND
    ensures 1 <= ttlSeconds <= 900 ==> r.expiresAt == now + ttlSeconds * SECOND
    ensures r.maxUses > 0 && (c.maxUses > 0 ==> r.maxUses == c.maxUses)
    ensures r.capabilityId == c.capabilityId && r.approvalId == c.approvalId && r.constraints == c.constraints
    ensures r.remitVersion == c.remitVersion && r.policyBundle == c.policyBundle
  {
    c.(version := CLAIMS_VERSION, issuedAt := now, expiresAt := now + Clamp(ttlSeconds, 1, MAX_TTL_SECONDS) * SECOND,
       nonce := nonce, maxUses := if c.maxUses == 0 then 1 else c.maxUses)
  }

  // ---- signing and verifying ----

  datatype Issuer = Issuer(headers: HeaderCodec, writeClaims: Claims -> seq<Byte>, keyId: string,
                           sign: string -> seq<Byte>)

  datatype Verifier = Verifier(headers: HeaderCodec, readClaims: seq<Byte> -> Option<Claims>, keys: map<string,
                               PublicKey>,
                               verifies: (PublicKey, string, seq<Byte>) -> bool, leewaySeconds: int)

  function HeaderOf(i: Issuer): TokenHeader { TokenHeader(ALGORITHM, i.keyId) }

  /** The text the issuer signs for a claim set. */
  function PayloadOf(i: Issuer, c: Claims): string {
    SigningInput(Encode(i.headers.write(HeaderOf(i))), Encode(i.writeClaims(c)))
  }

  function TokenOf(i: Issuer, c: Claims): string {
    EncodeToken(i.headers, HeaderOf(i), i.writeClaims(c), i.sign(PayloadOf(i, c)))
  }

  /** Parse, algorithm, key, signature and claims, in that order. */
  function Authenticate(v: Verifier, token: string): (r: Option<Claims>) {
    var parsed := Tokens.Parse(v.headers, token);
    if parsed.None? then None
    else
      var p := parsed.value;
      if p.header.alg != ALGORITHM || p.header.kid !in v.keys || |p.signature| != 64 then None
      else if !v.verifies(v.keys[p.header.kid], p.signedPayload, p.signature) then None
      else v.readClaims(p.claimsJson)
  }

  /** Everything that is checked before a use is counted. */
  function Admit(v: Verifier, token: string, presented: PresentedAction, now: Time): (r: Option<Claims>)
    ensures forall c :: r == Some(c) <==>
              && Authenticate(v, token) == Some(c) && c.version == CLAIMS_VERSION && Bound(c) == presented
              && c.issuedAt - Max(v.leewaySeconds, 0) * SECOND <= now < c.expiresAt
              && 0 < c.expiresAt - c.issuedAt < 901 * SECOND
  {
    var claims := Authenticate(v, token);
    if claims.None? then None
    else if CheckLifetime(claims.value, now, v.leewaySeconds).Some? then None
    else if CheckBinding(claims.value, presented).Some? then None
    else claims
  }

  /** The verifier trusts the issuer's key, and the two agree on how things are written. */
  ghost predicate Trusts(v: Verifier, i: Issuer) {
    && v.headers == i.headers && i.headers.read(i.headers.write(HeaderOf(i))) == Some(HeaderOf(i))
    && (forall c :: v.readClaims(i.writeClaims(c)) == Some(c))
    && i.keyId in v.keys
    && (forall text :: v.verifies(v.keys[i.keyId], text, i.sign(text)) && |i.sign(text)| == 64)
  }

  /** The token carries these claims under a header that names a known key, and a signature of both by that key. */
  ghost predicate Vouches(v: Verifier, token: string, headerBytes: seq<Byte>, claimsJson: seq<Byte>,
                          signature: seq<Byte>) {
    && Spells(token, headerBytes, claimsJson, signature) && |signature| == 64
    && v.headers.read(headerBytes).Some?
    && var header := v.headers.read(headerBytes).value;
       && header.alg == "Ed25519" && header.kid in v.keys
       && v.verifies(v.keys[header.kid], Encode(headerBytes) + "." + Encode(claimsJson), signature)
  }

  /** A token authenticates as some claims exactly when it carries them, so vouched for. */
  lemma {:induction false} AuthenticatesExactly(v: Verifier, token: string, c: Claims)
    ensures Authenticate(v, token) == Some(c) <==>
            exists headerBytes, claimsJson, signature ::
              Vouches(v, token, headerBytes, claimsJson, signature) && v.readClaims(claimsJson) == Some(c)
  {
    if Authenticate(v, token) == Some(c) {
      var headerBytes := ParsedIsSpelled(v.headers, token);
      var p := Tokens.Parse(v.headers, token).value;
      assert Vouches(v, token, headerBytes, p.claimsJson, p.signature);
    }
    if headerBytes, claimsJson, signature :|
      Vouches(v, token, headerBytes, claimsJson, signature) && v.readClaims(claimsJson) == Some(c)
    {
      SpelledParses(v.headers, token, headerBytes, claimsJson, signature);
    }
  }

  /** An issued token authenticates as its own claims, unless it is over the length limit. */
  lemma {:induction false} IssuedAuthenticates(v: Verifier, i: Issuer, c: Claims)
    requires Trusts(v, i)
    ensures Authenticate(v, TokenOf(i, c)) == if |TokenOf(i, c)| <= MAX_TOKEN_BYTES then Some(c) else None
  {
    ParseUndoesEncode(i.headers, HeaderOf(i), i.writeClaims(c), i.sign(PayloadOf(i, c)));
  }

  /** A token carrying an issued payload authenticates, if at all, as the claims in that payload. */
  lemma {:induction false} PayloadMeansClaims(v: Verifier, i: Issuer, token: string, c: Claims)
    requires Trusts(v, i) && Authenticate(v, token).Some?
    requires Tokens.Parse(v.headers, token).value.signedPayload == PayloadOf(i, c)
    ensures Authenticate(v, token) == Some(c)
  {
    var headerBytes := ParsedIsExact(v.headers, token);
    TwoParts(headerBytes, Tokens.Parse(v.headers, token).value.claimsJson);
    TwoParts(i.headers.write(HeaderOf(i)), i.writeClaims(c));
  }

  /** Which presentations of an issued token are admitted: exactly the bound one, within its time. */
  lemma {:induction false} AdmitsIssued(v: Verifier, i: Issuer, draft: Claims, ttlSeconds: int, issued: Time,
                                        nonce: string,
                                        presented: PresentedAction, now: Time)
    requires Trusts(v, i)
    ensures var c := Stamped(draft, ttlSeconds, issued, nonce);
            Admit(v, TokenOf(i, c), presented, now).Some? <==>
            && |TokenOf(i, c)| <= MAX_TOKEN_BYTES
            && presented == Bound(draft)
            && issued - Max(v.leewaySeconds, 0) * SECOND <= now
            && now < issued + Clamp(ttlSeconds, 1, MAX_TTL_SECONDS) * SECOND
  {
    var c := Stamped(draft, ttlSeconds, issued, nonce);
    IssuedAuthenticates(v, i, c);
  }
}
