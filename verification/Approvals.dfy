/** Human approvals: requested, granted by a qualified human, spent once, or rejected. */
module Approvals {
  import opened Json
  import opened ContentHashes
  import opened Text
  import opened Base64Url
  import opened Tokens
  import opened Capabilities

  const GRANT_TTL_SECONDS := 900

  datatype PrincipalKind = Human | Service | Agent | Anonymous

  datatype Principal = Principal(id: string, tenant: string, kind: PrincipalKind, roles: seq<string>)

  datatype ApprovalRequest = ApprovalRequest(
    id: string, tenant: string, agent: string, session: string, requester: string,
    actionHash: ContentHash, roles: seq<string>, requestedAt: Time, expiresAt: Time)

  datatype ApprovalState = Pending | Granted | Consumed | Rejected

  datatype Stored = Stored(request: ApprovalRequest, state: ApprovalState, approver: Option<string>,
                           nonce: Option<string>)

  type Book = map<string, Stored>

  /** The signed body of a grant. */
  datatype Grant = Grant(id: string, tenant: string, agent: string, session: string, actionHash: ContentHash,
                         approver: string, grantedAt: Time, expiresAt: Time, nonce: string)

  /** What the retried action says it is. */
  datatype Retry = Retry(tenant: string, agent: string, session: string, actionHash: ContentHash)

  datatype GrantRefusal = NotFound | NotPending | RequestExpired | ForeignTenant | SelfApproval | NotHuman | NoRole

  // ---- requesting ----

  function NewRequest(id: string, retry: Retry, requester: string, roles: seq<string>, ttlSeconds: int,
                      now: Time): ApprovalRequest {
    ApprovalRequest(id, retry.tenant, retry.agent, retry.session, requester, retry.actionHash, roles, now,
                    now + Clamp(ttlSeconds, 30, 86_400) * SECOND)
  }

  /** A request is open for the time asked for, but no less than 30 s and no more than a day. */
  lemma {:induction false} RequestIsOpen(id: string, retry: Retry, requester: string, roles: seq<string>,
                                         ttlSeconds: int, now: Time)
    ensures var open := NewRequest(id, retry, requester, roles, ttlSeconds, now).expiresAt - now;
            && (ttlSeconds <= 30 ==> open == 30_000_000_000)
            && (30 <= ttlSeconds <= 86_400 ==> open == ttlSeconds * 1_000_000_000)
            && (86_400 <= ttlSeconds ==> open == 86_400_000_000_000)
  {
  }

  function AfterRequest(b: Book, r: ApprovalRequest): Book {
    b[r.id := Stored(r, Pending, None, None)]
  }

  // ---- granting ----

  predicate HoldsRole(p: Principal, roles: seq<string>) {
    exists role :: role in roles && role in p.roles
  }

  /** Who may approve a request: a human of its tenant other than its requester, with one of its roles. */
  predicate MayApprove(p: Principal, r: ApprovalRequest) {
    p.tenant == r.tenant && p.id != r.requester && p.kind.Human? && HoldsRole(p, r.roles)
  }

  function CheckGrant(b: Book, id: string, p: Principal, now: Time): (r: Option<GrantRefusal>)
    ensures r.None? <==>
            id in b && b[id].state.Pending? && now < b[id].request.expiresAt && MayApprove(p, b[id].request)
  {
    if id !in b then Some(NotFound)
    else
      var stored := b[id];
      if !stored.state.Pending? then Some(NotPending)
      else if now >= stored.request.expiresAt then Some(RequestExpired)
      else if p.tenant != stored.request.tenant then Some(ForeignTenant)
      else if p.id == stored.request.requester then Some(SelfApproval)
      else if !p.kind.Human? then Some(NotHuman)
      else if !HoldsRole(p, stored.request.roles) then Some(NoRole)
      else None
  }

  function NewGrant(r: ApprovalRequest, p: Principal, now: Time, nonce: string): Grant {
    Grant(r.id, r.tenant, r.agent, r.session, r.actionHash, p.id, now, now + GRANT_TTL_SECONDS * SECOND, nonce)
  }

  /** An expired request is closed by the attempt to grant it. */
  function AfterGrant(b: Book, id: string, p: Principal, now: Time, nonce: string): Book {
    match CheckGrant(b, id, p, now)
    case None => b[id := b[id].(state := Granted, approver := Some(p.id), nonce := Some(nonce))]
    case Some(RequestExpired) => if id in b then b[id := b[id].(state := Rejected)] else b
    case Some(_) => b
  }

  function AfterReject(b: Book, id: string): Book {
    if id in b then b[id := b[id].(state := Rejected)] else b
  }

  // ---- the grant token ----

  datatype ApprovalKey = ApprovalKey(write: Grant -> seq<Byte>, read: seq<Byte> -> Option<Grant>,
                                     sign: seq<Byte> -> seq<Byte>, verifies: (seq<Byte>, seq<Byte>) -> bool)

  function GrantToken(k: ApprovalKey, g: Grant): string {
    Encode(k.write(g)) + "." + Encode(k.sign(k.write(g)))
  }

  /** The body of a token whose signature is good. */
  function SignedBody(k: ApprovalKey, token: string): (r: Option<seq<Byte>>) {
    var stop := NextSeparator(IsStop, token, 0);
    if stop == |token| then None
    else
      var body, signature := Decode(token[..stop]), Decode(token[stop + 1..]);
      if body.None? || signature.None? || |signature.value| != 64 then None
      else if !k.verifies(body.value, signature.value) then None
      else body
  }

  function ReadGrant(k: ApprovalKey, token: string): Option<Grant> {
    var body := SignedBody(k, token);
    if body.None? then None else k.read(body.value)
  }

  ghost predicate KeyWorks(k: ApprovalKey) {
    && (forall g :: k.read(k.write(g)) == Some(g))
    && (forall body :: k.verifies(body, k.sign(body)) && |k.sign(body)| == 64)
  }

  /** The token is these bytes and a 64-byte signature of them that verifies. */
  ghost predicate Signs(k: ApprovalKey, token: string, body: seq<Byte>, signature: seq<Byte>) {
    && token == Encode(body) + "." + Encode(signature) && |signature| == 64 && k.verifies(body, signature)
  }

  lemma {:induction false} SignedReadsBack(k: ApprovalKey, token: string, body: seq<Byte>, signature: seq<Byte>)
    requires Signs(k, token, body, signature)
    ensures SignedBody(k, token) == Some(body)
  {
    EncodingIsPlain(body);
    SeparatorFound(IsStop, token, 0, |Encode(body)|);
    assert token[..|Encode(body)|] == Encode(body) && token[|Encode(body)| + 1..] == Encode(signature);
    DecodesExactly(Encode(body), body);
    DecodesExactly(Encode(signature), signature);
  }

  lemma {:induction false} DecodedIsEncoding(s: string)
    requires Decode(s).Some?
    ensures s == Encode(Decode(s).value)
  {
    DecodesExactly(s, Decode(s).value);
  }

  lemma {:induction false} CutAt(s: string, k: nat)
    requires k < |s| && s[k] == '.'
    ensures s == s[..k] + "." + s[k + 1..]
  {
  }

  lemma {:induction false} SignedBodySigns(k: ApprovalKey, token: string) returns (signature: seq<Byte>)
    requires SignedBody(k, token).Some?
    ensures Signs(k, token, SignedBody(k, token).value, signature)
  {
    var stop := NextSeparator(IsStop, token, 0);
    var front, back := token[..stop], token[stop + 1..];
    signature := Decode(back).value;
    DecodedIsEncoding(front);
    DecodedIsEncoding(back);
    CutAt(token, stop);
  }

  /** A token has a signed body exactly when it is those bytes and a good signature of them. */
  lemma {:induction false} SignedBodyExactly(k: ApprovalKey, token: string, body: seq<Byte>)
    ensures SignedBody(k, token) == Some(body) <==> exists signature :: Signs(k, token, body, signature)
  {
    if SignedBody(k, token) == Some(body) {
      var signature := SignedBodySigns(k, token);
    }
    if signature :| Signs(k, token, body, signature) {
      SignedReadsBack(k, token, body, signature);
    }
  }

  /** The signed body of a grant's token is the grant as written. */
  lemma {:induction false} GrantBodyReadsBack(k: ApprovalKey, g: Grant)
    requires KeyWorks(k)
    ensures SignedBody(k, GrantToken(k, g)) == Some(k.write(g))
  {
    SignedReadsBack(k, GrantToken(k, g), k.write(g), k.sign(k.write(g)));
  }

  /** A grant's token reads back as that grant. */
  lemma {:induction false} GrantReadsBack(k: ApprovalKey, g: Grant)
    requires KeyWorks(k)
    ensures ReadGrant(k, GrantToken(k, g)) == Some(g)
  {
    GrantBodyReadsBack(k, g);
  }

  // ---- spending ----

  /** The one action a grant is for. */
  function OwnRetry(g: Grant): Retry { Retry(g.tenant, g.agent, g.session, g.actionHash) }

  /** The grant a retry spends, if the token is good for exactly this action and still unspent. */
  function Spends(b: Book, k: ApprovalKey, token: string, retry: Retry, now: Time): (r: Option<Grant>)
    ensures forall g :: r == Some(g) <==>
              && ReadGrant(k, token) == Some(g) && retry == OwnRetry(g) && now < g.expiresAt
              && g.id in b && b[g.id].state.Granted? && b[g.id].nonce == Some(g.nonce)
  {
    match ReadGrant(k, token)
    case None => None
    case Some(g) =>
      if g.tenant != retry.tenant || g.agent != retry.agent || g.session != retry.session then None
      else if g.actionHash != retry.actionHash then None
      else if now >= g.expiresAt then None
      else if g.id !in b || !b[g.id].state.Granted? || b[g.id].nonce != Some(g.nonce) then None
      else Some(g)
  }

  /** A grant's own token, presented in time for its own action while the grant is unspent, spends it. */
  lemma {:induction false} OwnTokenSpends(b: Book, k: ApprovalKey, g: Grant, now: Time)
    requires KeyWorks(k) && g.id in b && b[g.id].state.Granted? && b[g.id].nonce == Some(g.nonce) && now < g.expiresAt
    ensures Spends(b, k, GrantToken(k, g), OwnRetry(g), now) == Some(g)
  {
    GrantReadsBack(k, g);
  }

  /** Once rejected, no token for the approval is good, whatever was granted before. */
  lemma {:induction false} RejectionHolds(b: Book, k: ApprovalKey, id: string, token: string, retry: Retry, now: Time)
    ensures var spent := Spends(AfterReject(b, id), k, token, retry, now); spent.Some? ==> spent.value.id != id
    ensures id in b ==> AfterReject(b, id)[id].state.Rejected?
  {
  }

  function AfterSpend(b: Book, spent: Option<Grant>): Book {
    if spent.Some? && spent.value.id in b then b[spent.value.id := b[spent.value.id].(state := Consumed)] else b
  }

  // ---- the service ----

  class ApprovalService {
    const key: ApprovalKey
    var approvals: Book

    constructor (key: ApprovalKey)
      ensures this.key == key && approvals == map[]
    {
      this.key, approvals := key, map[];
    }

    method Request(id: string, retry: Retry, requester: string, roles: seq<string>, ttlSeconds: int, now: Time)
      returns (r: ApprovalRequest)
      modifies this
      ensures r == NewRequest(id, retry, requester, roles, ttlSeconds, now)
      ensures approvals == AfterRequest(old(approvals), r)
    {
      var ttl := if ttlSeconds < 30 then 30 else if ttlSeconds > 86_400 then 86_400 else ttlSeconds;
      r := ApprovalRequest(id, retry.tenant, retry.agent, retry.session, requester, retry.actionHash, roles, now,
                           now + ttl * SECOND);
      approvals := approvals[id := Stored(r, Pending, None, None)];
    }

    /** Nothing is granted, and nothing else changes, unless the approver qualifies. */
    method Approve(id: string, approver: Principal, now: Time, nonce: string) returns (token: Option<string>)
      modifies this
      ensures approvals == AfterGrant(old(approvals), id, approver, now, nonce)
      ensures token.Some? <==> CheckGrant(old(approvals), id, approver, now).None?
      ensures token.Some? ==> token.value == GrantToken(key, NewGrant(old(approvals)[id].request, approver, now, nonce))
    {
      if id !in approvals {
        return None;
      }
      var stored := approvals[id];
      if !stored.state.Pending? {
        return None;
      }
      if now >= stored.request.expiresAt {
        approvals := approvals[id := stored.(state := Rejected)];
        return None;
      }
      if approver.tenant != stored.request.tenant || approver.id == stored.request.requester || !approver.kind.Human? {
        return None;
      }
      var held := false;
      for i := 0 to |stored.request.roles|
        invariant held <==> exists j :: 0 <= j < i && stored.request.roles[j] in approver.roles
      {
        if stored.request.roles[i] in approver.roles {
          held := true;
        }
      }
      assert held <==> HoldsRole(approver, stored.request.roles);
      if !held {
        return None;
      }
      approvals := approvals[id := stored.(state := Granted, approver := Some(approver.id), nonce := Some(nonce))];
      return Some(GrantToken(key, NewGrant(stored.request, approver, now, nonce)));
    }

    method Reject(id: string) returns (found: bool)
      modifies this
      ensures approvals == AfterReject(old(approvals), id) && (found <==> id in old(approvals))
    {
      found := id in approvals;
      if found {
        approvals := approvals[id := approvals[id].(state := Rejected)];
      }
    }

    /** Every check that fails leaves the approvals as they were. */
    method VerifyAndConsume(token: string, retry: Retry, now: Time) returns (id: Option<string>)
      modifies this
      ensures var spent := Spends(old(approvals), key, token, retry, now);
              && approvals == AfterSpend(old(approvals), spent)
              && id == if spent.Some? then Some(spent.value.id) else None
    {
      var grant := ReadGrant(key, token);
      if grant.None? {
        return None;
      }
      var g := grant.value;
      if g.tenant != retry.tenant || g.agent != retry.agent || g.session != retry.session {
        return None;
      }
      if g.actionHash != retry.actionHash {
        return None;
      }
      if now >= g.expiresAt || g.id !in approvals || !approvals[g.id].state.Granted? {
        return None;
      }
      if approvals[g.id].nonce != Some(g.nonce) {
        return None;
      }
      approvals := approvals[g.id := approvals[g.id].(state := Consumed)];
      return Some(g.id);
    }
  }
}
