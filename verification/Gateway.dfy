/** The enforcement point: no tool runs without a capability for exactly this action. */
module Gateways {
  import opened Json
  import opened ContentHashes
  import opened Capabilities
  import opened NonceStores
  import opened Actions

  /** Who the transport says is calling. */
  datatype Identity = Identity(tenant: string, agent: Option<string>)

  datatype Invocation = Invocation(request: ActionRequest, authority: Verified)

  /** A caller without an agent identity may act for any agent of its tenant. */
  function CheckCaller(caller: Option<Identity>, r: ActionRequest): (ok: bool)
    ensures ok <==> caller.None? || (caller.value.tenant == r.tenant && caller.value.agent in {None, Some(r.agent)})
  {
    if caller.None? then true
    else if caller.value.tenant != r.tenant then false
    else if caller.value.agent.Some? && caller.value.agent.value != r.agent then false
    else true
  }

  class Gateway {
    const verifier: Verifier
    const hashOf: ActionRequest -> Option<ContentHash>

    /** The capability's constraints hold, a backend is registered, and its credentials resolve. */
    const allowed: (ActionRequest, Claims) -> bool

    const nonces: InMemoryNonceStore
    var invocations: seq<Invocation>

    constructor (verifier: Verifier, hashOf: ActionRequest -> Option<ContentHash>,
                 allowed: (ActionRequest, Claims) -> bool,
                 nonces: InMemoryNonceStore)
      ensures this.verifier == verifier && this.hashOf == hashOf && this.allowed == allowed && this.nonces == nonces
      ensures invocations == []
    {
      this.verifier, this.hashOf, this.allowed, this.nonces := verifier, hashOf, allowed, nonces;
      invocations := [];
    }

    /** What the presented capability amounts to for this request. */
    function Admitted(r: ActionRequest, token: Option<string>, caller: Option<Identity>, now: Time): (c: Option<Claims>)
      ensures forall x :: c == Some(x) <==>
                && CheckCaller(caller, r) && token.Some? && hashOf(r).Some?
                && Admit(verifier, token.value, PresentedFrom(r, hashOf(r).value), now) == Some(x)
    {
      if !CheckCaller(caller, r) || token.None? || hashOf(r).None? then None
      else Admit(verifier, token.value, PresentedFrom(r, hashOf(r).value), now)
    }

    /**
     The tool is invoked once if the capability is admitted, its use is accepted and the
     request is allowed, and otherwise not at all. A use is spent by every admitted
     presentation, also when the constraints then refuse it.
     */
    method ExecuteAs(r: ActionRequest, token: Option<string>, caller: Option<Identity>, now: Time)
      returns (executed: bool)
      modifies this, nonces
      ensures Admitted(r, token, caller, now).None? ==>
                !executed && invocations == old(invocations) && nonces.entries == old(nonces.entries)
      ensures Admitted(r, token, caller, now).Some? ==>
                var c := Admitted(r, token, caller, now).value;
                var verdict := VerdictOn(old(nonces.entries), c.nonce, c.maxUses, c.expiresAt);
                && (executed <==> verdict.Accepted? && allowed(r, c))
                && nonces.entries == AfterUse(old(nonces.entries), c.nonce, c.maxUses, c.expiresAt)
                && invocations == old(invocations)
                                  + if executed then [Invocation(r, Verified(c, verdict.useNumber, now))] else []
    {
      if !CheckCaller(caller, r) || token.None? || hashOf(r).None? {
        return false;
      }
      var verified := VerifyAndConsume(verifier, nonces, token.value, PresentedFrom(r, hashOf(r).value), now);
      if verified.None? || !allowed(r, verified.value.claims) {
        return false;
      }
      invocations := invocations + [Invocation(r, verified.value)];
      return true;
    }
  }
}
