/** One decision from end to end: spend the approval, fold the verdicts, then mint or ask. */
module Pipelines {
  import opened Json
  import opened ContentHashes
  import opened Capabilities
  import opened Approvals
  import opened ApprovalTerms
  import opened Decisions
  import opened Actions

  datatype DecisionOutcome =
    | Failed
    | Decided(decision: Decision, capability: Option<string>, asked: Option<ApprovalRequest>)

  class DecisionPipeline {
    const issuer: Issuer
    const approvals: ApprovalService
    const hashOf: ActionRequest -> Option<ContentHash>
    const ttlSeconds: int
    const defaultRoles: seq<string>

    constructor (issuer: Issuer, approvals: ApprovalService, hashOf: ActionRequest -> Option<ContentHash>,
                 ttlSeconds: int, defaultRoles: seq<string>)
      ensures this.issuer == issuer && this.approvals == approvals && this.hashOf == hashOf
      ensures this.ttlSeconds == ttlSeconds && this.defaultRoles == defaultRoles
    {
      this.issuer, this.approvals, this.hashOf := issuer, approvals, hashOf;
      this.ttlSeconds, this.defaultRoles := ttlSeconds, defaultRoles;
    }

    /** The approval this request's token is good for, among the approvals held now. */
    function Spending(b: Book, r: ActionRequest, hash: ContentHash, now: Time): Option<Grant> {
      if r.approvalToken.None? then None
      else Spends(b, approvals.key, r.approvalToken.value, Retry(r.tenant, r.agent, r.session, hash), now)
    }

    /** A rejected token is no approval; it does not fail the decision. */
    method VerifyPresentedApproval(r: ActionRequest, hash: ContentHash, now: Time) returns (id: Option<string>)
      modifies approvals
      ensures var spent := Spending(old(approvals.approvals), r, hash, now);
              && approvals.approvals == AfterSpend(old(approvals.approvals), spent)
              && id == if spent.Some? then Some(spent.value.id) else None
    {
      if r.approvalToken.None? {
        return None;
      }
      id := approvals.VerifyAndConsume(r.approvalToken.value, Retry(r.tenant, r.agent, r.session, hash), now);
    }

    /**
     A capability comes out exactly when no stage forbids the action and, if anything asks for
     a human, this call spent a grant for this action; its token carries this request's
     bindings. A request for approval lists exactly the roles that satisfy every rule.
     */
    method Decide(r: ActionRequest, stages: Stages, demands: seq<Demand>, p: Provenance, checkedAt: Time,
                  decidedAt: Time, nonce: string, id: string)
      returns (out: DecisionOutcome)
      modifies approvals
      ensures hashOf(r).None? ==> out.Failed? && approvals.approvals == old(approvals.approvals)
      ensures hashOf(r).Some? ==>
                var spent := Spending(old(approvals.approvals), r, hashOf(r).value, checkedAt);
                && (out.Decided? && out.capability.Some? <==> MayMint(stages, spent.Some?))
                && (out.Decided? ==> out.decision == Due(stages, spent.Some?))
                && (out.Failed? ==> forall role :: !Suits(demands, defaultRoles, role))
                && (out.Decided? ==>
                     && (out.capability.Some? <==> Mints(out.decision))
                     && (out.asked.Some? <==> out.decision.RequireApproval?)
                     && (out.capability.Some? ==>
                          out.capability.value == TokenOf(issuer, Stamped(
                            DraftClaims(r, hashOf(r).value, if spent.Some? then Some(spent.value.id) else None, p),
                            ttlSeconds, decidedAt, nonce)))
                     && (out.asked.None? ==> approvals.approvals == AfterSpend(old(approvals.approvals), spent))
                     && (out.asked.Some? ==>
                          && approvals.approvals
                             == AfterRequest(AfterSpend(old(approvals.approvals), spent), out.asked.value)
                          && exists terms :: AreTerms(demands, defaultRoles, terms)
                               && out.asked.value
                                  == NewRequest(id, Retry(r.tenant, r.agent, r.session, hashOf(r).value),
                                                r.principal.id, terms.roles, terms.ttlSeconds, decidedAt)))
    {
      if hashOf(r).None? {
        return Failed;
      }
      var hash := hashOf(r).value;
      var approval := VerifyPresentedApproval(r, hash, checkedAt);
      var decision := Decisions.Decide(stages, approval.Some?);
      if Mints(decision) {
        var claims := Stamped(DraftClaims(r, hash, approval, p), ttlSeconds, decidedAt, nonce);
        return Decided(decision, Some(TokenOf(issuer, claims)), None);
      }
      if decision.RequireApproval? {
        var terms := ApprovalTermsFor(demands, defaultRoles);
        if terms.None? {
          return Failed;
        }
        var asked := approvals.Request(id, Retry(r.tenant, r.agent, r.session, hash), r.principal.id,
                                       terms.value.roles, terms.value.ttlSeconds, decidedAt);
        return Decided(decision, None, Some(asked));
      }
      return Decided(decision, None, None);
    }
  }
}
