/** How a decision is reached: verdicts fold towards the more restrictive, and only then is anything minted. */
module Decisions {
  import opened Json

  datatype Decision =
    | Allow | AllowWithConstraints | AllowWithRedaction | RequireApproval | Quarantine | Deny | TerminateSession

  function Restrictiveness(d: Decision): (n: nat) {
    match d
    case Allow => 0
    case AllowWithConstraints => 1
    case AllowWithRedaction => 2
    case RequireApproval => 3
    case Quarantine => 4
    case Deny => 5
    case TerminateSession => 6
  }

  function Combine(a: Decision, b: Decision): Decision {
    if Restrictiveness(b) > Restrictiveness(a) then b else a
  }

  predicate Mints(d: Decision) {
    d.Allow? || d.AllowWithConstraints? || d.AllowWithRedaction?
  }

  /** What the stages of the pipeline say about one action. */
  datatype Stages = Stages(
    policy: Decision, remit: Decision, budget: Decision,
    proposals: seq<Option<Decision>>,
    skipDetectorsOnDeny: bool,
    manifestRequiresApproval: bool,
    riskWarrantsReview: bool)

  /** Policy, remit or budget says this. */
  predicate Rules(s: Stages, d: Decision) { d == s.policy || d == s.remit || d == s.budget }

  /** The detectors are not consulted: the other stages deny, without ending the session. */
  predicate Silences(s: Stages) {
    s.skipDetectorsOnDeny && Rules(s, Deny) && !Rules(s, TerminateSession)
  }

  /** One of the verdicts on the action. */
  predicate IsVerdict(s: Stages, d: Decision) {
    Rules(s, d) || (Some(d) in s.proposals && !Silences(s))
  }

  /** The most restrictive of the verdicts. */
  ghost predicate IsStrictest(s: Stages, d: Decision) {
    IsVerdict(s, d) && forall x :: IsVerdict(s, x) ==> Restrictiveness(x) <= Restrictiveness(d)
  }

  method StrictestVerdict(s: Stages) returns (d: Decision)
    ensures IsStrictest(s, d)
  {
    d := Combine(Combine(s.policy, s.remit), s.budget);
    var heard := if s.skipDetectorsOnDeny && d.Deny? then [] else s.proposals;
    assert heard == if Silences(s) then [] else s.proposals;
    for k := 0 to |heard|
      invariant Rules(s, d) || Some(d) in heard
      invariant forall x :: Rules(s, x) ==> Restrictiveness(x) <= Restrictiveness(d)
      invariant forall j :: 0 <= j < k && heard[j].Some? ==> Restrictiveness(heard[j].value) <= Restrictiveness(d)
    {
      if heard[k].Some? {
        d := Combine(d, heard[k].value);
      }
    }
  }

  /** The decision for one action, given whether this call spent an approval for it. */
  function Outcome(s: Stages, strictest: Decision, approved: bool): Decision {
    var demanded := !approved && (s.manifestRequiresApproval || s.riskWarrantsReview);
    var d := if demanded then Combine(strictest, RequireApproval) else strictest;
    if approved && d.RequireApproval? then AllowWithConstraints else d
  }

  /** The strictest verdict does not depend on the order in which the stages report. */
  lemma {:induction false} StrictestIsUnique(s: Stages, t: Stages, d: Decision, e: Decision)
    requires IsStrictest(s, d) && IsStrictest(t, e) && forall x :: IsVerdict(s, x) <==> IsVerdict(t, x)
    ensures d == e
  {
    assert IsVerdict(t, d) && IsVerdict(s, e);
  }

  // ---- what is decided, in terms of what the stages said ----

  /** Some stage says this, whether or not the detectors are consulted. */
  predicate Says(s: Stages, d: Decision) { Rules(s, d) || Some(d) in s.proposals }

  predicate Forbids(s: Stages) { Says(s, Quarantine) || Says(s, Deny) || Says(s, TerminateSession) }

  predicate AsksForHuman(s: Stages) {
    Says(s, RequireApproval) || s.manifestRequiresApproval || s.riskWarrantsReview
  }

  /** A capability is due: nothing forbids the action, and if anything asks for a human, one approved. */
  predicate MayMint(s: Stages, approved: bool) {
    !Forbids(s) && (AsksForHuman(s) ==> approved)
  }

  /** The decision for what the stages say: the worst of it, with an approval standing in for asking. */
  function Due(s: Stages, approved: bool): Decision {
    if Rules(s, TerminateSession) || (Says(s, TerminateSession) && !Silences(s)) then TerminateSession
    else if Says(s, Deny) then Deny
    else if Says(s, Quarantine) then Quarantine
    else if AsksForHuman(s) && !approved then RequireApproval
    else if Says(s, RequireApproval) then AllowWithConstraints
    else if Says(s, AllowWithRedaction) then AllowWithRedaction
    else if Says(s, AllowWithConstraints) then AllowWithConstraints
    else Allow
  }

  /** Every outcome, in terms of what the stages say. */
  lemma {:induction false} OutcomeExactly(s: Stages, strictest: Decision, approved: bool)
    requires IsStrictest(s, strictest)
    ensures Outcome(s, strictest, approved) == Due(s, approved)
  {
    assert IsVerdict(s, strictest);
    assert forall d :: IsVerdict(s, d) <==> Rules(s, d) || (Some(d) in s.proposals && !Silences(s));
  }

  /**
   Exactly when a capability is minted: no stage forbids the action, detectors included, and if
   anything asks for a human, this call spent an approval.
   */
  lemma {:induction false} MintsExactlyWhen(s: Stages, strictest: Decision, approved: bool)
    requires IsStrictest(s, strictest)
    ensures Mints(Outcome(s, strictest, approved)) <==> MayMint(s, approved)
  {
    OutcomeExactly(s, strictest, approved);
  }

  /** An approval never loosens anything but a request for approval. */
  lemma {:induction false} ApprovalOnlyAnswersItself(s: Stages, strictest: Decision)
    requires IsStrictest(s, strictest) && Outcome(s, strictest, true) != Outcome(s, strictest, false)
    ensures Outcome(s, strictest, false).RequireApproval?
    ensures Restrictiveness(strictest) <= Restrictiveness(RequireApproval)
  {
  }

  method Decide(s: Stages, approved: bool) returns (d: Decision)
    ensures d == Due(s, approved) && (Mints(d) <==> MayMint(s, approved))
  {
    var strictest := StrictestVerdict(s);
    d := strictest;
    if s.manifestRequiresApproval && !approved {
      d := Combine(d, RequireApproval);
    }
    if s.riskWarrantsReview && !approved {
      d := Combine(d, RequireApproval);
    }
    if approved && d.RequireApproval? {
      d := AllowWithConstraints;
    }
    assert d == Outcome(s, strictest, approved);
    OutcomeExactly(s, strictest, approved);
    MintsExactlyWhen(s, strictest, approved);
  }
}
