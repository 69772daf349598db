/**
 The whole protocol as one machine: decisions that may spend an approval and may mint a
 capability, approvals asked for, granted and rejected, and redemptions that end in a tool
 invocation, in every interleaving. Core's clock readings are arbitrary; the gateway's do not
 go back. A redemption carries the request it was begun for or any that presents the same.
 */
module Protocol {
  import opened Json
  import opened ContentHashes
  import opened Capabilities
  import opened NonceStores
  import opened Redemption
  import opened Approvals
  import opened ApprovalRuns
  import opened ApprovalTerms
  import opened Decisions
  import opened Materials
  import opened Actions
  import ReadBack

  datatype World = World(verifier: Verifier, issuer: Issuer, approvalKey: ApprovalKey,
                         hashOf: ActionRequest -> Option<ContentHash>,
                         ttlSeconds: int, defaultRoles: seq<string>,
                         allowed: (ActionRequest, Claims) -> bool)

  /** A decision under way; `spent` is where the history records the approval this call spent. */
  datatype Deciding = Deciding(request: ActionRequest, hash: ContentHash, spent: Option<nat>)

  datatype Mint = Mint(decided: Deciding, stages: Stages, claims: Claims)

  /** A tool invocation, and which accepted redemption it rests on. */
  datatype Effect = Effect(request: ActionRequest, acceptance: nat)

  /** A request for approval, with the decision that raised it and the rules that demanded it. */
  datatype Ask = Ask(request: ApprovalRequest, decided: Deciding, demands: seq<Demand>)

  datatype State = State(gate: Gate, desk: Desk, deciding: multiset<Deciding>, asks: seq<Ask>, mints: seq<Mint>,
                         effects: seq<Effect>)

  datatype Step =
    | BeginDecision(request: ActionRequest, now: Time)
    | MintCapability(d: Deciding, stages: Stages, strictest: Decision, p: Provenance, now: Time, nonce: string)
    | AskApproval(d: Deciding, stages: Stages, strictest: Decision, demands: seq<Demand>, terms: Terms, id: string,
                  now: Time)
    | EndWithout(d: Deciding, stages: Stages, strictest: Decision)
    | GrantApproval(id: string, approver: Principal, now: Time, nonce: string)
    | RejectApproval(id: string)
    | PresentCapability(request: ActionRequest, token: string)
    | FinishRedemption(request: ActionRequest, r: Redeeming)
    | PurgeNonces(cutoff: Time)
    | GatewayClock(now: Time)

  // ---- the steps ----

  function RetryOf(r: ActionRequest, hash: ContentHash): Retry { Retry(r.tenant, r.agent, r.session, hash) }

  /** The approval request a decision raises. */
  function Requested(d: Deciding, terms: Terms, id: string, now: Time): ApprovalRequest {
    NewRequest(id, RetryOf(d.request, d.hash), d.request.principal.id, terms.roles, terms.ttlSeconds, now)
  }

  /** The action a decision authorizes, with the target that Core binds. */
  function Authorized(d: Deciding): PresentedAction {
    PresentedFrom(d.request, d.hash).(target := CoreTarget(d.request.action))
  }

  /** The desk once this request's approval token, if it carries one, has been looked at. */
  function DeskAfter(w: World, s: State, r: ActionRequest, hash: ContentHash, now: Time): Desk {
    if r.approvalToken.None? then s.desk
    else AfterPresenting(s.desk, w.approvalKey, r.approvalToken.value, RetryOf(r, hash), now)
  }

  function Begun(w: World, s: State, r: ActionRequest, hash: ContentHash, now: Time): State {
    var desk := DeskAfter(w, s, r, hash, now);
    var spent := if |desk.log| > |s.desk.log| then Some(|s.desk.log|) else None;
    s.(desk := desk, deciding := s.deciding + multiset{Deciding(r, hash, spent)})
  }

  function ApprovalIdOf(log: seq<Event>, d: Deciding): Option<string> {
    if d.spent.Some? && d.spent.value < |log| && log[d.spent.value].WasSpent?
    then Some(log[d.spent.value].grant.id) else None
  }

  function MintedClaims(w: World, s: State, d: Deciding, p: Provenance, now: Time, nonce: string): Claims {
    Stamped(DraftClaims(d.request, d.hash, ApprovalIdOf(s.desk.log, d), p), w.ttlSeconds, now, nonce)
  }

  function Minted(s: State, d: Deciding, stages: Stages, c: Claims): State {
    s.(deciding := s.deciding - multiset{d}, mints := s.mints + [Mint(d, stages, c)],
       gate := s.gate.(issued := s.gate.issued + [c]))
  }

  function Redeemed(w: World, s: State, request: ActionRequest, r: Redeeming): State {
    var gate := Finished(s.gate, r);
    var invoked := |gate.accepted| > |s.gate.accepted| && w.allowed(request, r.claims);
    s.(gate := gate, effects := if invoked then s.effects + [Effect(request, |s.gate.accepted|)] else s.effects)
  }

  /** The decision on `d` is what the fold of the stages gives it. */
  ghost predicate Decides(s: State, d: Deciding, stages: Stages, strictest: Decision) {
    d in s.deciding && IsStrictest(stages, strictest)
  }

  ghost predicate Next(w: World, s: State, step: Step, t: State) {
    match step
    case BeginDecision(r, now) =>
      && w.hashOf(r).Some?
      && (r.approvalToken.Some? ==> GrantUnforged(w.approvalKey, s.desk, r.approvalToken.value))
      && t == Begun(w, s, r, w.hashOf(r).value, now)
    case MintCapability(d, stages, strictest, p, now, nonce) =>
      && Decides(s, d, stages, strictest) && Mints(Outcome(stages, strictest, d.spent.Some?))
      && IsFresh(s.gate, nonce)
      && t == Minted(s, d, stages, MintedClaims(w, s, d, p, now, nonce))
    case AskApproval(d, stages, strictest, demands, terms, id, now) =>
      && Decides(s, d, stages, strictest) && Outcome(stages, strictest, d.spent.Some?).RequireApproval?
      && AreTerms(demands, w.defaultRoles, terms) && id !in s.desk.book
      && var r := Requested(d, terms, id, now);
         t == s.(deciding := s.deciding - multiset{d}, asks := s.asks + [Ask(r, d, demands)],
                 desk := Noted(s.desk, AfterRequest(s.desk.book, r), WasRequested(r)))
    case EndWithout(d, stages, strictest) =>
      && Decides(s, d, stages, strictest) && !Mints(Outcome(stages, strictest, d.spent.Some?))
      && t == s.(deciding := s.deciding - multiset{d})
    case GrantApproval(id, p, now, nonce) => t == s.(desk := Approved(s.desk, id, p, now, nonce))
    case RejectApproval(id) => t == s.(desk := Closed(s.desk, id))
    case PresentCapability(r, token) =>
      && w.hashOf(r).Some? && Unforged(w.verifier, w.issuer, s.gate, token)
      && t == s.(gate := Presented(w.verifier, s.gate, token, PresentedFrom(r, w.hashOf(r).value)))
    case FinishRedemption(request, r) =>
      && w.hashOf(request).Some? && r in s.gate.inFlight
      && r.presented == PresentedFrom(request, w.hashOf(request).value)
      && t == Redeemed(w, s, request, r)
    case PurgeNonces(cutoff) => t == s.(gate := s.gate.(store := Purged(s.gate.store, cutoff)))
    case GatewayClock(now) => s.gate.now <= now && t == s.(gate := s.gate.(now := now))
  }

  ghost predicate PurgesGuarded(s: State, step: Step) {
    step.PurgeNonces? ==> PurgeGuard(s.gate, step.cutoff)
  }

  /** Runs whose purges are arbitrary. */
  ghost predicate Unrolls(w: World, states: seq<State>, steps: seq<Step>) {
    && |states| == |steps| + 1
    && states[0] == State(Opening(states[0].gate.now), Desk(map[], []), multiset{}, [], [], [])
    && (forall k {:trigger steps[k]} :: 0 <= k < |steps| ==> Next(w, states[k], steps[k], states[k + 1]))
  }

  ghost predicate IsProtocolRun(w: World, states: seq<State>, steps: seq<Step>) {
    && Unrolls(w, states, steps)
    && (forall k {:trigger steps[k]} :: 0 <= k < |steps| ==> PurgesGuarded(states[k], steps[k]))
  }

  ghost predicate Works(w: World) {
    Trusts(w.verifier, w.issuer) && KeyWorks(w.approvalKey)
  }

  // ---- gate and desk run underneath ----

  lemma {:induction false} GateKept(w: World, s: State, step: Step, t: State)
    requires Works(w) && GateInv(s.gate) && Next(w, s, step, t) && PurgesGuarded(s, step)
    ensures GateInv(t.gate)
  {
    match step
    case MintCapability(d, stages, strictest, p, now, nonce) =>
      IssueKeeps(s.gate, MintedClaims(w, s, d, p, now, nonce));
    case PresentCapability(r, token) =>
      GateStepKeeps(w.verifier, w.issuer, s.gate, Present(token, PresentedFrom(r, w.hashOf(r).value)), t.gate);
    case FinishRedemption(request, r) => FinishKeeps(s.gate, r);
    case PurgeNonces(cutoff) => PurgeKeeps(s.gate, cutoff);
    case GatewayClock(now) => TickKeeps(s.gate, now);
    case _ =>
  }

  lemma {:induction false} DeskKept(w: World, s: State, step: Step, t: State)
    requires Works(w) && DeskInv(s.desk) && Next(w, s, step, t)
    ensures DeskInv(t.desk) && s.desk.log <= t.desk.log
  {
    match step
    case BeginDecision(r, now) =>
      if r.approvalToken.Some? {
        DeskStepKeeps(w.approvalKey, s.desk, Spend(r.approvalToken.value, RetryOf(r, w.hashOf(r).value), now), t.desk);
      }
    case AskApproval(d, stages, strictest, demands, terms, id, now) =>
      RaiseKeeps(s.desk, Requested(d, terms, id, now));
    case GrantApproval(id, p, now, nonce) => ApproveKeeps(s.desk, id, p, now, nonce);
    case RejectApproval(id) => if id in s.desk.book { ClosingKeeps(s.desk, id); }
    case _ =>
  }

  // ---- decisions and what they rest on ----

  /** The history records, at `d.spent`, that an approval of exactly this action was spent. */
  ghost predicate SpentFor(log: seq<Event>, d: Deciding) {
    d.spent.Some? ==>
      && d.spent.value < |log| && log[d.spent.value].WasSpent?
      && log[d.spent.value].retry == RetryOf(d.request, d.hash)
  }

  ghost predicate Sound(w: World, log: seq<Event>, d: Deciding) {
    w.hashOf(d.request) == Some(d.hash) && SpentFor(log, d)
  }

  /** A capability says what was decided, names the approval spent, is for one use and at most 900 s, and was due. */
  ghost predicate SoundMint(w: World, log: seq<Event>, m: Mint) {
    && Sound(w, log, m.decided)
    && Bound(m.claims) == Authorized(m.decided)
    && m.claims.version == CLAIMS_VERSION && m.claims.maxUses == 1
    && m.claims.approvalId == ApprovalIdOf(log, m.decided)
    && 0 < m.claims.expiresAt - m.claims.issuedAt <= MAX_TTL_SECONDS * SECOND
    && MayMint(m.stages, m.decided.spent.Some?)
  }

  ghost predicate DecisionsSound(w: World, s: State) {
    && (forall d :: d in s.deciding ==> Sound(w, s.desk.log, d))
    && (forall k :: 0 <= k < |s.mints| ==> SoundMint(w, s.desk.log, s.mints[k]))
  }

  lemma {:induction false} SoundStays(w: World, log: seq<Event>, more: seq<Event>, d: Deciding)
    requires Sound(w, log, d) && log <= more
    ensures Sound(w, more, d)
  {
    if d.spent.Some? {
      assert more[d.spent.value] == log[d.spent.value];
    }
  }

  lemma {:induction false} DecisionsStay(w: World, s: State, t: State)
    requires DecisionsSound(w, s) && s.desk.log <= t.desk.log && t.deciding <= s.deciding && t.mints == s.mints
    ensures DecisionsSound(w, t)
  {
    forall d | d in t.deciding ensures Sound(w, t.desk.log, d) {
      SoundStays(w, s.desk.log, t.desk.log, d);
    }
    forall k | 0 <= k < |t.mints| ensures SoundMint(w, t.desk.log, t.mints[k]) {
      assert SoundMint(w, s.desk.log, s.mints[k]);
      SoundStays(w, s.desk.log, t.desk.log, s.mints[k].decided);
    }
  }

  lemma {:induction false} BeginKeepsDecisions(w: World, s: State, r: ActionRequest, now: Time)
    requires DecisionsSound(w, s) && w.hashOf(r).Some?
    ensures DecisionsSound(w, Begun(w, s, r, w.hashOf(r).value, now))
  {
    var t := Begun(w, s, r, w.hashOf(r).value, now);
    assert s.desk.log <= t.desk.log;
    DecisionsStay(w, s, t.(deciding := s.deciding));
    forall d | d in t.deciding ensures Sound(w, t.desk.log, d) {
      assert d in s.deciding ==> Sound(w, t.desk.log, d);
    }
  }

  lemma {:induction false} MintedIsSound(w: World, s: State, d: Deciding, stages: Stages, strictest: Decision,
                                         p: Provenance, now: Time, nonce: string)
    requires Sound(w, s.desk.log, d) && IsStrictest(stages, strictest)
    requires Mints(Outcome(stages, strictest, d.spent.Some?))
    ensures SoundMint(w, s.desk.log, Mint(d, stages, MintedClaims(w, s, d, p, now, nonce)))
  {
    MintsExactlyWhen(stages, strictest, d.spent.Some?);
  }

  lemma {:induction false} MintKeepsDecisions(w: World, s: State, d: Deciding, stages: Stages, c: Claims)
    requires DecisionsSound(w, s) && SoundMint(w, s.desk.log, Mint(d, stages, c))
    ensures DecisionsSound(w, Minted(s, d, stages, c))
  {
    var t := Minted(s, d, stages, c);
    assert forall e :: e in t.deciding ==> e in s.deciding;
    forall k | 0 <= k < |t.mints| ensures SoundMint(w, t.desk.log, t.mints[k]) {
      if k < |s.mints| { assert SoundMint(w, s.desk.log, s.mints[k]); }
    }
  }

  lemma {:induction false} DecisionsKept(w: World, s: State, step: Step, t: State)
    requires DecisionsSound(w, s) && Next(w, s, step, t) && s.desk.log <= t.desk.log
    ensures DecisionsSound(w, t)
  {
    match step
    case BeginDecision(r, now) => BeginKeepsDecisions(w, s, r, now);
    case MintCapability(d, stages, strictest, p, now, nonce) =>
      MintedIsSound(w, s, d, stages, strictest, p, now, nonce);
      MintKeepsDecisions(w, s, d, stages, MintedClaims(w, s, d, p, now, nonce));
    case _ => DecisionsStay(w, s, t);
  }

  // ---- each spending serves one decision ----

  ghost predicate Disjoint(s: State) {
    && (forall d, e :: d in s.deciding && e in s.deciding && d.spent.Some? && d.spent == e.spent ==> d == e)
    && (forall d :: d in s.deciding && d.spent.Some? ==> s.deciding[d] == 1)
    && (forall d, k :: d in s.deciding && d.spent.Some? && 0 <= k < |s.mints| ==> s.mints[k].decided.spent != d.spent)
    && (forall j, k :: 0 <= j < k < |s.mints| && s.mints[j].decided.spent.Some? ==>
          s.mints[j].decided.spent != s.mints[k].decided.spent)
  }

  lemma {:induction false} EndKeepsDisjoint(s: State, d: Deciding)
    requires Disjoint(s)
    ensures Disjoint(s.(deciding := s.deciding - multiset{d}))
  {
    var t := s.(deciding := s.deciding - multiset{d});
    assert forall e :: e in t.deciding ==> e in s.deciding;
  }

  lemma {:induction false} MintKeepsDisjoint(s: State, d: Deciding, stages: Stages, c: Claims)
    requires Disjoint(s) && d in s.deciding
    ensures Disjoint(Minted(s, d, stages, c))
  {
    var t := Minted(s, d, stages, c);
    assert forall e :: e in t.deciding ==> e in s.deciding;
    assert d.spent.Some? ==> d !in t.deciding;
    forall e, k | e in t.deciding && e.spent.Some? && 0 <= k < |t.mints| ensures t.mints[k].decided.spent != e.spent {
      if k < |s.mints| { assert t.mints[k] == s.mints[k]; }
    }
    forall j, k | 0 <= j < k < |t.mints| && t.mints[j].decided.spent.Some?
      ensures t.mints[j].decided.spent != t.mints[k].decided.spent
    {
      assert t.mints[j] == s.mints[j];
    }
  }

  lemma {:induction false} BeginKeepsDisjoint(w: World, s: State, r: ActionRequest, hash: ContentHash, now: Time)
    requires Disjoint(s) && DecisionsSound(w, s)
    ensures Disjoint(Begun(w, s, r, hash, now))
  {
    var t := Begun(w, s, r, hash, now);
    var n := |s.desk.log|;
    forall d | d in s.deciding && d.spent.Some? ensures d.spent.value < n { assert Sound(w, s.desk.log, d); }
    forall k | 0 <= k < |s.mints| && s.mints[k].decided.spent.Some? ensures s.mints[k].decided.spent.value < n {
      assert SoundMint(w, s.desk.log, s.mints[k]);
    }
  }

  lemma {:induction false} DisjointKept(w: World, s: State, step: Step, t: State)
    requires Disjoint(s) && DecisionsSound(w, s) && Next(w, s, step, t)
    ensures Disjoint(t)
  {
    match step
    case BeginDecision(r, now) => BeginKeepsDisjoint(w, s, r, w.hashOf(r).value, now);
    case MintCapability(d, stages, strictest, p, now, nonce) =>
      MintKeepsDisjoint(s, d, stages, MintedClaims(w, s, d, p, now, nonce));
    case AskApproval(d, stages, strictest, demands, terms, id, now) =>
      EndKeepsDisjoint(s, d);
      assert t.deciding == s.deciding - multiset{d} && t.mints == s.mints;
    case EndWithout(d, stages, strictest) => EndKeepsDisjoint(s, d);
    case _ => assert t.deciding == s.deciding && t.mints == s.mints;
  }

  // ---- requests for approval ----

  /** The request asks, for that very action and requester, for the roles that every rule accepts. */
  ghost predicate SoundAsk(w: World, a: Ask) {
    exists terms: Terms, now: Time :: TermsOf(w, a, terms, now)
  }

  ghost predicate TermsOf(w: World, a: Ask, terms: Terms, now: Time) {
    && AreTerms(a.demands, w.defaultRoles, terms)
    && a.request == Requested(a.decided, terms, a.request.id, now)
  }

  ghost predicate WasAsked(asks: seq<Ask>, r: ApprovalRequest) {
    exists a :: 0 <= a < |asks| && asks[a].request == r
  }

  ghost predicate AsksRecorded(w: World, s: State) {
    && (forall a :: 0 <= a < |s.asks| ==> SoundAsk(w, s.asks[a]))
    && (forall j :: 0 <= j < |s.desk.log| && s.desk.log[j].WasRequested? ==> WasAsked(s.asks, s.desk.log[j].request))
  }

  /** Steps that raise no request add none to the history. */
  lemma {:induction false} AsksStay(w: World, s: State, t: State)
    requires AsksRecorded(w, s) && t.asks == s.asks && s.desk.log <= t.desk.log
    requires forall j :: |s.desk.log| <= j < |t.desk.log| ==> !t.desk.log[j].WasRequested?
    ensures AsksRecorded(w, t)
  {
    forall j | 0 <= j < |t.desk.log| && t.desk.log[j].WasRequested? ensures WasAsked(t.asks, t.desk.log[j].request) {
      assert t.desk.log[j] == s.desk.log[j];
    }
  }

  lemma {:induction false} AskingRecords(w: World, s: State, t: State, x: Ask)
    requires AsksRecorded(w, s) && SoundAsk(w, x)
    requires t.asks == s.asks + [x] && t.desk.log == s.desk.log + [WasRequested(x.request)]
    ensures AsksRecorded(w, t)
  {
    forall j | 0 <= j < |t.desk.log| && t.desk.log[j].WasRequested? ensures WasAsked(t.asks, t.desk.log[j].request) {
      if j < |s.desk.log| {
        assert WasAsked(s.asks, s.desk.log[j].request);
        var a :| 0 <= a < |s.asks| && s.asks[a].request == s.desk.log[j].request;
        assert t.asks[a] == s.asks[a];
      } else {
        assert t.asks[|s.asks|] == x;
      }
    }
  }

  lemma {:induction false} AsksKept(w: World, s: State, step: Step, t: State)
    requires AsksRecorded(w, s) && Next(w, s, step, t)
    ensures AsksRecorded(w, t)
  {
    match step
    case AskApproval(d, stages, strictest, demands, terms, id, now) =>
      var x := t.asks[|s.asks|];
      assert TermsOf(w, x, terms, now);
      AskingRecords(w, s, t, x);
    case _ => AsksStay(w, s, t);
  }

  // ---- effects ----

  ghost predicate MintsAreIssued(s: State) {
    |s.mints| == |s.gate.issued| && forall k :: 0 <= k < |s.mints| ==> s.mints[k].claims == s.gate.issued[k]
  }

  /** The invocation is of the action that its accepted redemption presented. */
  ghost predicate Rests(w: World, s: State, e: Effect) {
    && e.acceptance < |s.gate.accepted| && w.hashOf(e.request).Some?
    && s.gate.accepted[e.acceptance].redeemed.presented == PresentedFrom(e.request, w.hashOf(e.request).value)
    && w.allowed(e.request, s.gate.accepted[e.acceptance].redeemed.claims)
  }

  ghost predicate EffectsRest(w: World, s: State) {
    && (forall k :: 0 <= k < |s.effects| ==> Rests(w, s, s.effects[k]))
    && (forall j, k :: 0 <= j < k < |s.effects| ==> s.effects[j].acceptance < s.effects[k].acceptance)
  }

  /** Steps that redeem nothing leave the effects and what they rest on alone. */
  lemma {:induction false} EffectsStay(w: World, s: State, t: State)
    requires EffectsRest(w, s) && t.effects == s.effects && t.gate.accepted == s.gate.accepted
    ensures EffectsRest(w, t)
  {
    forall k | 0 <= k < |t.effects| ensures Rests(w, t, t.effects[k]) {
      assert Rests(w, s, s.effects[k]);
    }
  }

  lemma {:induction false} RedeemingKeepsEffects(w: World, s: State, request: ActionRequest, r: Redeeming)
    requires EffectsRest(w, s) && w.hashOf(request).Some?
    requires r.presented == PresentedFrom(request, w.hashOf(request).value)
    ensures EffectsRest(w, Redeemed(w, s, request, r))
  {
    var t := Redeemed(w, s, request, r);
    forall k | 0 <= k < |t.effects| ensures Rests(w, t, t.effects[k]) {
      if k < |s.effects| {
        assert Rests(w, s, s.effects[k]);
      }
    }
    forall j, k | 0 <= j < k < |t.effects| ensures t.effects[j].acceptance < t.effects[k].acceptance {
      assert Rests(w, s, s.effects[j]) && t.effects[j] == s.effects[j];
    }
  }

  lemma {:induction false} EffectsKept(w: World, s: State, step: Step, t: State)
    requires EffectsRest(w, s) && Next(w, s, step, t)
    ensures EffectsRest(w, t)
  {
    if step.FinishRedemption? {
      RedeemingKeepsEffects(w, s, step.request, step.r);
    } else {
      EffectsStay(w, s, t);
    }
  }

  lemma {:induction false} MintsKept(w: World, s: State, step: Step, t: State)
    requires MintsAreIssued(s) && Next(w, s, step, t)
    ensures MintsAreIssued(t)
  {
    if !step.MintCapability? {
      assert t.mints == s.mints && t.gate.issued == s.gate.issued;
    }
  }

  // ---- whole runs ----

  ghost predicate ProtocolInv(w: World, s: State) {
    && GateInv(s.gate) && DeskInv(s.desk) && DecisionsSound(w, s) && Disjoint(s) && AsksRecorded(w, s)
    && MintsAreIssued(s) && EffectsRest(w, s)
  }

  lemma {:induction false} StepKeepsAll(w: World, s: State, step: Step, t: State)
    requires Works(w) && ProtocolInv(w, s) && Next(w, s, step, t) && PurgesGuarded(s, step)
    ensures ProtocolInv(w, t)
  {
    GateKept(w, s, step, t);
    DeskKept(w, s, step, t);
    DecisionsKept(w, s, step, t);
    DisjointKept(w, s, step, t);
    AsksKept(w, s, step, t);
    EffectsKept(w, s, step, t);
    MintsKept(w, s, step, t);
  }

  lemma {:induction false} RunStepKeepsAll(w: World, states: seq<State>, steps: seq<Step>, n: nat)
    requires Works(w) && IsProtocolRun(w, states, steps) && 0 < n < |states| && ProtocolInv(w, states[n - 1])
    ensures ProtocolInv(w, states[n])
  {
    assert PurgesGuarded(states[n - 1], steps[n - 1]);
    StepKeepsAll(w, states[n - 1], steps[n - 1], states[n]);
  }

  /** What holds at first, and of each state if of the one before, holds throughout. */
  lemma {:induction false} HoldsThroughout(inv: State -> bool, states: seq<State>, n: nat)
    requires n < |states| && inv(states[0])
    requires forall k {:trigger states[k]} :: 0 < k < |states| && inv(states[k - 1]) ==> inv(states[k])
    ensures inv(states[n])
  {
    if n > 0 {
      HoldsThroughout(inv, states, n - 1);
    }
  }

  lemma {:induction false} RunKeepsAll(w: World, states: seq<State>, steps: seq<Step>, n: nat)
    requires Works(w) && IsProtocolRun(w, states, steps) && n < |states|
    ensures ProtocolInv(w, states[n])
  {
    var inv := s => ProtocolInv(w, s);
    forall k {:trigger states[k]} | 0 < k < |states| && inv(states[k - 1]) ensures inv(states[k]) {
      RunStepKeepsAll(w, states, steps, k);
    }
    HoldsThroughout(inv, states, n);
  }

  /** A purge's cutoff is no later than the gateway's clock and than every reading still in use. */
  ghost predicate PurgesLate(s: State, step: Step) {
    step.PurgeNonces? ==> LateCutoff(s.gate, Purge(step.cutoff))
  }

  lemma {:induction false} LateStepIsGuarded(w: World, s: State, step: Step, t: State)
    requires Works(w) && GateInv(s.gate) && Next(w, s, step, t) && PurgesLate(s, step)
    ensures PurgesGuarded(s, step) && GateInv(t.gate)
  {
    if step.PurgeNonces? {
      LateCutoffsSuffice(s.gate, step.cutoff);
    }
    GateKept(w, s, step, t);
  }

  lemma {:induction false} LateRunKeepsGate(w: World, states: seq<State>, steps: seq<Step>, n: nat)
    requires Works(w) && Unrolls(w, states, steps) && n < |states|
    requires forall k {:trigger steps[k]} :: 0 <= k < |steps| ==> PurgesLate(states[k], steps[k])
    ensures GateInv(states[n].gate)
  {
    if n > 0 {
      LateRunKeepsGate(w, states, steps, n - 1);
      LateStepIsGuarded(w, states[n - 1], steps[n - 1], states[n]);
    }
  }

  /** Every run whose purges are late enough is one the results below speak of. */
  lemma {:induction false} LateRunsQualify(w: World, states: seq<State>, steps: seq<Step>)
    requires Works(w) && Unrolls(w, states, steps)
    requires forall k {:trigger steps[k]} :: 0 <= k < |steps| ==> PurgesLate(states[k], steps[k])
    ensures IsProtocolRun(w, states, steps)
  {
    forall k | 0 <= k < |steps| ensures PurgesGuarded(states[k], steps[k]) {
      LateRunKeepsGate(w, states, steps, k);
      LateStepIsGuarded(w, states[k], steps[k], states[k + 1]);
    }
  }

  /** The mint an invocation rests on agrees with it on everything that is bound, and was fresh enough. */
  ghost predicate Authorizes(w: World, s: State, m: Mint, e: Effect) {
    && Rests(w, s, e)
    && var r := s.gate.accepted[e.acceptance].redeemed;
       && r.claims == m.claims
       && w.hashOf(m.decided.request) == w.hashOf(e.request)
       && PresentedFrom(m.decided.request, m.decided.hash) == PresentedFrom(e.request, m.decided.hash)
       && m.claims.issuedAt < m.claims.expiresAt
       && r.at < m.claims.expiresAt <= m.claims.issuedAt + 900 * SECOND
  }

  lemma {:induction false} TargetsMatch(q: ActionRequest, g: ContentHash, r: ActionRequest, h: ContentHash)
    requires PresentedFrom(q, g).(target := CoreTarget(q.action)) == PresentedFrom(r, h)
    ensures g == h && PresentedFrom(q, g) == PresentedFrom(r, g)
  {
  }

  lemma {:induction false} EffectHasMint(w: World, s: State, i: nat) returns (k: nat)
    requires ProtocolInv(w, s) && i < |s.effects|
    ensures k < |s.mints| && Authorizes(w, s, s.mints[k], s.effects[i])
  {
    var e := s.effects[i];
    assert Rests(w, s, e);
    var r := s.gate.accepted[e.acceptance].redeemed;
    assert Genuine(s.gate, r);
    k :| 0 <= k < |s.gate.issued| && s.gate.issued[k] == r.claims;
    assert SoundMint(w, s.desk.log, s.mints[k]);
    TargetsMatch(s.mints[k].decided.request, s.mints[k].decided.hash, e.request, w.hashOf(e.request).value);
  }

  lemma {:induction false} TwoUsesCount(a: seq<Acceptance>, i: nat, j: nat, n: nat, nonce: string)
    requires i < j < n <= |a| && a[i].redeemed.claims.nonce == nonce && a[j].redeemed.claims.nonce == nonce
    ensures Count(a, n, nonce) >= 2
  {
    if n > j + 1 {
      TwoUsesCount(a, i, j, n - 1, nonce);
    } else {
      CountGrows(a, i + 1, j, nonce);
    }
  }

  /** No capability stands behind two invocations. */
  lemma {:induction false} EffectsShareNoMint(w: World, s: State, i: nat, j: nat, k: nat)
    requires ProtocolInv(w, s) && i < |s.effects| && j < |s.effects| && k < |s.mints|
    requires Authorizes(w, s, s.mints[k], s.effects[i]) && Authorizes(w, s, s.mints[k], s.effects[j])
    ensures i == j
  {
    var c := s.mints[k].claims;
    assert SoundMint(w, s.desk.log, s.mints[k]) && Accounted(s.gate, s.gate.issued[k]);
    var a, b := s.effects[i].acceptance, s.effects[j].acceptance;
    if i < j {
      TwoUsesCount(s.gate.accepted, a, b, |s.gate.accepted|, c.nonce);
    } else if j < i {
      TwoUsesCount(s.gate.accepted, b, a, |s.gate.accepted|, c.nonce);
    }
  }

  ghost predicate Backed(w: World, s: State, i: nat) {
    i < |s.effects| && exists k :: 0 <= k < |s.mints| && Authorizes(w, s, s.mints[k], s.effects[i])
  }

  lemma {:induction false} MintsOf(w: World, s: State, n: nat) returns (f: seq<nat>)
    requires n <= |s.effects| && forall i: nat :: i < |s.effects| ==> Backed(w, s, i)
    ensures |f| == n && forall i :: 0 <= i < n ==> f[i] < |s.mints| && Authorizes(w, s, s.mints[f[i]], s.effects[i])
  {
    f := [];
    if n > 0 {
      f := MintsOf(w, s, n - 1);
      assert Backed(w, s, n - 1);
      var k :| 0 <= k < |s.mints| && Authorizes(w, s, s.mints[k], s.effects[n - 1]);
      f := f + [k];
    }
  }

  /**
   In every state of every run, the invocations so far map one-to-one to mints so far that
   agree on every bound field and on the action hash, each redeemed strictly before expiry
   and within 900 s of its mint.
   */
  lemma {:induction false} InvocationsMapToMints(w: World, states: seq<State>, steps: seq<Step>, n: nat)
    returns (f: seq<nat>)
    requires Works(w) && IsProtocolRun(w, states, steps) && n < |states|
    ensures var s := states[n];
            && |f| == |s.effects|
            && (forall i :: 0 <= i < |f| ==> f[i] < |s.mints| && Authorizes(w, s, s.mints[f[i]], s.effects[i]))
            && (forall i, j :: 0 <= i < j < |f| ==> f[i] != f[j])
  {
    RunKeepsAll(w, states, steps, n);
    var s := states[n];
    forall i: nat | i < |s.effects| ensures Backed(w, s, i) {
      var k := EffectHasMint(w, s, i);
    }
    f := MintsOf(w, s, |s.effects|);
    forall i, j | 0 <= i < j < |f| ensures f[i] != f[j] {
      if f[i] == f[j] {
        EffectsShareNoMint(w, s, i, j, f[i]);
      }
    }
  }

  /** With the real action hash: what is invoked is the very action that was decided, or a collision. */
  lemma {:induction false} InvokedIsDecided(w: World, fc: FloatCodec, digest: string -> ContentHash, s: State,
                                            m: Mint, e: Effect)
    requires ReadBack.PrintsFloatTokens(fc) && Authorizes(w, s, m, e)
    requires w.hashOf(m.decided.request) == Actions.ActionHash(fc, digest, m.decided.request)
    requires w.hashOf(e.request) == Actions.ActionHash(fc, digest, e.request)
    requires ValidAction(m.decided.request.action) && ValidAction(e.request.action)
    ensures var decided, invoked := Canonical(fc, Projection(m.decided.request)), Canonical(fc, Projection(e.request));
            SameAction(m.decided.request, e.request) || (decided != invoked && digest(decided) == digest(invoked))
  {
    HashBindsAction(fc, digest, m.decided.request, e.request);
  }

  /**
   The mint's approval: granted at `g` of the history and spent once by the mint's own decision,
   for the action that the request at `a` asked for, by an independent human of the tenant with
   one role that every rule accepts which demanded the approval.
   */
  ghost predicate GrantBacks(w: World, s: State, m: Mint, g: nat, a: nat) {
    && m.decided.spent.Some? && g < m.decided.spent.value < |s.desk.log| && a < |s.asks|
    && s.desk.log[m.decided.spent.value].WasSpent? && s.desk.log[g].WasGranted?
    && var spent, granted, asked := s.desk.log[m.decided.spent.value], s.desk.log[g], s.asks[a];
       && m.claims.approvalId == Some(granted.grant.id)
       && spent.grant == granted.grant && SpentInOrder(s.desk.log, m.decided.spent.value)
       && granted.request == asked.request
       && RetryOf(asked.decided.request, asked.decided.hash) == RetryOf(m.decided.request, m.decided.hash)
       && w.hashOf(m.decided.request) == Some(m.decided.hash)
       && granted.approver.kind.Human? && granted.approver.tenant == m.decided.request.tenant
       && granted.approver.id != asked.decided.request.principal.id
       && exists role :: role in granted.approver.roles && Suits(asked.demands, w.defaultRoles, role)
  }

  lemma {:induction false} SpendingHasGrant(w: World, s: State, d: Deciding) returns (g: nat)
    requires DeskInv(s.desk) && SpentFor(s.desk.log, d) && d.spent.Some?
    ensures g < d.spent.value && s.desk.log[g].WasGranted? && GrantInOrder(s.desk.log, g)
    ensures s.desk.log[g].grant == s.desk.log[d.spent.value].grant && SpentInOrder(s.desk.log, d.spent.value)
  {
    var log := s.desk.log;
    assert InOrder(log, d.spent.value);
    g :| 0 <= g < d.spent.value && log[g].WasGranted? && log[g].grant == log[d.spent.value].grant;
    assert InOrder(log, g);
  }

  lemma {:induction false} GrantHasAsk(w: World, s: State, g: nat) returns (a: nat)
    requires AsksRecorded(w, s) && g < |s.desk.log| && s.desk.log[g].WasGranted? && GrantInOrder(s.desk.log, g)
    ensures a < |s.asks| && s.asks[a].request == s.desk.log[g].request && SoundAsk(w, s.asks[a])
  {
    var r := s.desk.log[g].request;
    var j :| 0 <= j < g && s.desk.log[j] == WasRequested(r);
    assert WasAsked(s.asks, r);
    a :| 0 <= a < |s.asks| && s.asks[a].request == r;
  }

  lemma {:induction false} ApproverSuitsRules(w: World, x: Ask, p: Principal)
    requires SoundAsk(w, x) && MayApprove(p, x.request)
    ensures exists role :: role in p.roles && Suits(x.demands, w.defaultRoles, role)
    ensures p.kind.Human? && p.tenant == x.decided.request.tenant && p.id != x.decided.request.principal.id
  {
    var terms: Terms, now: Time :| TermsOf(w, x, terms, now);
    ApproverSatisfiesEveryRule(x.demands, w.defaultRoles, terms, p, x.request);
  }

  /**
   In every state of every run, a mint whose stages asked for a human has such a backing, and
   no other mint shares its spending.
   */
  lemma {:induction false} MintsRestOnGrants(w: World, states: seq<State>, steps: seq<Step>, n: nat, k: nat)
    returns (g: nat, a: nat)
    requires Works(w) && IsProtocolRun(w, states, steps) && n < |states| && k < |states[n].mints|
    ensures var s, m := states[n], states[n].mints[k];
            && !Forbids(m.stages) && (AsksForHuman(m.stages) ==> m.decided.spent.Some?)
            && (m.decided.spent.Some? ==> GrantBacks(w, s, m, g, a))
            && (forall j :: 0 <= j < |s.mints| && j != k && m.decided.spent.Some? ==>
                  s.mints[j].decided.spent != m.decided.spent)
  {
    RunKeepsAll(w, states, steps, n);
    var s, m := states[n], states[n].mints[k];
    assert SoundMint(w, s.desk.log, m);
    g, a := 0, 0;
    if m.decided.spent.Some? {
      g := SpendingHasGrant(w, s, m.decided);
      a := GrantHasAsk(w, s, g);
      ApproverSuitsRules(w, s.asks[a], s.desk.log[g].approver);
    }
  }

  lemma {:induction false} RetrySpends(w: World, s: State, j: nat, r: ActionRequest, now: Time)
    requires Works(w) && DeskInv(s.desk) && j < |s.desk.log| && s.desk.log[j].WasGranted?
    requires var g := s.desk.log[j].grant;
             && Unsettled(s.desk.log, |s.desk.log|, g.id) && now < g.grantedAt + 900 * SECOND
             && r.approvalToken == Some(GrantToken(w.approvalKey, g)) && w.hashOf(r) == Some(g.actionHash)
             && RetryOf(r, g.actionHash) == OwnRetry(g)
    ensures var g := s.desk.log[j].grant;
            var t := Begun(w, s, r, g.actionHash, now);
            && Next(w, s, BeginDecision(r, now), t)
            && t.desk.log == s.desk.log + [WasSpent(g, OwnRetry(g), now)] && t.gate == s.gate && t.mints == s.mints
            && Deciding(r, g.actionHash, Some(|s.desk.log|)) in t.deciding
  {
    GrantCanBeSpent(w.approvalKey, s.desk, j, now);
  }

  /**
   In every state of every run, retrying an action with a grant for it that nothing has settled,
   within 900 s, spends the grant; and if no stage forbids the action, a capability that names
   the approval can be minted for it.
   */
  lemma {:induction false} ApprovedRetryMints(w: World, states: seq<State>, steps: seq<Step>, n: nat, j: nat,
                                              r: ActionRequest, now: Time, stages: Stages, strictest: Decision,
                                              p: Provenance, mintedAt: Time, nonce: string)
    returns (t: State, u: State)
    requires Works(w) && IsProtocolRun(w, states, steps) && n < |states|
    requires j < |states[n].desk.log| && states[n].desk.log[j].WasGranted?
    requires var log, g := states[n].desk.log, states[n].desk.log[j].grant;
             && Unsettled(log, |log|, g.id) && now < g.grantedAt + 900 * SECOND
             && r.approvalToken == Some(GrantToken(w.approvalKey, g)) && w.hashOf(r) == Some(g.actionHash)
             && RetryOf(r, g.actionHash) == OwnRetry(g)
    requires IsStrictest(stages, strictest) && !Forbids(stages) && IsFresh(states[n].gate, nonce)
    ensures var s, g := states[n], states[n].desk.log[j].grant;
            var d := Deciding(r, g.actionHash, Some(|s.desk.log|));
            && Next(w, s, BeginDecision(r, now), t)
            && Next(w, t, MintCapability(d, stages, strictest, p, mintedAt, nonce), u)
            && t.desk.log == s.desk.log + [WasSpent(g, OwnRetry(g), now)]
            && u.mints == s.mints + [Mint(d, stages, MintedClaims(w, t, d, p, mintedAt, nonce))]
            && MintedClaims(w, t, d, p, mintedAt, nonce).approvalId == Some(g.id)
  {
    RunKeepsAll(w, states, steps, n);
    var s, g := states[n], states[n].desk.log[j].grant;
    RetrySpends(w, s, j, r, now);
    t := Begun(w, s, r, g.actionHash, now);
    var d := Deciding(r, g.actionHash, Some(|s.desk.log|));
    u := Minted(t, d, stages, MintedClaims(w, t, d, p, mintedAt, nonce));
    MintsExactlyWhen(stages, strictest, true);
  }

  lemma {:induction false} AdmitsItsOwn(w: World, m: Mint, now: Time)
    requires Works(w)
    requires Bound(m.claims) == Authorized(m.decided)
    requires m.claims.version == CLAIMS_VERSION
    requires 0 < m.claims.expiresAt - m.claims.issuedAt <= MAX_TTL_SECONDS * SECOND
    requires |TokenOf(w.issuer, m.claims)| <= Tokens.MAX_TOKEN_BYTES
    requires m.claims.issuedAt - Max(w.verifier.leewaySeconds, 0) * SECOND <= now < m.claims.expiresAt
    ensures Admit(w.verifier, TokenOf(w.issuer, m.claims), PresentedFrom(m.decided.request, m.decided.hash), now)
            == if NamesDatabase(m.decided.request.action) then None else Some(m.claims)
  {
    IssuedAuthenticates(w.verifier, w.issuer, m.claims);
  }

  /**
   In every state of every run, a minted token that was never used, presented in time with the
   request it was minted for, is accepted as use number 1, unless the request names a database:
   then it is never admitted.
   */
  lemma {:induction false} FirstPresentation(w: World, states: seq<State>, steps: seq<Step>, n: nat, k: nat)
    requires Works(w) && IsProtocolRun(w, states, steps) && n < |states| && k < |states[n].mints|
    requires var c := states[n].mints[k].claims;
             && |TokenOf(w.issuer, c)| <= Tokens.MAX_TOKEN_BYTES && Uses(states[n].gate, c.nonce) == 0
             && c.issuedAt - Max(w.verifier.leewaySeconds, 0) * SECOND <= states[n].gate.now < c.expiresAt
    ensures var m, gate := states[n].mints[k], states[n].gate;
            var token, presented := TokenOf(w.issuer, m.claims), PresentedFrom(m.decided.request, m.decided.hash);
            var r := Redeeming(m.claims, presented, gate.now);
            if NamesDatabase(m.decided.request.action) then Presented(w.verifier, gate, token, presented) == gate
            else && r in Presented(w.verifier, gate, token, presented).inFlight
                 && Finished(Presented(w.verifier, gate, token, presented), r).accepted
                    == gate.accepted + [Acceptance(r, 1)]
  {
    RunKeepsAll(w, states, steps, n);
    var s, m := states[n], states[n].mints[k];
    assert SoundMint(w, s.desk.log, m);
    AdmitsItsOwn(w, m, s.gate.now);
    if !NamesDatabase(m.decided.request.action) {
      var r := Redeeming(m.claims, PresentedFrom(m.decided.request, m.decided.hash), s.gate.now);
      assert s.gate.issued[k] == m.claims;
      FitsItsOwnRequest(m.decided.request, m.decided.hash, None, Provenance("", "", "", []));
      StartKeeps(s.gate, r);
    }
  }
}
