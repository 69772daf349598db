/**
 Redemptions as a machine. A redemption reads the clock and checks the token first and counts
 its use later, so purges, ticks and other redemptions fall between the two. Clients may
 present any text with any action.
 */
module Redemption {
  import opened Json
  import opened Tokens
  import opened Capabilities
  import opened NonceStores

  datatype Redeeming = Redeeming(claims: Claims, presented: PresentedAction, at: Time)

  datatype Acceptance = Acceptance(redeemed: Redeeming, useNumber: nat)

  /** `issued` and `accepted` are history; the rest is what the gateway holds. */
  datatype Gate = Gate(now: Time, issued: seq<Claims>, store: Store, inFlight: multiset<Redeeming>,
                       accepted: seq<Acceptance>)

  datatype GateStep =
    | Issue(claims: Claims)
    | Present(token: string, presented: PresentedAction)
    | Finish(r: Redeeming)
    | Purge(cutoff: Time)
    | Tick(now: Time)

  ghost predicate IsFresh(s: Gate, nonce: string) {
    forall k :: 0 <= k < |s.issued| ==> s.issued[k].nonce != nonce
  }

  /** A signature that verifies was made by the issuer, for claims it issued. */
  ghost predicate Unforged(v: Verifier, i: Issuer, s: Gate, token: string) {
    Authenticate(v, token).Some? ==>
      exists k :: 0 <= k < |s.issued| && Tokens.Parse(v.headers, token).value.signedPayload == PayloadOf(i, s.issued[k])
  }

  function Presented(v: Verifier, s: Gate, token: string, presented: PresentedAction): Gate {
    match Admit(v, token, presented, s.now)
    case None => s
    case Some(c) => s.(inFlight := s.inFlight + multiset{Redeeming(c, presented, s.now)})
  }

  function Finished(s: Gate, r: Redeeming): Gate {
    var c := r.claims;
    var verdict := VerdictOn(s.store, c.nonce, c.maxUses, c.expiresAt);
    s.(store := AfterUse(s.store, c.nonce, c.maxUses, c.expiresAt),
       inFlight := s.inFlight - multiset{r},
       accepted := if verdict.Accepted? then s.accepted + [Acceptance(r, verdict.useNumber)] else s.accepted)
  }

  ghost predicate GateNext(v: Verifier, i: Issuer, s: Gate, step: GateStep, t: Gate) {
    match step
    case Issue(c) => IsFresh(s, c.nonce) && c.maxUses > 0 && t == s.(issued := s.issued + [c])
    case Present(token, presented) => Unforged(v, i, s, token) && t == Presented(v, s, token, presented)
    case Finish(r) => r in s.inFlight && t == Finished(s, r)
    case Purge(cutoff) => t == s.(store := Purged(s.store, cutoff))
    case Tick(now) => s.now <= now && t == s.(now := now)
  }

  function Opening(now: Time): Gate { Gate(now, [], map[], multiset{}, []) }

  ghost predicate IsGateRun(v: Verifier, i: Issuer, states: seq<Gate>, steps: seq<GateStep>) {
    && |states| == |steps| + 1 && states[0] == Opening(states[0].now)
    && forall k {:trigger steps[k]} :: 0 <= k < |steps| ==> GateNext(v, i, states[k], steps[k], states[k + 1])
  }

  // ---- what is kept ----

  /** How many of the first `k` acceptances were of this nonce. */
  function Count(accepted: seq<Acceptance>, k: nat, nonce: string): (n: nat)
    requires k <= |accepted|
    ensures n <= k
  {
    if k == 0 then 0
    else Count(accepted, k - 1, nonce) + if accepted[k - 1].redeemed.claims.nonce == nonce then 1 else 0
  }

  function Uses(s: Gate, nonce: string): nat { Count(s.accepted, |s.accepted|, nonce) }

  ghost predicate DistinctNonces(issued: seq<Claims>) {
    forall j, k :: 0 <= j < k < |issued| ==> issued[j].nonce != issued[k].nonce
  }

  ghost predicate IsIssued(issued: seq<Claims>, nonce: string) {
    exists k :: 0 <= k < |issued| && issued[k].nonce == nonce
  }

  ghost predicate Genuine(s: Gate, r: Redeeming) {
    r.claims in s.issued && Bound(r.claims) == r.presented && r.at < r.claims.expiresAt && r.at <= s.now
  }

  ghost predicate Busy(s: Gate, nonce: string) {
    exists r :: r in s.inFlight && r.claims.nonce == nonce
  }

  /** A recorded nonce has its exact count; a used nonce without a record can never be used again. */
  ghost predicate Accounted(s: Gate, c: Claims) {
    && Uses(s, c.nonce) <= c.maxUses
    && (c.nonce in s.store ==> s.store[c.nonce] == Use(Uses(s, c.nonce), c.expiresAt) && Uses(s, c.nonce) > 0)
    && (c.nonce !in s.store && Uses(s, c.nonce) > 0 ==> c.expiresAt <= s.now && !Busy(s, c.nonce))
  }

  ghost predicate AllAccounted(s: Gate) {
    forall k :: 0 <= k < |s.issued| ==> Accounted(s, s.issued[k])
  }

  ghost predicate AllGenuine(s: Gate) {
    && (forall r :: r in s.inFlight ==> Genuine(s, r))
    && (forall k :: 0 <= k < |s.accepted| ==> Genuine(s, s.accepted[k].redeemed))
  }

  /** Use numbers count the acceptances of their own nonce, in order. */
  ghost predicate Numbered(accepted: seq<Acceptance>) {
    forall k :: 0 <= k < |accepted| ==>
      accepted[k].useNumber == Count(accepted, k + 1, accepted[k].redeemed.claims.nonce)
  }

  ghost predicate StoreIsIssued(s: Gate) {
    forall n :: n in s.store ==> IsIssued(s.issued, n)
  }

  ghost predicate GateInv(s: Gate) {
    && DistinctNonces(s.issued) && (forall k :: 0 <= k < |s.issued| ==> s.issued[k].maxUses > 0)
    && AllGenuine(s) && AllAccounted(s) && Numbered(s.accepted) && StoreIsIssued(s)
  }

  /** The purge drops no record of a live capability, nor of one being redeemed. */
  ghost predicate PurgeGuard(s: Gate, cutoff: Time) {
    forall n :: n in s.store && s.store[n].expiresAt <= cutoff ==> s.store[n].expiresAt <= s.now && !Busy(s, n)
  }

  ghost predicate Guarded(s: Gate, step: GateStep) {
    step.Purge? ==> PurgeGuard(s, step.cutoff)
  }

  // ---- counting ----

  lemma {:induction false} CountOfPrefix(a: seq<Acceptance>, x: Acceptance, k: nat, nonce: string)
    requires k <= |a|
    ensures Count(a + [x], k, nonce) == Count(a, k, nonce)
  {
    if k > 0 {
      CountOfPrefix(a, x, k - 1, nonce);
    }
  }

  lemma {:induction false} CountOneMore(a: seq<Acceptance>, x: Acceptance, nonce: string)
    ensures Count(a + [x], |a| + 1, nonce) == Count(a, |a|, nonce) + if x.redeemed.claims.nonce == nonce then 1 else 0
  {
    CountOfPrefix(a, x, |a|, nonce);
  }

  lemma {:induction false} CountOfUnissued(s: Gate, k: nat, nonce: string)
    requires AllGenuine(s) && IsFresh(s, nonce) && k <= |s.accepted|
    ensures Count(s.accepted, k, nonce) == 0
  {
    if k > 0 {
      CountOfUnissued(s, k - 1, nonce);
      assert Genuine(s, s.accepted[k - 1].redeemed);
    }
  }

  lemma {:induction false} NumberedGrows(a: seq<Acceptance>, x: Acceptance)
    requires Numbered(a) && x.useNumber == Count(a, |a|, x.redeemed.claims.nonce) + 1
    ensures Numbered(a + [x])
  {
    forall k | 0 <= k < |a| + 1
      ensures (a + [x])[k].useNumber == Count(a + [x], k + 1, (a + [x])[k].redeemed.claims.nonce)
    {
      if k < |a| {
        CountOfPrefix(a, x, k + 1, a[k].redeemed.claims.nonce);
      } else {
        CountOneMore(a, x, x.redeemed.claims.nonce);
      }
    }
  }

  // ---- the steps ----

  lemma {:induction false} IssueKeepsGenuine(s: Gate, c: Claims)
    requires AllGenuine(s)
    ensures AllGenuine(s.(issued := s.issued + [c]))
  {
    var t := s.(issued := s.issued + [c]);
    forall r | r in s.inFlight ensures Genuine(t, r) { assert Genuine(s, r); }
    forall k | 0 <= k < |s.accepted| ensures Genuine(t, s.accepted[k].redeemed) {
      assert Genuine(s, s.accepted[k].redeemed);
    }
  }

  lemma {:induction false} IssueKeeps(s: Gate, c: Claims)
    requires GateInv(s) && IsFresh(s, c.nonce) && c.maxUses > 0
    ensures GateInv(s.(issued := s.issued + [c]))
  {
    var t := s.(issued := s.issued + [c]);
    IssueKeepsGenuine(s, c);
    CountOfUnissued(s, |s.accepted|, c.nonce);
    assert c.nonce !in s.store;
    forall k | 0 <= k < |t.issued| ensures Accounted(t, t.issued[k]) {
      if k < |s.issued| {
        assert Accounted(s, s.issued[k]) && t.issued[k] == s.issued[k];
        assert Busy(t, t.issued[k].nonce) == Busy(s, t.issued[k].nonce);
      }
    }
    forall n | n in s.store ensures IsIssued(t.issued, n) {
      var k :| 0 <= k < |s.issued| && s.issued[k].nonce == n;
      assert t.issued[k].nonce == n;
    }
  }

  /** Only issued claims are ever admitted. */
  lemma {:induction false} AdmittedIsIssued(v: Verifier, i: Issuer, s: Gate, token: string, presented: PresentedAction)
    requires Trusts(v, i) && Unforged(v, i, s, token) && Admit(v, token, presented, s.now).Some?
    ensures Genuine(s, Redeeming(Admit(v, token, presented, s.now).value, presented, s.now))
  {
    var k :| 0 <= k < |s.issued| && Tokens.Parse(v.headers, token).value.signedPayload == PayloadOf(i, s.issued[k]);
    PayloadMeansClaims(v, i, token, s.issued[k]);
  }

  lemma {:induction false} StartKeeps(s: Gate, r: Redeeming)
    requires GateInv(s) && Genuine(s, r) && r.at == s.now
    ensures GateInv(s.(inFlight := s.inFlight + multiset{r}))
  {
    var t := s.(inFlight := s.inFlight + multiset{r});
    assert AllGenuine(t) by {
      forall q | q in t.inFlight ensures Genuine(t, q) { assert Genuine(s, q); }
      forall k | 0 <= k < |s.accepted| ensures Genuine(t, s.accepted[k].redeemed) {
        assert Genuine(s, s.accepted[k].redeemed);
      }
    }
    forall k | 0 <= k < |t.issued| ensures Accounted(t, t.issued[k]) {
      var c := t.issued[k];
      assert Accounted(s, c);
      if c.nonce !in s.store && Uses(s, c.nonce) > 0 {
        SameNonceSameClaims(s, r.claims, c);
        assert r.claims.nonce != c.nonce;
        assert !Busy(t, c.nonce);
      }
    }
  }

  lemma {:induction false} SameNonceSameClaims(s: Gate, c: Claims, d: Claims)
    requires DistinctNonces(s.issued) && c in s.issued && d in s.issued
    ensures c.nonce == d.nonce ==> c == d
  {
  }

  lemma {:induction false} FinishCounts(s: Gate, r: Redeeming)
    requires GateInv(s) && r in s.inFlight
    ensures var c := r.claims;
            && RecordOf(s.store, c.nonce, c.expiresAt) == Use(Uses(s, c.nonce), c.expiresAt)
            && Accounted(s, c)
  {
    var c := r.claims;
    assert Genuine(s, r);
    var k :| 0 <= k < |s.issued| && s.issued[k] == c;
    assert Accounted(s, s.issued[k]);
    assert Busy(s, c.nonce);
  }

  lemma {:induction false} FinishKeepsOthers(s: Gate, r: Redeeming, c: Claims)
    requires GateInv(s) && r in s.inFlight && c.nonce != r.claims.nonce && Accounted(s, c)
    ensures Accounted(Finished(s, r), c)
  {
    var t := Finished(s, r);
    if |t.accepted| > |s.accepted| {
      CountOneMore(s.accepted, t.accepted[|s.accepted|], c.nonce);
    }
    assert Busy(t, c.nonce) ==> Busy(s, c.nonce) by {
      if Busy(t, c.nonce) {
        var q :| q in t.inFlight && q.claims.nonce == c.nonce;
        assert q in s.inFlight;
      }
    }
  }

  lemma {:induction false} FinishKeepsOwn(s: Gate, r: Redeeming)
    requires GateInv(s) && r in s.inFlight && r.claims.maxUses > 0
    ensures Accounted(Finished(s, r), r.claims)
  {
    FinishCounts(s, r);
    var t := Finished(s, r);
    if |t.accepted| > |s.accepted| {
      CountOneMore(s.accepted, t.accepted[|s.accepted|], r.claims.nonce);
    }
  }

  lemma {:induction false} FinishKeepsGenuine(s: Gate, r: Redeeming)
    requires AllGenuine(s) && r in s.inFlight
    ensures AllGenuine(Finished(s, r))
  {
    var t := Finished(s, r);
    forall q | q in t.inFlight ensures Genuine(t, q) { assert q in s.inFlight && Genuine(s, q); }
    forall k | 0 <= k < |t.accepted| ensures Genuine(t, t.accepted[k].redeemed) {
      if k < |s.accepted| { assert Genuine(s, s.accepted[k].redeemed); } else { assert Genuine(s, r); }
    }
  }

  lemma {:induction false} FinishKeeps(s: Gate, r: Redeeming)
    requires GateInv(s) && r in s.inFlight
    ensures GateInv(Finished(s, r))
  {
    var t := Finished(s, r);
    assert Genuine(s, r);
    FinishCounts(s, r);
    FinishKeepsGenuine(s, r);
    forall k | 0 <= k < |t.issued| ensures Accounted(t, t.issued[k]) {
      assert Accounted(s, s.issued[k]);
      SameNonceSameClaims(s, s.issued[k], r.claims);
      if s.issued[k] == r.claims { FinishKeepsOwn(s, r); } else { FinishKeepsOthers(s, r, s.issued[k]); }
    }
    if |t.accepted| > |s.accepted| {
      NumberedGrows(s.accepted, t.accepted[|s.accepted|]);
    }
    assert StoreIsIssued(t) by {
      var k :| 0 <= k < |s.issued| && s.issued[k] == r.claims;
      assert IsIssued(s.issued, r.claims.nonce);
    }
  }

  lemma {:induction false} TickKeeps(s: Gate, now: Time)
    requires GateInv(s) && s.now <= now
    ensures GateInv(s.(now := now))
  {
    var t := s.(now := now);
    assert AllGenuine(t) by {
      forall r | r in s.inFlight ensures Genuine(t, r) { assert Genuine(s, r); }
      forall k | 0 <= k < |s.accepted| ensures Genuine(t, s.accepted[k].redeemed) {
        assert Genuine(s, s.accepted[k].redeemed);
      }
    }
    forall k | 0 <= k < |t.issued| ensures Accounted(t, t.issued[k]) {
      assert Accounted(s, s.issued[k]);
      assert Busy(t, t.issued[k].nonce) == Busy(s, t.issued[k].nonce);
    }
  }

  function AfterPurge(s: Gate, cutoff: Time): Gate { s.(store := Purged(s.store, cutoff)) }

  lemma {:induction false} PurgeKeeps(s: Gate, cutoff: Time)
    requires GateInv(s) && PurgeGuard(s, cutoff)
    ensures GateInv(AfterPurge(s, cutoff))
  {
    var t := AfterPurge(s, cutoff);
    forall k | 0 <= k < |t.issued| ensures Accounted(t, t.issued[k]) {
      assert Accounted(s, s.issued[k]);
      assert Busy(t, t.issued[k].nonce) == Busy(s, t.issued[k].nonce);
    }
  }

  /** A redemption that may still be finished: it is in flight, or could begin now. */
  ghost predicate MayFinish(s: Gate, r: Redeeming) {
    r in s.inFlight || (Genuine(s, r) && r.at == s.now)
  }

  lemma {:induction false} FinishingKeepsNumbers(s: Gate, r: Redeeming)
    requires GateInv(s) && MayFinish(s, r)
    ensures Numbered(Finished(s, r).accepted)
  {
    if r in s.inFlight {
      FinishKeeps(s, r);
    } else {
      var begun := s.(inFlight := s.inFlight + multiset{r});
      StartKeeps(s, r);
      FinishKeeps(begun, r);
      assert Finished(begun, r).accepted == Finished(s, r).accepted;
    }
  }

  lemma {:induction false} RecordedIsUsed(s: Gate, n: string) returns (c: Claims)
    requires GateInv(s) && n in s.store
    ensures c in s.issued && c.nonce == n && c.maxUses > 0 && s.store[n].expiresAt == c.expiresAt && Uses(s, n) > 0
  {
    assert IsIssued(s.issued, n);
    var k :| 0 <= k < |s.issued| && s.issued[k].nonce == n;
    c := s.issued[k];
    assert Accounted(s, s.issued[k]);
  }

  /** A use counted after its record was dropped is numbered 1 again. */
  lemma {:induction false} DroppedRecordMisnumbers(s: Gate, r: Redeeming, cutoff: Time)
    requires GateInv(s) && r.claims.nonce in s.store && s.store[r.claims.nonce].expiresAt <= cutoff
    requires r.claims.maxUses > 0
    ensures Finished(AfterPurge(s, cutoff), r).accepted == s.accepted + [Acceptance(r, 1)]
    ensures !Numbered(Finished(AfterPurge(s, cutoff), r).accepted)
  {
    var n := r.claims.nonce;
    var c := RecordedIsUsed(s, n);
    var x := Acceptance(r, 1);
    CountOneMore(s.accepted, x, n);
    assert (s.accepted + [x])[|s.accepted|] == x;
  }

  /** After the purge, whatever may still be finished keeps the use numbers right. */
  ghost predicate NumbersSurvive(s: Gate, cutoff: Time) {
    forall r :: MayFinish(s, r) ==> Numbered(Finished(AfterPurge(s, cutoff), r).accepted)
  }

  lemma {:induction false} GuardedPurgeIsSafe(s: Gate, cutoff: Time)
    requires GateInv(s) && PurgeGuard(s, cutoff)
    ensures NumbersSurvive(s, cutoff)
  {
    var t := AfterPurge(s, cutoff);
    PurgeKeeps(s, cutoff);
    forall r | MayFinish(s, r) ensures Numbered(Finished(t, r).accepted) {
      assert Genuine(s, r) ==> Genuine(t, r);
      FinishingKeepsNumbers(t, r);
    }
  }

  lemma {:induction false} UnguardedPurgeMisnumbers(s: Gate, cutoff: Time, n: string) returns (r: Redeeming)
    requires GateInv(s) && n in s.store && s.store[n].expiresAt <= cutoff
    requires s.now < s.store[n].expiresAt || Busy(s, n)
    ensures MayFinish(s, r) && !Numbered(Finished(AfterPurge(s, cutoff), r).accepted)
  {
    var c := RecordedIsUsed(s, n);
    if Busy(s, n) {
      r :| r in s.inFlight && r.claims.nonce == n;
      assert Genuine(s, r);
      SameNonceSameClaims(s, r.claims, c);
    } else {
      r := Redeeming(c, Bound(c), s.now);
    }
    DroppedRecordMisnumbers(s, r, cutoff);
  }

  /**
   The exact condition, in terms of what is accepted: after a purge every redemption that may
   still be finished keeps the use numbers right if and only if the purge drops no record of a
   live capability, nor of one being redeemed.
   */
  lemma {:induction false} PurgeGuardIsExact(s: Gate, cutoff: Time)
    requires GateInv(s)
    ensures NumbersSurvive(s, cutoff) <==> PurgeGuard(s, cutoff)
  {
    if PurgeGuard(s, cutoff) {
      GuardedPurgeIsSafe(s, cutoff);
    } else {
      var n :| n in s.store && s.store[n].expiresAt <= cutoff && !(s.store[n].expiresAt <= s.now && !Busy(s, n));
      var r := UnguardedPurgeMisnumbers(s, cutoff, n);
    }
  }

  lemma {:induction false} GateStepKeeps(v: Verifier, i: Issuer, s: Gate, step: GateStep, t: Gate)
    requires Trusts(v, i) && GateInv(s) && GateNext(v, i, s, step, t) && Guarded(s, step)
    ensures GateInv(t)
  {
    match step
    case Issue(c) => IssueKeeps(s, c);
    case Present(token, presented) =>
      if Admit(v, token, presented, s.now).Some? {
        AdmittedIsIssued(v, i, s, token, presented);
        StartKeeps(s, Redeeming(Admit(v, token, presented, s.now).value, presented, s.now));
      }
    case Finish(r) => FinishKeeps(s, r);
    case Purge(cutoff) => PurgeKeeps(s, cutoff);
    case Tick(now) => TickKeeps(s, now);
  }

  lemma {:induction false} GateRunKeeps(v: Verifier, i: Issuer, states: seq<Gate>, steps: seq<GateStep>, k: nat)
    requires Trusts(v, i) && IsGateRun(v, i, states, steps) && k < |states|
    requires forall j {:trigger steps[j]} :: 0 <= j < |steps| ==> Guarded(states[j], steps[j])
    ensures GateInv(states[k])
  {
    if k > 0 {
      GateRunKeeps(v, i, states, steps, k - 1);
      GateStepKeeps(v, i, states[k - 1], steps[k - 1], states[k]);
    }
  }

  lemma {:induction false} CountGrows(a: seq<Acceptance>, j: nat, k: nat, nonce: string)
    requires j <= k <= |a|
    ensures Count(a, j, nonce) <= Count(a, k, nonce)
  {
    if j < k {
      CountGrows(a, j, k - 1, nonce);
    }
  }

  lemma {:induction false} UsesAreCounted(s: Gate, c: Claims)
    requires GateInv(s) && c in s.issued
    ensures Uses(s, c.nonce) <= c.maxUses
    ensures forall j :: 0 <= j < |s.accepted| && s.accepted[j].redeemed.claims == c ==>
              1 <= s.accepted[j].useNumber == Count(s.accepted, j + 1, c.nonce) <= c.maxUses
  {
    var m :| 0 <= m < |s.issued| && s.issued[m] == c;
    assert Accounted(s, s.issued[m]);
    forall j | 0 <= j < |s.accepted| && s.accepted[j].redeemed.claims == c
      ensures 1 <= s.accepted[j].useNumber == Count(s.accepted, j + 1, c.nonce) <= c.maxUses
    {
      CountGrows(s.accepted, j + 1, |s.accepted|, c.nonce);
    }
  }

  /**
   Over a whole run, however redemptions, purges and ticks interleave, every issued capability
   is accepted at most `maxUses` times, and the acceptances of a nonce are numbered 1, 2, 3...
   */
  lemma {:induction false} UsesAreBounded(v: Verifier, i: Issuer, states: seq<Gate>, steps: seq<GateStep>, k: nat,
                                          c: Claims)
    requires Trusts(v, i) && IsGateRun(v, i, states, steps) && k < |states|
    requires forall j {:trigger steps[j]} :: 0 <= j < |steps| ==> Guarded(states[j], steps[j])
    requires c in states[k].issued
    ensures Uses(states[k], c.nonce) <= c.maxUses
    ensures forall j :: 0 <= j < |states[k].accepted| && states[k].accepted[j].redeemed.claims == c ==>
              1 <= states[k].accepted[j].useNumber == Count(states[k].accepted, j + 1, c.nonce) <= c.maxUses
  {
    GateRunKeeps(v, i, states, steps, k);
    UsesAreCounted(states[k], c);
  }

  /**
   Over a whole run, finishing a redemption under way accepts it exactly while fewer than
   `maxUses` uses of its capability were accepted, and then as the next in number.
   */
  lemma {:induction false} UsesAreGranted(v: Verifier, i: Issuer, states: seq<Gate>, steps: seq<GateStep>, k: nat,
                                          r: Redeeming)
    requires Trusts(v, i) && IsGateRun(v, i, states, steps) && k < |states|
    requires forall j {:trigger steps[j]} :: 0 <= j < |steps| ==> Guarded(states[j], steps[j])
    requires r in states[k].inFlight
    ensures var s, used := states[k], Uses(states[k], r.claims.nonce);
            Finished(s, r).accepted
            == s.accepted + if used < r.claims.maxUses then [Acceptance(r, used + 1)] else []
  {
    GateRunKeeps(v, i, states, steps, k);
    FinishCounts(states[k], r);
  }

  /** It is enough that no cutoff is later than the clock or than a reading still in use. */
  lemma {:induction false} LateCutoffsSuffice(s: Gate, cutoff: Time)
    requires GateInv(s) && cutoff <= s.now && forall r :: r in s.inFlight ==> cutoff <= r.at
    ensures PurgeGuard(s, cutoff)
  {
    forall n | n in s.store && s.store[n].expiresAt <= cutoff ensures !Busy(s, n) {
      if Busy(s, n) {
        var r :| r in s.inFlight && r.claims.nonce == n;
        assert Genuine(s, r);
        FinishCounts(s, r);
        assert false;
      }
    }
  }

  /** A purge's cutoff is no later than the clock and than every reading still in use. */
  ghost predicate LateCutoff(s: Gate, step: GateStep) {
    step.Purge? ==> step.cutoff <= s.now && forall r :: r in s.inFlight ==> step.cutoff <= r.at
  }

  ghost predicate LateCutoffs(states: seq<Gate>, steps: seq<GateStep>)
    requires |states| == |steps| + 1
  {
    forall j {:trigger steps[j]} :: 0 <= j < |steps| ==> LateCutoff(states[j], steps[j])
  }

  lemma {:induction false} LateStepKeeps(v: Verifier, i: Issuer, s: Gate, step: GateStep, t: Gate)
    requires Trusts(v, i) && GateInv(s) && GateNext(v, i, s, step, t) && LateCutoff(s, step)
    ensures GateInv(t) && Guarded(s, step)
  {
    if step.Purge? {
      LateCutoffsSuffice(s, step.cutoff);
    }
    GateStepKeeps(v, i, s, step, t);
  }

  lemma {:induction false} LateRunKeeps(v: Verifier, i: Issuer, states: seq<Gate>, steps: seq<GateStep>, k: nat)
    requires Trusts(v, i) && IsGateRun(v, i, states, steps) && LateCutoffs(states, steps) && k < |states|
    ensures GateInv(states[k])
  {
    if k > 0 {
      LateRunKeeps(v, i, states, steps, k - 1);
      LateStepKeeps(v, i, states[k - 1], steps[k - 1], states[k]);
    }
  }

  lemma {:induction false} LateCutoffsGuard(v: Verifier, i: Issuer, states: seq<Gate>, steps: seq<GateStep>, j: nat)
    requires Trusts(v, i) && IsGateRun(v, i, states, steps) && LateCutoffs(states, steps) && j < |steps|
    ensures Guarded(states[j], steps[j])
  {
    LateRunKeeps(v, i, states, steps, j);
    LateStepKeeps(v, i, states[j], steps[j], states[j + 1]);
  }

  /** So a caller that purges no later than the clock and every open reading gets the bound over the whole run. */
  lemma {:induction false} LateCutoffsBoundUses(v: Verifier, i: Issuer, states: seq<Gate>, steps: seq<GateStep>, k: nat,
                                                c: Claims)
    requires Trusts(v, i) && IsGateRun(v, i, states, steps) && LateCutoffs(states, steps)
    requires k < |states| && c in states[k].issued
    ensures Uses(states[k], c.nonce) <= c.maxUses
    ensures forall j :: 0 <= j < |states[k].accepted| && states[k].accepted[j].redeemed.claims == c ==>
              1 <= states[k].accepted[j].useNumber == Count(states[k].accepted, j + 1, c.nonce) <= c.maxUses
  {
    forall j | 0 <= j < |steps| ensures Guarded(states[j], steps[j]) {
      LateCutoffsGuard(v, i, states, steps, j);
    }
    UsesAreBounded(v, i, states, steps, k, c);
  }

  /** Without the guard an exhausted capability is accepted again, as use number 1. */
  lemma {:induction false} UnguardedPurgeReplays(s: Gate, r: Redeeming, cutoff: Time)
    requires GateInv(s) && r in s.inFlight && r.claims.nonce in s.store && r.claims.expiresAt <= cutoff
    requires Uses(s, r.claims.nonce) == r.claims.maxUses
    ensures var t := Finished(s.(store := Purged(s.store, cutoff)), r);
            && t.accepted == s.accepted + [Acceptance(r, 1)]
            && Uses(t, r.claims.nonce) == r.claims.maxUses + 1
  {
    FinishCounts(s, r);
    CountOneMore(s.accepted, Acceptance(r, 1), r.claims.nonce);
  }

  lemma {:induction false} OwnTokenIsUnforged(v: Verifier, i: Issuer, s: Gate, c: Claims)
    requires Trusts(v, i) && s.issued == [c]
    ensures Unforged(v, i, s, TokenOf(i, c))
  {
    if Authenticate(v, TokenOf(i, c)).Some? {
      ParseUndoesEncode(i.headers, HeaderOf(i), i.writeClaims(c), i.sign(PayloadOf(i, c)));
      assert s.issued[0] == c;
    }
  }

  lemma {:induction false} RunExtends(v: Verifier, i: Issuer, states: seq<Gate>, steps: seq<GateStep>, step: GateStep,
                                      t: Gate)
    requires IsGateRun(v, i, states, steps) && GateNext(v, i, states[|steps|], step, t)
    ensures IsGateRun(v, i, states + [t], steps + [step])
  {
  }

  lemma {:induction false} TwoRedeem(v: Verifier, i: Issuer, c: Claims, presented: PresentedAction, start: Time)
    returns (states: seq<Gate>, steps: seq<GateStep>)
    requires Trusts(v, i) && c.maxUses == 1 && Admit(v, TokenOf(i, c), presented, start) == Some(c)
    ensures IsGateRun(v, i, states, steps)
    ensures var r := Redeeming(c, presented, start);
            states[|steps|] == Gate(start, [c], map[], multiset{r, r}, [])
  {
    var token, r := TokenOf(i, c), Redeeming(c, presented, start);
    var g0 := Opening(start);
    var g1 := g0.(issued := [c]);
    var g2 := g1.(inFlight := multiset{r});
    OwnTokenIsUnforged(v, i, g1, c);
    OwnTokenIsUnforged(v, i, g2, c);
    RunExtends(v, i, [g0], [], Issue(c), g1);
    RunExtends(v, i, [g0, g1], [Issue(c)], Present(token, presented), g2);
    RunExtends(v, i, [g0, g1, g2], [Issue(c), Present(token, presented)], Present(token, presented),
               g2.(inFlight := multiset{r, r}));
    states := [g0, g1, g2, g2.(inFlight := multiset{r, r})];
    steps := [Issue(c), Present(token, presented), Present(token, presented)];
  }

  /**
   Such a run exists for every single-use token that can be redeemed at all: two redemptions
   begin, one finishes, the token expires, its record is purged at that very reading of the
   clock, and the other redemption finishes.
   */
  lemma {:induction false} ReplayRun(v: Verifier, i: Issuer, c: Claims, presented: PresentedAction, start: Time)
    returns (states: seq<Gate>, steps: seq<GateStep>)
    requires Trusts(v, i) && c.maxUses == 1 && Admit(v, TokenOf(i, c), presented, start) == Some(c)
    ensures IsGateRun(v, i, states, steps)
    ensures var r := Redeeming(c, presented, start);
            states[|steps|].accepted == [Acceptance(r, 1), Acceptance(r, 1)]
  {
    var r := Redeeming(c, presented, start);
    states, steps := TwoRedeem(v, i, c, presented, start);
    var g3 := states[|steps|];
    var g4 := Finished(g3, r);
    var g5 := g4.(now := c.expiresAt);
    var g6 := g5.(store := Purged(g5.store, c.expiresAt));
    assert g4 == Gate(start, [c], map[c.nonce := Use(1, c.expiresAt)], multiset{r}, [Acceptance(r, 1)]);
    assert g6.store == map[];
    var g7 := Finished(g6, r);
    RunExtends(v, i, states, steps, Finish(r), g4);
    states, steps := states + [g4], steps + [Finish(r)];
    RunExtends(v, i, states, steps, Tick(c.expiresAt), g5);
    states, steps := states + [g5], steps + [Tick(c.expiresAt)];
    RunExtends(v, i, states, steps, Purge(c.expiresAt), g6);
    states, steps := states + [g6], steps + [Purge(c.expiresAt)];
    RunExtends(v, i, states, steps, Finish(r), g7);
    states, steps := states + [g7], steps + [Finish(r)];
  }
}
