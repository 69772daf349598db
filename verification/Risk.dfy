/**
 The composite risk score over the reals: each signal claims its share of the headroom that is
 left, so the score is one minus the product of what the signals leave.
 */
module Risk {
  import opened Json
  import opened Folds

  datatype Taint =
    | Secret | Credential | AuthenticationData | FinancialData | Pii | ConfidentialData | UntrustedInstruction
    | UntrustedCode | ExecutableContent | SecurityPolicyContent | ApprovalData | ExternalUrl

  datatype Tier = Observational | LowRiskRead | ControlledMutation | HighImpact | Critical

  /** `trustRank` is the rank of the least trusted influence; `detectors` are risks weighted by confidence. */
  datatype Inputs = Inputs(
    tier: Option<Tier>, reversible: bool, egress: bool, trustRank: Option<nat>, instructionInfluence: bool,
    taints: seq<Taint>, evasiveEncoding: bool, outOfRemit: bool, retryOfDenied: bool,
    priorDenials: nat, delegationDepth: nat, detectors: seq<real>, approved: bool)

  const AUTHORITY_RANK := 50
  const REVIEW_THRESHOLD := 0.6
  const APPROVAL_DISCOUNT := 0.4

  function TierWeight(t: Tier): real {
    match t
    case Observational => 0.0
    case LowRiskRead => 0.15
    case ControlledMutation => 0.4
    case HighImpact => 0.75
    case Critical => 1.0
  }

  function TaintWeight(t: Taint): real {
    match t
    case Secret => 1.0
    case Credential => 1.0
    case AuthenticationData => 1.0
    case FinancialData => 0.9
    case Pii => 0.7
    case ConfidentialData => 0.6
    case UntrustedInstruction => 0.5
    case UntrustedCode => 0.5
    case ExecutableContent => 0.5
    case SecurityPolicyContent => 0.4
    case ApprovalData => 0.3
    case ExternalUrl => 0.2
  }

  function Min(a: real, b: real): real { if a <= b then a else b }

  function Clamp(x: real): (r: real)
    ensures 0.0 <= r <= 1.0
  {
    if x < 0.0 then 0.0 else if x > 1.0 then 1.0 else x
  }

  /** A signal that carries weight. */
  function Signal(weight: real): seq<real> { if weight > 0.0 then [weight] else [] }

  function When(on: bool, weight: real): seq<real> { if on then Signal(weight) else [] }

  /** A signal that grows with a count, up to a cap. */
  function PerCount(n: nat, each: real, cap: real): seq<real> {
    if n > 0 then Signal(Min(n as real * each, cap)) else []
  }

  function TrustSignal(rank: Option<nat>): seq<real> {
    if rank.Some? && rank.value < AUTHORITY_RANK
    then Signal(0.35 * ((AUTHORITY_RANK - rank.value) as real / AUTHORITY_RANK as real)) else []
  }

  /** One signal for each of the first `n` elements that carries weight. */
  function SignalsOf<T>(weight: T -> real, xs: seq<T>, n: nat): seq<real>
    requires n <= |xs|
  {
    if n == 0 then [] else SignalsOf(weight, xs, n - 1) + Signal(weight(xs[n - 1]))
  }

  function HalfTaint(t: Taint): real { TaintWeight(t) * 0.5 }

  function Half(risk: real): real { risk * 0.5 }

  /** The signals that describe the action itself. */
  function ActionSignals(i: Inputs): seq<real> {
    (if i.tier.Some? then Signal(TierWeight(i.tier.value) * 0.6) else [])
    + When(!i.reversible, 0.3) + When(i.egress, 0.25)
    + TrustSignal(i.trustRank) + When(i.instructionInfluence, 0.55)
  }

  /** The signals from the session's past. */
  function SessionSignals(i: Inputs): seq<real> {
    When(i.evasiveEncoding, 0.4) + When(i.outOfRemit, 0.5) + When(i.retryOfDenied, 0.45)
    + PerCount(i.priorDenials, 0.12, 0.5) + PerCount(i.delegationDepth, 0.08, 0.3)
  }

  function Contributions(i: Inputs): seq<real> {
    ActionSignals(i) + SignalsOf(HalfTaint, i.taints, |i.taints|) + SessionSignals(i)
    + SignalsOf(Half, i.detectors, |i.detectors|)
  }

  function Times(x: real, y: real): real { x * y }

  /** What one signal leaves of 1. */
  function Factor(w: real): real { 1.0 - Clamp(w) }

  /** What all the signals leave of 1. */
  function Headroom(ws: seq<real>): (h: real) { Fold(Times, 1.0, Factor, ws) }

  function Discounted(risk: real, approved: bool): real {
    if approved then risk * (1.0 - APPROVAL_DISCOUNT) else risk
  }

  /** The score before rounding. */
  function Score(i: Inputs): real { Discounted(1.0 - Headroom(Contributions(i)), i.approved) }

  /** To four decimal places, halves upwards. */
  function RoundScore(v: real): real { (v * 10000.0 + 0.5).Floor as real / 10000.0 }

  // ---- the headroom is a product ----

  lemma {:induction false} TimesIsLawful()
    ensures Lawful(Times, 1.0)
  {
    forall x, y, z ensures Associates(Times, x, y, z) { Regroup(x, y, z); }
  }

  lemma {:induction false} Regroup(x: real, y: real, z: real)
    ensures x * (y * z) == (x * y) * z
  {
  }

  /** The score does not depend on the order of the signals. */
  lemma {:induction false} OrderIsIrrelevant(ws: seq<real>, vs: seq<real>)
    requires multiset(ws) == multiset(vs)
    ensures Headroom(ws) == Headroom(vs)
  {
    TimesIsLawful();
    FoldIgnoresOrder(Times, 1.0, Factor, ws, vs);
  }

  lemma {:induction false} HeadroomConcat(a: seq<real>, b: seq<real>)
    ensures Headroom(a + b) == Times(Headroom(a), Headroom(b))
  {
    TimesIsLawful();
    FoldConcat(Times, 1.0, Factor, a, b);
  }

  lemma {:induction false} HeadroomOfSignal(ws: seq<real>, w: real)
    ensures Headroom(ws + Signal(w)) == Times(Headroom(ws), Factor(w))
  {
    TimesIsLawful();
    if w > 0.0 {
      FoldConcat(Times, 1.0, Factor, ws, [w]);
      FoldOne(Times, 1.0, Factor, w);
    } else {
      assert ws + [] == ws && Factor(w) == 1.0;
    }
  }

  lemma {:induction false} HeadroomBounds(ws: seq<real>)
    ensures 0.0 <= Headroom(ws) <= 1.0
  {
    if ws != [] {
      HeadroomBounds(ws[1..]);
      Shrinks(Factor(ws[0]), Headroom(ws[1..]));
    }
  }

  lemma {:induction false} Shrinks(x: real, y: real)
    requires 0.0 <= x <= 1.0 && 0.0 <= y <= 1.0
    ensures 0.0 <= Times(x, y) <= y && Times(x, y) <= x
  {
    NonNegative(x, y);
    NonNegative(1.0 - x, y);
    NonNegative(x, 1.0 - y);
    assert (1.0 - x) * y == y - x * y && x * (1.0 - y) == x - x * y;
  }

  lemma {:induction false} NonNegative(x: real, y: real)
    requires x >= 0.0 && y >= 0.0
    ensures x * y >= 0.0
  {
  }

  /** Another signal never lowers the score, wherever it comes in. */
  lemma {:induction false} SignalsOnlyRaise(a: seq<real>, w: real, b: seq<real>)
    ensures Headroom(a + [w] + b) <= Headroom(a + b)
  {
    TimesIsLawful();
    FoldFactor(Times, 1.0, Factor, a, w, b);
    HeadroomBounds(a + b);
    Shrinks(Factor(w), Headroom(a + b));
  }

  lemma {:induction false} HeadroomIsPositive(ws: seq<real>)
    requires forall k :: 0 <= k < |ws| ==> ws[k] < 1.0
    ensures Headroom(ws) > 0.0
  {
    if ws != [] {
      HeadroomIsPositive(ws[1..]);
    }
  }

  /** The headroom is whole exactly when there is no signal. */
  lemma {:induction false} WholeExactly(ws: seq<real>)
    requires forall k :: 0 <= k < |ws| ==> 0.0 < ws[k]
    ensures Headroom(ws) == 1.0 <==> ws == []
  {
    if ws != [] {
      HeadroomBounds(ws[1..]);
      Shrinks(Factor(ws[0]), Headroom(ws[1..]));
    }
  }

  // ---- the loop ----

  method Aggregate(ws: seq<real>) returns (risk: real)
    ensures risk == 1.0 - Headroom(ws)
  {
    risk := 0.0;
    assert ws[..0] == [];
    for k := 0 to |ws|
      invariant risk == 1.0 - Headroom(ws[..k])
    {
      assert ws[..k + 1] == ws[..k] + [ws[k]];
      OneMore(ws[..k], ws[k]);
      risk := risk + (1.0 - risk) * Clamp(ws[k]);
    }
    assert ws[..|ws|] == ws;
  }

  /** Claiming a share of what is left multiplies what is left. */
  lemma {:induction false} OneMore(ws: seq<real>, w: real)
    ensures 1.0 - Headroom(ws + [w]) == (1.0 - Headroom(ws)) + Headroom(ws) * Clamp(w)
  {
    HeadroomConcat(ws, [w]);
    TimesIsLawful();
    FoldOne(Times, 1.0, Factor, w);
  }

  method CollectSignals<T>(weight: T -> real, xs: seq<T>) returns (r: seq<real>)
    ensures r == SignalsOf(weight, xs, |xs|)
  {
    r := [];
    for k := 0 to |xs|
      invariant r == SignalsOf(weight, xs, k)
    {
      if weight(xs[k]) > 0.0 {
        r := r + [weight(xs[k])];
      }
    }
  }

  method Collect(i: Inputs) returns (r: seq<real>)
    ensures r == Contributions(i)
  {
    r := ActionSignals(i);
    var taints := CollectSignals(HalfTaint, i.taints);
    r := r + taints;
    r := r + SessionSignals(i);
    var detectors := CollectSignals(Half, i.detectors);
    r := r + detectors;
  }

  method Assess(i: Inputs) returns (risk: real)
    ensures risk == RoundScore(Clamp(Score(i)))
  {
    var contributions := Collect(i);
    risk := Aggregate(contributions);
    if i.approved {
      risk := risk * (1.0 - APPROVAL_DISCOUNT);
    }
    risk := RoundScore(Clamp(risk));
  }

  // ---- the score ----

  /** No signal alone claims more than 0.6. */
  predicate Moderate(ws: seq<real>) {
    forall k :: 0 <= k < |ws| ==> 0.0 < ws[k] <= 0.6
  }

  lemma {:induction false} SignalsAreModerate<T>(weight: T -> real, xs: seq<T>, n: nat)
    requires n <= |xs| && forall k :: 0 <= k < |xs| ==> weight(xs[k]) <= 0.6
    ensures Moderate(SignalsOf(weight, xs, n))
  {
    if n > 0 { SignalsAreModerate(weight, xs, n - 1); }
  }

  lemma {:induction false} ModerateConcat(a: seq<real>, b: seq<real>)
    requires Moderate(a) && Moderate(b)
    ensures Moderate(a + b)
  {
  }

  lemma {:induction false} ActionIsModerate(i: Inputs)
    ensures Moderate(ActionSignals(i))
  {
  }

  lemma {:induction false} SessionIsModerate(i: Inputs)
    ensures Moderate(SessionSignals(i))
  {
  }

  lemma {:induction false} AllModerate(i: Inputs)
    requires forall k :: 0 <= k < |i.detectors| ==> i.detectors[k] <= 1.0
    ensures Moderate(Contributions(i))
  {
    ActionIsModerate(i);
    SignalsAreModerate(HalfTaint, i.taints, |i.taints|);
    SessionIsModerate(i);
    SignalsAreModerate(Half, i.detectors, |i.detectors|);
    ModerateConcat(ActionSignals(i), SignalsOf(HalfTaint, i.taints, |i.taints|));
    ModerateConcat(ActionSignals(i) + SignalsOf(HalfTaint, i.taints, |i.taints|), SessionSignals(i));
    ModerateConcat(ActionSignals(i) + SignalsOf(HalfTaint, i.taints, |i.taints|) + SessionSignals(i),
                   SignalsOf(Half, i.detectors, |i.detectors|));
  }

  /**
   With detector risks at most 1, the score stays below 1, and it is positive exactly when
   some signal is; an approval discounts it but never to zero.
   */
  lemma {:induction false} ScoreBounds(i: Inputs)
    requires forall k :: 0 <= k < |i.detectors| ==> i.detectors[k] <= 1.0
    ensures 0.0 <= Score(i) < 1.0 && (Score(i) > 0.0 <==> Contributions(i) != [])
  {
    AllModerate(i);
    ModerateHeadroom(Contributions(i));
  }

  lemma {:induction false} ModerateHeadroom(ws: seq<real>)
    requires Moderate(ws)
    ensures 0.0 < Headroom(ws) <= 1.0 && (Headroom(ws) == 1.0 <==> ws == [])
  {
    HeadroomIsPositive(ws);
    HeadroomBounds(ws);
    WholeExactly(ws);
  }

  // ---- what each signal leaves ----

  function TierLeaves(t: Option<Tier>): real {
    match t
    case None => 1.0
    case Some(Observational) => 1.0
    case Some(LowRiskRead) => 0.91
    case Some(ControlledMutation) => 0.76
    case Some(HighImpact) => 0.55
    case Some(Critical) => 0.4
  }

  function TaintLeaves(t: Taint): real {
    match t
    case Secret => 0.5
    case Credential => 0.5
    case AuthenticationData => 0.5
    case FinancialData => 0.55
    case Pii => 0.65
    case ConfidentialData => 0.7
    case UntrustedInstruction => 0.75
    case UntrustedCode => 0.75
    case ExecutableContent => 0.75
    case SecurityPolicyContent => 0.8
    case ApprovalData => 0.85
    case ExternalUrl => 0.9
  }

  function DetectorLeaves(risk: real): real {
    if risk <= 0.0 then 1.0 else if risk >= 2.0 then 0.0 else 1.0 - risk / 2.0
  }

  /** Seven thousandths for every rank below the fiftieth. */
  function TrustLeaves(rank: Option<nat>): real {
    if rank.Some? && rank.value < 50 then 1.0 - 0.007 * (50 - rank.value) as real else 1.0
  }

  function Unless(on: bool, leaves: real): real { if on then leaves else 1.0 }

  /** What the action's own signals leave of 1. */
  function ActionLeaves(i: Inputs): real {
    Times(Times(Times(Times(TierLeaves(i.tier), Unless(!i.reversible, 0.7)), Unless(i.egress, 0.75)),
                TrustLeaves(i.trustRank)),
          Unless(i.instructionInfluence, 0.45))
  }

  /** What the session's signals leave of 1. */
  function SessionLeaves(i: Inputs): real {
    Times(Times(Times(Times(Unless(i.evasiveEncoding, 0.6), Unless(i.outOfRemit, 0.5)), Unless(i.retryOfDenied, 0.55)),
                1.0 - Min(0.12 * i.priorDenials as real, 0.5)),
          1.0 - Min(0.08 * i.delegationDepth as real, 0.3))
  }

  lemma {:induction false} OneLeaves(w: real)
    ensures Headroom(Signal(w)) == Factor(w)
  {
    TimesIsLawful();
    if w > 0.0 {
      FoldOne(Times, 1.0, Factor, w);
    }
  }

  lemma {:induction false} FiveLeave(a: seq<real>, b: seq<real>, c: seq<real>, d: seq<real>, e: seq<real>)
    ensures Headroom(a + b + c + d + e)
            == Times(Times(Times(Times(Headroom(a), Headroom(b)), Headroom(c)), Headroom(d)), Headroom(e))
  {
    HeadroomConcat(a + b + c + d, e);
    HeadroomConcat(a + b + c, d);
    HeadroomConcat(a + b, c);
    HeadroomConcat(a, b);
  }

  lemma {:induction false} WhenLeaves(on: bool, w: real)
    requires 0.0 < w <= 1.0
    ensures Headroom(When(on, w)) == Unless(on, 1.0 - w)
  {
    OneLeaves(w);
  }

  lemma {:induction false} TierSignalLeaves(t: Option<Tier>)
    ensures Headroom(if t.Some? then Signal(TierWeight(t.value) * 0.6) else []) == TierLeaves(t)
  {
    if t.Some? {
      OneLeaves(TierWeight(t.value) * 0.6);
    }
  }

  lemma {:induction false} TrustSignalLeaves(rank: Option<nat>)
    ensures Headroom(TrustSignal(rank)) == TrustLeaves(rank)
  {
    if rank.Some? && rank.value < AUTHORITY_RANK {
      var d := (AUTHORITY_RANK - rank.value) as real;
      assert 0.35 * (d / 50.0) == 0.007 * d;
      OneLeaves(0.007 * d);
    }
  }

  lemma {:induction false} CountLeaves(n: nat, each: real, cap: real)
    requires 0.0 < each && 0.0 < cap <= 1.0
    ensures Headroom(PerCount(n, each, cap)) == 1.0 - Min(each * n as real, cap)
  {
    if n > 0 {
      NonNegative(n as real, each);
      OneLeaves(Min(n as real * each, cap));
    }
  }

  lemma {:induction false} ActionHeadroom(i: Inputs)
    ensures Headroom(ActionSignals(i)) == ActionLeaves(i)
  {
    var tier := if i.tier.Some? then Signal(TierWeight(i.tier.value) * 0.6) else [];
    TierSignalLeaves(i.tier);
    WhenLeaves(!i.reversible, 0.3);
    WhenLeaves(i.egress, 0.25);
    TrustSignalLeaves(i.trustRank);
    WhenLeaves(i.instructionInfluence, 0.55);
    FiveLeave(tier, When(!i.reversible, 0.3), When(i.egress, 0.25), TrustSignal(i.trustRank),
              When(i.instructionInfluence, 0.55));
  }

  lemma {:induction false} SessionHeadroom(i: Inputs)
    ensures Headroom(SessionSignals(i)) == SessionLeaves(i)
  {
    WhenLeaves(i.evasiveEncoding, 0.4);
    WhenLeaves(i.outOfRemit, 0.5);
    WhenLeaves(i.retryOfDenied, 0.45);
    CountLeaves(i.priorDenials, 0.12, 0.5);
    CountLeaves(i.delegationDepth, 0.08, 0.3);
    FiveLeave(When(i.evasiveEncoding, 0.4), When(i.outOfRemit, 0.5), When(i.retryOfDenied, 0.45),
              PerCount(i.priorDenials, 0.12, 0.5), PerCount(i.delegationDepth, 0.08, 0.3));
  }

  lemma {:induction false} SignalsHeadroom<T(!new)>(weight: T -> real, f: T -> real, xs: seq<T>, n: nat)
    requires n <= |xs| && forall x :: f(x) == Factor(weight(x))
    ensures Headroom(SignalsOf(weight, xs, n)) == Fold(Times, 1.0, f, xs[..n])
  {
    if n > 0 {
      SignalsHeadroom(weight, f, xs, n - 1);
      HeadroomOfSignal(SignalsOf(weight, xs, n - 1), weight(xs[n - 1]));
      TimesIsLawful();
      assert xs[..n] == xs[..n - 1] + [xs[n - 1]];
      FoldConcat(Times, 1.0, f, xs[..n - 1], [xs[n - 1]]);
      FoldOne(Times, 1.0, f, xs[n - 1]);
    }
  }

  lemma {:induction false} HeadroomOfParts(i: Inputs)
    ensures Headroom(Contributions(i))
            == Times(Times(Times(ActionLeaves(i), Fold(Times, 1.0, TaintLeaves, i.taints)), SessionLeaves(i)),
                     Fold(Times, 1.0, DetectorLeaves, i.detectors))
  {
    var a, t, s := ActionSignals(i), SignalsOf(HalfTaint, i.taints, |i.taints|), SessionSignals(i);
    HeadroomConcat(a + t + s, SignalsOf(Half, i.detectors, |i.detectors|));
    HeadroomConcat(a + t, s);
    HeadroomConcat(a, t);
    ActionHeadroom(i);
    SessionHeadroom(i);
    SignalsHeadroom(HalfTaint, TaintLeaves, i.taints, |i.taints|);
    SignalsHeadroom(Half, DetectorLeaves, i.detectors, |i.detectors|);
    assert i.taints[..|i.taints|] == i.taints && i.detectors[..|i.detectors|] == i.detectors;
  }

  /** The score, signal by signal: one minus what every signal leaves, less four tenths when approved. */
  lemma {:induction false} ScoreExactly(i: Inputs)
    ensures var left := Times(Times(Times(ActionLeaves(i), Fold(Times, 1.0, TaintLeaves, i.taints)), SessionLeaves(i)),
                              Fold(Times, 1.0, DetectorLeaves, i.detectors));
            Score(i) == if i.approved then (1.0 - left) * 0.6 else 1.0 - left
  {
    HeadroomOfParts(i);
  }

  lemma {:induction false} SameLeaves(i: Inputs, j: Inputs)
    requires j == i.(taints := j.taints, detectors := j.detectors)
    ensures ActionLeaves(i) == ActionLeaves(j) && SessionLeaves(i) == SessionLeaves(j)
  {
  }

  lemma {:induction false} SameListsSameHeadroom(i: Inputs, j: Inputs)
    requires j == i.(taints := j.taints, detectors := j.detectors)
    requires multiset(i.taints) == multiset(j.taints) && multiset(i.detectors) == multiset(j.detectors)
    ensures Headroom(Contributions(i)) == Headroom(Contributions(j))
  {
    TimesIsLawful();
    HeadroomOfParts(i);
    HeadroomOfParts(j);
    SameLeaves(i, j);
    FoldIgnoresOrder(Times, 1.0, TaintLeaves, i.taints, j.taints);
    FoldIgnoresOrder(Times, 1.0, DetectorLeaves, i.detectors, j.detectors);
  }

  /** The score does not depend on the order in which taints and detector results are listed. */
  lemma {:induction false} ListOrderIsIrrelevant(i: Inputs, j: Inputs)
    requires j == i.(taints := j.taints, detectors := j.detectors)
    requires multiset(i.taints) == multiset(j.taints) && multiset(i.detectors) == multiset(j.detectors)
    ensures Score(i) == Score(j)
  {
    SameListsSameHeadroom(i, j);
  }

  // ---- rounding ----

  /** Rounding keeps the range, and shows 0 or 1 only within half a unit of the last place. */
  lemma {:induction false} RoundingEdges(v: real)
    requires 0.0 <= v <= 1.0
    ensures 0.0 <= RoundScore(v) <= 1.0 && -0.00005 <= RoundScore(v) - v <= 0.00005
    ensures RoundScore(v) == 0.0 <==> v < 0.00005
    ensures RoundScore(v) == 1.0 <==> v >= 0.99995
  {
    var n := (v * 10000.0 + 0.5).Floor;
    assert n as real <= v * 10000.0 + 0.5 < n as real + 1.0;
    assert 0 <= n <= 10000;
  }

  predicate WarrantsReview(risk: real) { risk >= REVIEW_THRESHOLD }

  /** The rounded score asks for review exactly when the score itself is within half a unit of the threshold. */
  lemma {:induction false} ReviewExactly(i: Inputs)
    requires forall k :: 0 <= k < |i.detectors| ==> i.detectors[k] <= 1.0
    ensures WarrantsReview(RoundScore(Clamp(Score(i)))) <==> Score(i) >= 0.59995
  {
    ScoreBounds(i);
    var v := Score(i);
    var n := (v * 10000.0 + 0.5).Floor;
    assert n as real <= v * 10000.0 + 0.5 < n as real + 1.0;
    assert n >= 6000 <==> v * 10000.0 + 0.5 >= 6000.0;
  }
}
