/** The counters of a simulator run, and the run itself. */
module EndpointMetrics {
  import opened Json
  import opened Endpoint
  import opened EndpointRuns

  datatype Metrics = Metrics(authorizations: nat, allows: nat, denials: nat, guardDenials: nat, late: nat, dropped: nat,
                             maxLatency: nat)

  const ZERO := Metrics(0, 0, 0, 0, 0, 0, 0)

  datatype Item =
    | Arrived(envelope: Envelope, delay: nat)
    | Lost(count: nat)
    | SourceFailure

  function Bump(n: nat, on: bool): nat { if on then SaturatingAdd(n, 1) else n }

  function Recorded(m: Metrics, d: EndpointDecision): Metrics {
    if d.response.NoResponse? then m
    else
      var guarded := d.reason.DenyDeadlineGuard?;
      Metrics(SaturatingAdd(m.authorizations, 1), Bump(m.allows, d.verdict.Allow?), Bump(m.denials, d.verdict.Deny?),
              Bump(m.guardDenials, guarded), Bump(m.late, guarded && d.remaining == Some(0)), m.dropped,
              if d.latency > m.maxLatency then d.latency else m.maxLatency)
  }

  /** Everything a run carries from item to item. */
  datatype Progress = Progress(last: Option<nat>, attributions: Attributions, metrics: Metrics,
                               decisions: seq<EndpointDecision>)

  /** The gap between two sequence numbers counts as dropped events. */
  function Gap(last: nat, global: nat): nat { SaturatingSub(SaturatingSub(global, last), 1) }

  function Sequenced(p: Progress, e: Envelope): Progress {
    if e.globalSequence.None? then p
    else if p.last.None? then p.(last := e.globalSequence)
    else p.(last := e.globalSequence,
            metrics := p.metrics.(dropped := SaturatingAdd(p.metrics.dropped,
                                                           Gap(p.last.value, e.globalSequence.value))))
  }

  function Handled(c: Config, p: Progress, item: Item): Progress {
    match item
    case SourceFailure => p
    case Lost(count) => p.(metrics := p.metrics.(dropped := SaturatingAdd(p.metrics.dropped, count)))
    case Arrived(e, delay) =>
      var q := Sequenced(p, e);
      var d := Evaluate(c, q.attributions, e, SaturatingAdd(e.observedAt, delay));
      q.(metrics := Recorded(q.metrics, d), attributions := AfterEvent(q.attributions, e, d),
         decisions := q.decisions + [d])
  }

  function After(c: Config, p: Progress, items: seq<Item>, n: nat): Progress
    requires n <= |items|
  {
    if n == 0 then p else Handled(c, After(c, p, items, n - 1), items[n - 1])
  }

  class AuthorizationMetrics {
    var m: Metrics

    constructor ()
      ensures m == ZERO
    {
      m := ZERO;
    }

    method RecordDecision(d: EndpointDecision)
      modifies this
      ensures m == Recorded(old(m), d)
    {
      if d.response.NoResponse? {
        return;
      }
      m := m.(authorizations := SaturatingAdd(m.authorizations, 1),
              maxLatency := if d.latency > m.maxLatency then d.latency else m.maxLatency);
      match d.verdict {
        case Allow => m := m.(allows := SaturatingAdd(m.allows, 1));
        case Deny => m := m.(denials := SaturatingAdd(m.denials, 1));
        case Observe =>
      }
      if d.reason.DenyDeadlineGuard? {
        m := m.(guardDenials := SaturatingAdd(m.guardDenials, 1));
        if d.remaining == Some(0) {
          m := m.(late := SaturatingAdd(m.late, 1));
        }
      }
    }
  }

  datatype Report = Report(decisions: seq<EndpointDecision>, metrics: Metrics, remaining: nat)

  class EndpointSimulator {
    var last: Option<nat>

    constructor ()
      ensures last == None
    {
      last := None;
    }

    method Handle(e: Envelope, delay: nat, state: FastPathState, metrics: AuthorizationMetrics)
      returns (d: EndpointDecision)
      requires state.Valid()
      modifies this, state, metrics
      ensures state.Valid()
      ensures forall before ::
                Progress(last, state.attributions, metrics.m, before + [d])
                == Handled(state.config, Progress(old(last), old(state.attributions), old(metrics.m), before),
                           Arrived(e, delay))
    {
      if e.globalSequence.Some? {
        if last.Some? {
          var gap := SaturatingSub(SaturatingSub(e.globalSequence.value, last.value), 1);
          metrics.m := metrics.m.(dropped := SaturatingAdd(metrics.m.dropped, gap));
        }
        last := e.globalSequence;
      }
      var at := SaturatingAdd(e.observedAt, delay);
      d := Evaluate(state.config, state.attributions, e, at);
      metrics.RecordDecision(d);
      AllowedExecHasTarget(state.config, state.attributions, e, at);
      state.ApplySuccessfulTransition(e, d);
    }

    method HandleItem(item: Item, state: FastPathState, metrics: AuthorizationMetrics, decisions: seq<EndpointDecision>)
      returns (more: seq<EndpointDecision>)
      requires state.Valid() && !item.SourceFailure?
      modifies this, state, metrics
      ensures state.Valid()
      ensures Progress(last, state.attributions, metrics.m, more)
              == Handled(state.config, Progress(old(last), old(state.attributions), old(metrics.m), decisions), item)
    {
      match item
      case Lost(count) =>
        metrics.m := metrics.m.(dropped := SaturatingAdd(metrics.m.dropped, count));
        return decisions;
      case Arrived(e, delay) =>
        var d := Handle(e, delay, state, metrics);
        return decisions + [d];
    }

    /** A source failure ends the run without a report; what was handled before it stays in effect. */
    method Run(items: seq<Item>, state: FastPathState) returns (report: Option<Report>, handled: nat)
      requires state.Valid()
      modifies this, state
      ensures state.Valid()
      ensures handled <= |items| && (forall k :: 0 <= k < handled ==> !items[k].SourceFailure?)
      ensures if report.Some? then handled == |items| else handled < |items| && items[handled].SourceFailure?
      ensures var end := After(state.config, Progress(old(last), old(state.attributions), ZERO, []), items, handled);
              && last == end.last && state.attributions == end.attributions
              && (report.Some? ==> report.value == Report(end.decisions, end.metrics, |end.attributions|))
    {
      ghost var start := Progress(last, state.attributions, ZERO, []);
      var decisions: seq<EndpointDecision> := [];
      var metrics := new AuthorizationMetrics();
      handled := 0;
      while handled < |items|
        modifies this, state, metrics
        invariant handled <= |items| && (forall k :: 0 <= k < handled ==> !items[k].SourceFailure?)
        invariant state.Valid()
        invariant Progress(last, state.attributions, metrics.m, decisions) == After(state.config, start, items, handled)
      {
        if items[handled].SourceFailure? {
          return None, handled;
        }
        decisions := HandleItem(items[handled], state, metrics, decisions);
        handled := handled + 1;
      }
      return Some(Report(decisions, metrics.m, |state.attributions|)), handled;
    }
  }

  lemma {:induction false} AllowedExecHasTarget(c: Config, a: Attributions, e: Envelope, at: nat)
    requires Within(c, a)
    ensures e.operation.AuthExec? && e.actor in a && Evaluate(c, a, e, at).verdict.Allow? ==> e.operation.target != 0
  {
    if e.actor in a {
      OperationExactly(e.operation, c.sessions[a[e.actor]], c);
    }
  }

  // ---- what the counters say ----

  /** Answers split into allows and denials; late events are guard denials, and guard denials are denials. */
  predicate Balanced(m: Metrics) {
    m.authorizations == m.allows + m.denials && m.late <= m.guardDenials <= m.denials
  }

  lemma {:induction false} RecordingBalances(c: Config, a: Attributions, e: Envelope, at: nat, m: Metrics)
    requires Balanced(m) && m.authorizations + 1 < U64_LIMIT
    ensures var d := Evaluate(c, a, e, at);
            && Balanced(Recorded(m, d))
            && Recorded(m, d).authorizations == m.authorizations + if IsAuthorization(e.operation) then 1 else 0
  {
    ResponseSaysVerdict(c, a, e, at);
    if IsAuthorization(e.operation) && e.actor in a && a[e.actor] in c.sessions {
      GuardOnlyFromDeadline(e.operation, c.sessions[a[e.actor]], c);
    }
  }

  lemma {:induction false} GuardOnlyFromDeadline(op: Operation, p: Policy, c: Config)
    ensures !EvaluateOperation(op, p, c).1.DenyDeadlineGuard?
  {
  }

  function Authorizes(item: Item): nat { if item.Arrived? && IsAuthorization(item.envelope.operation) then 1 else 0 }

  function CountAuthorizations(items: seq<Item>, n: nat): (k: nat)
    requires n <= |items|
    ensures k <= n
  {
    if n == 0 then 0
    else CountAuthorizations(items, n - 1) + Authorizes(items[n - 1])
  }

  lemma {:induction false} HandlingBalances(c: Config, q: Progress, item: Item)
    requires Balanced(q.metrics) && q.metrics.authorizations + 1 < U64_LIMIT
    ensures var m := Handled(c, q, item).metrics;
            Balanced(m) && m.authorizations == q.metrics.authorizations + Authorizes(item)
  {
    match item
    case Arrived(e, delay) =>
      var r := Sequenced(q, e);
      RecordingBalances(c, r.attributions, e, SaturatingAdd(e.observedAt, delay), r.metrics);
    case _ =>
  }

  /** Over any run shorter than the counters, they count exactly and stay balanced. */
  lemma {:induction false} CountersBalance(c: Config, p: Progress, items: seq<Item>, n: nat)
    requires n <= |items| && |items| < U64_LIMIT && p.metrics == ZERO
    ensures var m := After(c, p, items, n).metrics; Balanced(m) && m.authorizations == CountAuthorizations(items, n)
  {
    if n > 0 {
      CountersBalance(c, p, items, n - 1);
      HandlingBalances(c, After(c, p, items, n - 1), items[n - 1]);
    }
  }

  // ---- the counters and the decisions ----

  predicate Answered(d: EndpointDecision) { !d.response.NoResponse? }

  predicate Allowed(d: EndpointDecision) { Answered(d) && d.verdict.Allow? }

  predicate Denied(d: EndpointDecision) { Answered(d) && d.verdict.Deny? }

  predicate Guarded(d: EndpointDecision) { Answered(d) && d.reason.DenyDeadlineGuard? }

  predicate TooLate(d: EndpointDecision) { Guarded(d) && d.remaining == Some(0) }

  function Tally(counts: EndpointDecision -> bool, ds: seq<EndpointDecision>): (n: nat)
    ensures n <= |ds|
  {
    if ds == [] then 0 else Tally(counts, ds[..|ds| - 1]) + if counts(ds[|ds| - 1]) then 1 else 0
  }

  lemma {:induction false} TallyOneMore(counts: EndpointDecision -> bool, ds: seq<EndpointDecision>,
                                        d: EndpointDecision)
    ensures Tally(counts, ds + [d]) == Tally(counts, ds) + if counts(d) then 1 else 0
  {
    assert (ds + [d])[..|ds|] == ds;
  }

  /** The greatest latency of an answer, or zero. */
  ghost predicate IsGreatest(n: nat, ds: seq<EndpointDecision>) {
    && (forall k :: 0 <= k < |ds| && Answered(ds[k]) ==> ds[k].latency <= n)
    && (n == 0 || exists k :: 0 <= k < |ds| && Answered(ds[k]) && ds[k].latency == n)
  }

  /** Each counter is the number of decisions of its kind. */
  ghost predicate Counts(m: Metrics, ds: seq<EndpointDecision>) {
    && m.authorizations == Tally(Answered, ds) && m.allows == Tally(Allowed, ds) && m.denials == Tally(Denied, ds)
    && m.guardDenials == Tally(Guarded, ds) && m.late == Tally(TooLate, ds) && IsGreatest(m.maxLatency, ds)
  }

  lemma {:induction false} GreatestOfMore(n: nat, ds: seq<EndpointDecision>, d: EndpointDecision)
    requires IsGreatest(n, ds)
    ensures IsGreatest(if Answered(d) && d.latency > n then d.latency else n, ds + [d])
  {
    var more := ds + [d];
    assert more[|ds|] == d;
    if n > 0 {
      var k :| 0 <= k < |ds| && Answered(ds[k]) && ds[k].latency == n;
      assert more[k] == ds[k];
    }
  }

  lemma {:induction false} RecordingCounts(m: Metrics, ds: seq<EndpointDecision>, d: EndpointDecision)
    requires Counts(m, ds) && |ds| + 1 < U64_LIMIT
    ensures Counts(Recorded(m, d), ds + [d])
  {
    TallyOneMore(Answered, ds, d);
    TallyOneMore(Allowed, ds, d);
    TallyOneMore(Denied, ds, d);
    TallyOneMore(Guarded, ds, d);
    TallyOneMore(TooLate, ds, d);
    GreatestOfMore(m.maxLatency, ds, d);
  }

  lemma {:induction false} HandlingCounts(c: Config, q: Progress, item: Item)
    requires Counts(q.metrics, q.decisions) && |q.decisions| + 1 < U64_LIMIT
    ensures var r := Handled(c, q, item); Counts(r.metrics, r.decisions) && |r.decisions| <= |q.decisions| + 1
  {
    match item
    case Arrived(e, delay) =>
      var r := Sequenced(q, e);
      RecordingCounts(r.metrics, r.decisions, Evaluate(c, r.attributions, e, SaturatingAdd(e.observedAt, delay)));
    case _ =>
  }

  /** Over any run shorter than the counters, every counter agrees with the decisions reported beside it. */
  lemma {:induction false} CountersCountDecisions(c: Config, last: Option<nat>, a: Attributions, items: seq<Item>,
                                                  n: nat)
    requires n <= |items| && |items| < U64_LIMIT
    ensures var end := After(c, Progress(last, a, ZERO, []), items, n);
            Counts(end.metrics, end.decisions) && |end.decisions| <= n
  {
    if n > 0 {
      CountersCountDecisions(c, last, a, items, n - 1);
      HandlingCounts(c, After(c, Progress(last, a, ZERO, []), items, n - 1), items[n - 1]);
    }
  }

  /** Every item is an event with a 64-bit sequence number above the one before. */
  ghost predicate Ascending(items: seq<Item>) {
    && (forall k :: 0 <= k < |items| ==>
          items[k].Arrived? && items[k].envelope.globalSequence.Some? && IsU64(items[k].envelope.globalSequence.value))
    && (forall j, k :: 0 <= j < k < |items| ==> SequenceAt(items, j) < SequenceAt(items, k))
  }

  function SequenceAt(items: seq<Item>, k: nat): nat {
    if k < |items| && items[k].Arrived? && items[k].envelope.globalSequence.Some?
    then items[k].envelope.globalSequence.value else 0
  }

  /** On a fresh simulator, what was observed and what was dropped account for every number in between. */
  lemma {:induction false} NothingUnaccounted(c: Config, a: Attributions, items: seq<Item>, n: nat)
    requires Ascending(items) && 0 < n <= |items|
    ensures var end := After(c, Progress(None, a, ZERO, []), items, n);
            && end.last == Some(SequenceAt(items, n - 1)) && |end.decisions| == n
            && n + end.metrics.dropped == SequenceAt(items, n - 1) - SequenceAt(items, 0) + 1
  {
    var p := Progress(None, a, ZERO, []);
    if n == 1 {
      assert After(c, p, items, 0) == p;
    } else {
      NothingUnaccounted(c, a, items, n - 1);
      assert SequenceAt(items, n - 2) < SequenceAt(items, n - 1);
    }
  }

  // ---- what is lost ----

  /** The last sequence number among the first `n` items, or else the one before them. */
  function LastSeen(last: Option<nat>, items: seq<Item>, n: nat): Option<nat>
    requires n <= |items|
  {
    if n == 0 then last
    else if items[n - 1].Arrived? && items[n - 1].envelope.globalSequence.Some?
    then items[n - 1].envelope.globalSequence
    else LastSeen(last, items, n - 1)
  }

  /** What the item at `k` says is missing: the losses it reports, or the numbers skipped before it. */
  function Missing(last: Option<nat>, items: seq<Item>, k: nat): nat
    requires k < |items|
  {
    match items[k]
    case Lost(count) => count
    case SourceFailure => 0
    case Arrived(e, _) =>
      var before := LastSeen(last, items, k);
      if before.Some? && e.globalSequence.Some? && e.globalSequence.value > before.value + 1
      then e.globalSequence.value - before.value - 1 else 0
  }

  function AllMissing(last: Option<nat>, items: seq<Item>, n: nat): nat
    requires n <= |items|
  {
    if n == 0 then 0 else AllMissing(last, items, n - 1) + Missing(last, items, n - 1)
  }

  lemma {:induction false} HandlingDrops(c: Config, p: Progress, item: Item)
    ensures var q := Handled(c, p, item);
            match item
            case Lost(count) => q == p.(metrics := p.metrics.(dropped := SaturatingAdd(p.metrics.dropped, count)))
            case SourceFailure => q == p
            case Arrived(e, _) =>
              && q.last == (if e.globalSequence.Some? then e.globalSequence else p.last)
              && q.metrics.dropped
                 == if e.globalSequence.Some? && p.last.Some?
                    then SaturatingAdd(p.metrics.dropped, Gap(p.last.value, e.globalSequence.value))
                    else p.metrics.dropped
  {
  }

  /** Everything missing is counted, up to where the counter stops. */
  lemma {:induction false} DroppedExactly(c: Config, last: Option<nat>, a: Attributions, items: seq<Item>, n: nat)
    requires n <= |items|
    ensures var end, missing := After(c, Progress(last, a, ZERO, []), items, n), AllMissing(last, items, n);
            && end.last == LastSeen(last, items, n)
            && end.metrics.dropped == if missing < U64_LIMIT then missing else U64_LIMIT - 1
  {
    if n > 0 {
      DroppedExactly(c, last, a, items, n - 1);
      HandlingDrops(c, After(c, Progress(last, a, ZERO, []), items, n - 1), items[n - 1]);
    }
  }

  // ---- a simulation is a run of the lane ----

  /** The event of an item, at the time it is processed. */
  function StepOf(item: Item): LaneStep
    requires item.Arrived?
  {
    var at := item.envelope.observedAt + item.delay;
    Event(item.envelope, if at < U64_LIMIT then at else U64_LIMIT - 1)
  }

  function StepsOf(items: seq<Item>, n: nat): seq<LaneStep>
    requires n <= |items|
  {
    if n == 0 then []
    else StepsOf(items, n - 1) + if items[n - 1].Arrived? then [StepOf(items[n - 1])] else []
  }

  lemma {:induction false} HandlingSteps(c: Config, p: Progress, item: Item)
    ensures var q := Handled(c, p, item);
            if item.Arrived? then
              && q.attributions == AfterStep(c, p.attributions, StepOf(item))
              && q.decisions == p.decisions + [Evaluate(c, p.attributions, item.envelope, StepOf(item).processedAt)]
            else q.attributions == p.attributions && q.decisions == p.decisions
  {
  }

  /** The lane answers the step at `i` with this decision. */
  ghost predicate AnswersAt(c: Config, states: seq<Attributions>, steps: seq<LaneStep>, i: nat, x: EndpointDecision)
    requires i < |steps| < |states|
  {
    steps[i].Event? && x == Evaluate(c, states[i], steps[i].envelope, steps[i].processedAt)
  }

  /** The decisions are the lane's answers to the steps from `d` on. */
  ghost predicate Answers(c: Config, states: seq<Attributions>, steps: seq<LaneStep>, d: nat,
                          ds: seq<EndpointDecision>) {
    && |steps| == d + |ds| && |states| == |steps| + 1
    && forall k :: 0 <= k < |ds| ==> AnswersAt(c, states, steps, d + k, ds[k])
  }

  lemma {:induction false} LaneRunExtends(c: Config, states: seq<Attributions>, steps: seq<LaneStep>, d: nat,
                                          ds: seq<EndpointDecision>, step: LaneStep)
    requires IsLaneRun(c, states, steps) && Answers(c, states, steps, d, ds) && step.Event?
    ensures var a := states[|steps|];
            && IsLaneRun(c, states + [AfterStep(c, a, step)], steps + [step])
            && Answers(c, states + [AfterStep(c, a, step)], steps + [step], d,
                       ds + [Evaluate(c, a, step.envelope, step.processedAt)])
  {
    var more, later := states + [AfterStep(c, states[|steps|], step)], steps + [step];
    forall k | 0 <= k < |later| ensures more[k + 1] == AfterStep(c, more[k], later[k]) {
      if k < |steps| { assert later[k] == steps[k] && more[k] == states[k] && more[k + 1] == states[k + 1]; }
    }
    var all := ds + [Evaluate(c, states[|steps|], step.envelope, step.processedAt)];
    forall k | 0 <= k < |all| ensures AnswersAt(c, more, later, d + k, all[k]) {
      if k < |ds| { assert AnswersAt(c, states, steps, d + k, ds[k]); }
    }
  }

  /** A simulation continues the run of the lane it starts from, and reports the lane's own answers. */
  lemma {:induction false} SimulationIsLaneRun(c: Config, states: seq<Attributions>, steps: seq<LaneStep>,
                                               last: Option<nat>, items: seq<Item>, n: nat)
    returns (all: seq<Attributions>)
    requires IsLaneRun(c, states, steps) && n <= |items|
    ensures var end := After(c, Progress(last, states[|steps|], ZERO, []), items, n);
            && states <= all && IsLaneRun(c, all, steps + StepsOf(items, n))
            && all[|steps + StepsOf(items, n)|] == end.attributions
            && Answers(c, all, steps + StepsOf(items, n), |steps|, end.decisions)
  {
    if n == 0 {
      all := states;
      assert steps + StepsOf(items, n) == steps;
    } else {
      all := SimulationIsLaneRun(c, states, steps, last, items, n - 1);
      var before := After(c, Progress(last, states[|steps|], ZERO, []), items, n - 1);
      HandlingSteps(c, before, items[n - 1]);
      if items[n - 1].Arrived? {
        var step, sofar := StepOf(items[n - 1]), steps + StepsOf(items, n - 1);
        LaneRunExtends(c, all, sofar, |steps|, before.decisions, step);
        all := all + [AfterStep(c, before.attributions, step)];
        assert steps + StepsOf(items, n) == sofar + [step];
      } else {
        assert steps + StepsOf(items, n) == steps + StepsOf(items, n - 1);
      }
    }
  }
}
