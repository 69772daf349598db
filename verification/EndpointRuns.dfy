/** Attribution over whole runs: which processes belong to a session, and why. */
module EndpointRuns {
  import opened Json
  import opened Endpoint
  import Utf8

  // ---- attribution ----

  function Without(a: Attributions, key: ProcessKey): Attributions {
    map k | k in a && k != key :: a[k]
  }

  predicate CanBind(c: Config, a: Attributions, key: ProcessKey, session: string) {
    && key != 0 && session in c.sessions
    && if key in a then a[key] == session else |a| < MAX_ATTRIBUTIONS
  }

  function AfterBind(c: Config, a: Attributions, key: ProcessKey, session: string): Attributions {
    if CanBind(c, a, key, session) then a[key := session] else a
  }

  /** An allowed exec hands its attribution on; a fork copies it while there is room; an exit drops it. */
  function AfterEvent(a: Attributions, e: Envelope, d: EndpointDecision): Attributions {
    match e.operation
    case AuthExec(target, _) =>
      if d.verdict.Allow? && e.actor in a then Without(a, e.actor)[target := a[e.actor]] else a
    case NotifyFork(child) =>
      if child != 0 && e.actor in a && (|a| < MAX_ATTRIBUTIONS || child in a) then a[child := a[e.actor]] else a
    case NotifyExit => Without(a, e.actor)
    case _ => a
  }

  // ---- the state object ----

  predicate ValidPolicy(p: Policy) {
    && 0 < |p.session| && |Utf8.Encode(p.session)| <= MAX_SESSION_ID_BYTES
    && 0 < |p.workspaceRoots| <= MAX_WORKSPACES && |p.executables| <= MAX_EXECUTABLES
    && (forall k :: 0 <= k < |p.workspaceRoots| ==> WellFormed(p.workspaceRoots[k]))
    && (forall x :: x in p.executables ==> WellFormed(x))
  }

  /** The first `n` policies are valid, and no session comes twice. */
  ghost predicate Sound(policies: seq<Policy>, n: nat)
    requires n <= |policies|
  {
    && (forall k :: 0 <= k < n ==> ValidPolicy(policies[k]))
    && (forall j, k :: 0 <= j < k < n ==> policies[j].session != policies[k].session)
  }

  ghost predicate Acceptable(policies: seq<Policy>, prefixes: seq<string>) {
    && |policies| <= MAX_SESSIONS && |prefixes| <= MAX_PROTECTED
    && (forall k :: 0 <= k < |prefixes| ==> WellFormed(prefixes[k]))
    && Sound(policies, |policies|)
  }

  ghost predicate Lists(policies: seq<Policy>, n: nat, session: string)
    requires n <= |policies|
  {
    exists k :: 0 <= k < n && policies[k].session == session
  }

  /** Each policy, found under its own session, and nothing else. */
  ghost predicate IsTableOf(sessions: map<string, Policy>, policies: seq<Policy>, n: nat)
    requires n <= |policies|
  {
    && (forall k :: 0 <= k < n ==> policies[k].session in sessions && sessions[policies[k].session] == policies[k])
    && (forall s :: s in sessions ==> Lists(policies, n, s))
  }

  lemma {:induction false} SoundGrows(sessions: map<string, Policy>, policies: seq<Policy>, n: nat)
    requires n < |policies| && IsTableOf(sessions, policies, n) && Sound(policies, n)
    ensures Sound(policies, n + 1) <==> ValidPolicy(policies[n]) && policies[n].session !in sessions
  {
    if policies[n].session in sessions {
      assert Lists(policies, n, policies[n].session);
    }
  }

  method SessionTable(policies: seq<Policy>) returns (r: Option<map<string, Policy>>)
    ensures r.Some? <==> Sound(policies, |policies|)
    ensures r.Some? ==> IsTableOf(r.value, policies, |policies|)
  {
    var sessions: map<string, Policy> := map[];
    for k := 0 to |policies|
      invariant IsTableOf(sessions, policies, k) && Sound(policies, k)
    {
      SoundGrows(sessions, policies, k);
      if !ValidPolicy(policies[k]) || policies[k].session in sessions {
        return None;
      }
      sessions := sessions[policies[k].session := policies[k]];
    }
    return Some(sessions);
  }

  /** Everything the lane relies on. */
  predicate Within(c: Config, a: Attributions) {
    && |a| <= MAX_ATTRIBUTIONS && 0 !in a
    && forall k :: k in a ==> a[k] in c.sessions
  }

  class FastPathState {
    const config: Config
    var attributions: Attributions

    ghost predicate Valid()
      reads this
    {
      Within(config, attributions)
    }

    constructor (config: Config)
      ensures this.config == config && attributions == map[] && Valid()
    {
      this.config, attributions := config, map[];
    }

    method BindRoot(key: ProcessKey, session: string) returns (ok: bool)
      requires Valid()
      modifies this
      ensures Valid() && (ok <==> CanBind(config, old(attributions), key, session))
      ensures attributions == AfterBind(config, old(attributions), key, session)
    {
      BindKeeps(config, attributions, key, session);
      if key == 0 || session !in config.sessions {
        return false;
      }
      if key in attributions {
        ok := attributions[key] == session;
        assert ok ==> attributions[key := session] == attributions;
        return;
      }
      if |attributions| >= MAX_ATTRIBUTIONS {
        return false;
      }
      attributions := attributions[key := session];
      return true;
    }

    method ApplySuccessfulTransition(e: Envelope, d: EndpointDecision)
      requires Valid()
      requires e.operation.AuthExec? && d.verdict.Allow? && e.actor in attributions ==> e.operation.target != 0
      modifies this
      ensures Valid() && attributions == AfterEvent(old(attributions), e, d)
    {
      EventKeeps(config, attributions, e, d);
      match e.operation
      case AuthExec(target, _) =>
        if d.verdict.Allow? && e.actor in attributions {
          var session := attributions[e.actor];
          attributions := Without(attributions, e.actor);
          attributions := attributions[target := session];
        }
      case NotifyFork(child) =>
        if child != 0 && e.actor in attributions {
          if |attributions| < MAX_ATTRIBUTIONS || child in attributions {
            attributions := attributions[child := attributions[e.actor]];
          }
        }
      case NotifyExit =>
        attributions := Without(attributions, e.actor);
      case _ =>
    }
  }

  method NewState(policies: seq<Policy>, prefixes: seq<string>, margin: nat) returns (r: Option<FastPathState>)
    ensures r.Some? <==> Acceptable(policies, prefixes)
    ensures r.Some? ==> && fresh(r.value) && r.value.Valid() && r.value.attributions == map[]
                        && r.value.config.protectedPrefixes == prefixes && r.value.config.margin == margin
                        && IsTableOf(r.value.config.sessions, policies, |policies|)
  {
    if |policies| > MAX_SESSIONS || |prefixes| > MAX_PROTECTED {
      return None;
    }
    if exists k :: 0 <= k < |prefixes| && !WellFormed(prefixes[k]) {
      return None;
    }
    var sessions := SessionTable(policies);
    if sessions.None? {
      return None;
    }
    var state := new FastPathState(Config(sessions.value, prefixes, margin));
    return Some(state);
  }

  // ---- sizes ----

  lemma {:induction false} DroppedIsSmaller(a: Attributions, key: ProcessKey)
    ensures |Without(a, key)| == |a| - if key in a then 1 else 0
  {
    assert Without(a, key).Keys == a.Keys - {key};
    assert |Without(a, key)| == |Without(a, key).Keys| && |a| == |a.Keys|;
  }

  lemma {:induction false} AddedIsLarger(a: Attributions, key: ProcessKey, session: string)
    ensures |a[key := session]| == |a| + if key in a then 0 else 1
  {
    assert a[key := session].Keys == a.Keys + {key};
    assert |a[key := session]| == |a[key := session].Keys| && |a| == |a.Keys|;
  }

  lemma {:induction false} BindKeeps(c: Config, a: Attributions, key: ProcessKey, session: string)
    requires Within(c, a)
    ensures Within(c, AfterBind(c, a, key, session))
  {
    AddedIsLarger(a, key, session);
  }

  lemma {:induction false} EventKeeps(c: Config, a: Attributions, e: Envelope, d: EndpointDecision)
    requires Within(c, a)
    requires e.operation.AuthExec? && d.verdict.Allow? && e.actor in a ==> e.operation.target != 0
    ensures Within(c, AfterEvent(a, e, d))
  {
    DroppedIsSmaller(a, e.actor);
    match e.operation
    case AuthExec(target, _) => if e.actor in a { AddedIsLarger(Without(a, e.actor), target, a[e.actor]); }
    case NotifyFork(child) => if e.actor in a { AddedIsLarger(a, child, a[e.actor]); }
    case _ =>
  }

  // ---- runs ----

  datatype LaneStep =
    | Bind(key: ProcessKey, session: string)
    | Event(envelope: Envelope, processedAt: nat)

  function AfterStep(c: Config, a: Attributions, step: LaneStep): Attributions {
    match step
    case Bind(key, session) => AfterBind(c, a, key, session)
    case Event(e, at) => AfterEvent(a, e, Evaluate(c, a, e, at))
  }

  ghost predicate IsLaneRun(c: Config, states: seq<Attributions>, steps: seq<LaneStep>) {
    && |states| == |steps| + 1 && states[0] == map[]
    && forall k {:trigger steps[k]} :: 0 <= k < |steps| ==> states[k + 1] == AfterStep(c, states[k], steps[k])
  }

  lemma {:induction false} StepKeeps(c: Config, a: Attributions, step: LaneStep)
    requires Within(c, a)
    ensures Within(c, AfterStep(c, a, step))
  {
    match step
    case Bind(key, session) => BindKeeps(c, a, key, session);
    case Event(e, at) =>
      if e.actor in a { OperationExactly(e.operation, c.sessions[a[e.actor]], c); }
      EventKeeps(c, a, e, Evaluate(c, a, e, at));
  }

  lemma {:induction false} RunStaysWithin(c: Config, states: seq<Attributions>, steps: seq<LaneStep>, n: nat)
    requires IsLaneRun(c, states, steps) && n < |states|
    ensures Within(c, states[n])
  {
    if n > 0 {
      RunStaysWithin(c, states, steps, n - 1);
      StepKeeps(c, states[n - 1], steps[n - 1]);
    }
  }

  /**
   In every state of every run the table is bounded, holds no zero key and names only known
   sessions, so that no event ever finds its session without a policy.
   */
  lemma {:induction false} PolicyIsNeverMissing(c: Config, states: seq<Attributions>, steps: seq<LaneStep>, n: nat,
                                                e: Envelope, at: nat)
    requires IsLaneRun(c, states, steps) && n < |states|
    ensures |states[n]| <= MAX_ATTRIBUTIONS && 0 !in states[n]
    ensures !Evaluate(c, states[n], e, at).reason.DenyMissingSessionPolicy?
  {
    RunStaysWithin(c, states, steps, n);
    if IsAuthorization(e.operation) && e.actor in states[n] {
      ReasonsOfOperations(e.operation, c.sessions[states[n][e.actor]], c);
    }
  }

  lemma {:induction false} ReasonsOfOperations(op: Operation, p: Policy, c: Config)
    ensures !EvaluateOperation(op, p, c).1.DenyMissingSessionPolicy?
  {
  }

  /** The limits a policy has to keep, in numbers. */
  lemma {:induction false} PolicyLimits(p: Policy)
    ensures ValidPolicy(p) <==>
            && p.session != "" && |Utf8.Encode(p.session)| <= 128
            && p.workspaceRoots != [] && |p.workspaceRoots| <= 16 && |p.executables| <= 256
            && (forall root :: root in p.workspaceRoots ==> WellFormed(root))
            && (forall path :: path in p.executables ==> WellFormed(path))
  {
    if forall root :: root in p.workspaceRoots ==> WellFormed(root) {
      forall k | 0 <= k < |p.workspaceRoots| ensures WellFormed(p.workspaceRoots[k]) {
        assert p.workspaceRoots[k] in p.workspaceRoots;
      }
    }
  }

  // ---- what an event does to each process ----

  /** The event hands its actor's attribution to `key`: an exec that was allowed, or a fork with room for the child. */
  predicate HandsTo(a: Attributions, e: Envelope, d: EndpointDecision, key: ProcessKey) {
    && e.actor in a
    && match e.operation
       case AuthExec(target, _) => key == target && d.verdict.Allow?
       case NotifyFork(child) => key == child && child != 0 && (child in a || |a| < MAX_ATTRIBUTIONS)
       case _ => false
  }

  /** The event ends what `key` had: it exited, or it was replaced by the program it was allowed to run. */
  predicate Leaves(e: Envelope, d: EndpointDecision, key: ProcessKey) {
    key == e.actor && (e.operation.NotifyExit? || (e.operation.AuthExec? && d.verdict.Allow?))
  }

  /** The attribution of `key`, if it has one. */
  function SessionOf(a: Attributions, key: ProcessKey): Option<string> {
    if key in a then Some(a[key]) else None
  }

  /**
   What each event does to each process: whoever is handed the actor's attribution has it;
   whoever leaves has none; everyone else keeps theirs.
   */
  lemma {:induction false} EventExactly(a: Attributions, e: Envelope, d: EndpointDecision, key: ProcessKey)
    ensures SessionOf(AfterEvent(a, e, d), key)
            == if HandsTo(a, e, d, key) then SessionOf(a, e.actor)
               else if Leaves(e, d, key) then None
               else SessionOf(a, key)
  {
  }

  /** What a binding does: a known session takes a new process while there is room, and moves none. */
  lemma {:induction false} BindExactly(c: Config, a: Attributions, key: ProcessKey, session: string, k: ProcessKey)
    ensures var binds := key != 0 && session in c.sessions && key !in a && |a| < 16_384;
            SessionOf(AfterBind(c, a, key, session), k) == if k == key && binds then Some(session) else SessionOf(a, k)
    ensures CanBind(c, a, key, session) <==>
            key != 0 && session in c.sessions && SessionOf(AfterBind(c, a, key, session), key) == Some(session)
  {
  }

  // ---- why a process belongs to a session ----

  /** How a process came by its attribution: step by step back to the binding of a root. */
  datatype Origin =
    | Root(key: ProcessKey)
    | Kept(before: Origin)
    | From(parent: Origin, key: ProcessKey)

  function HolderOf(o: Origin): ProcessKey {
    match o
    case Root(key) => key
    case Kept(before) => HolderOf(before)
    case From(_, key) => key
  }

  /** The step leaves the process alone: it neither leaves nor is handed another's attribution. */
  predicate Undisturbed(c: Config, a: Attributions, step: LaneStep, key: ProcessKey) {
    step.Event? ==>
      var e, d := step.envelope, Evaluate(c, a, step.envelope, step.processedAt);
      !HandsTo(a, e, d, key) && !Leaves(e, d, key)
  }

  /** The step hands what `parent` has to `child`. */
  predicate Descends(c: Config, a: Attributions, step: LaneStep, parent: ProcessKey, child: ProcessKey) {
    step.Event? && step.envelope.actor == parent
    && HandsTo(a, step.envelope, Evaluate(c, a, step.envelope, step.processedAt), child)
  }

  /** After `n` steps the origin's holder descends from a root bound to the session, and nothing came between. */
  ghost predicate Explains(c: Config, states: seq<Attributions>, steps: seq<LaneStep>, n: nat, o: Origin,
                           session: string)
    requires IsLaneRun(c, states, steps) && n < |states|
    decreases o
  {
    && n > 0
    && match o
       case Root(key) => steps[n - 1] == Bind(key, session) && CanBind(c, states[n - 1], key, session)
       case Kept(before) =>
         && Undisturbed(c, states[n - 1], steps[n - 1], HolderOf(before))
         && Explains(c, states, steps, n - 1, before, session)
       case From(parent, key) =>
         && Descends(c, states[n - 1], steps[n - 1], HolderOf(parent), key)
         && Explains(c, states, steps, n - 1, parent, session)
  }

  /** In every run, every attribution goes back through forks and allowed execs to a root bound to its session. */
  lemma {:induction false} AttributionHasOrigin(c: Config, states: seq<Attributions>, steps: seq<LaneStep>, n: nat,
                                                key: ProcessKey)
    returns (o: Origin)
    requires IsLaneRun(c, states, steps) && n < |states| && key in states[n]
    ensures HolderOf(o) == key && Explains(c, states, steps, n, o, states[n][key])
  {
    var a, step, session := states[n - 1], steps[n - 1], states[n][key];
    if step.Bind? {
      if key in a {
        var before := AttributionHasOrigin(c, states, steps, n - 1, key);
        o := Kept(before);
      } else {
        o := Root(key);
      }
    } else {
      var e, d := step.envelope, Evaluate(c, a, step.envelope, step.processedAt);
      EventExactly(a, e, d, key);
      if HandsTo(a, e, d, key) {
        var parent := AttributionHasOrigin(c, states, steps, n - 1, e.actor);
        o := From(parent, key);
      } else {
        var before := AttributionHasOrigin(c, states, steps, n - 1, key);
        o := Kept(before);
      }
    }
  }

  /** Conversely, whoever so descends from a bound root is attributed to the root's session. */
  lemma {:induction false} OriginIsAttributed(c: Config, states: seq<Attributions>, steps: seq<LaneStep>, n: nat,
                                              o: Origin, session: string)
    requires IsLaneRun(c, states, steps) && n < |states| && Explains(c, states, steps, n, o, session)
    ensures SessionOf(states[n], HolderOf(o)) == Some(session)
    decreases o
  {
    var a, step := states[n - 1], steps[n - 1];
    match o
    case Root(key) =>
    case Kept(before) =>
      OriginIsAttributed(c, states, steps, n - 1, before, session);
      if step.Event? {
        EventExactly(a, step.envelope, Evaluate(c, a, step.envelope, step.processedAt), HolderOf(before));
      }
    case From(parent, key) =>
      OriginIsAttributed(c, states, steps, n - 1, parent, session);
      EventExactly(a, step.envelope, Evaluate(c, a, step.envelope, step.processedAt), key);
  }

  /** Over every run: a process belongs to a session if and only if it descends from a root bound to it. */
  lemma {:induction false} AttributionExactly(c: Config, states: seq<Attributions>, steps: seq<LaneStep>, n: nat,
                                              key: ProcessKey, session: string)
    requires IsLaneRun(c, states, steps) && n < |states|
    ensures SessionOf(states[n], key) == Some(session) <==>
            exists o :: HolderOf(o) == key && Explains(c, states, steps, n, o, session)
  {
    if SessionOf(states[n], key) == Some(session) {
      var o := AttributionHasOrigin(c, states, steps, n, key);
    }
    if o: Origin :| HolderOf(o) == key && Explains(c, states, steps, n, o, session) {
      OriginIsAttributed(c, states, steps, n, o, session);
    }
  }
}
