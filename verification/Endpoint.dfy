/** The endpoint fast path: what one event is answered, given who the acting process belongs to. */
module Endpoint {
  import opened Json
  import opened Text
  import Utf8

  const MAX_SESSIONS := 1_024
  const MAX_ATTRIBUTIONS := 16_384
  const MAX_WORKSPACES := 16
  const MAX_EXECUTABLES := 256
  const MAX_PROTECTED := 128
  const MAX_PATH_BYTES := 16 * 1024
  const MAX_SESSION_ID_BYTES := 128
  const OPEN_KNOWN_FLAGS: bv32 := 7

  /** A 32-byte process token, read as a number; zero identifies nothing. */
  type ProcessKey = nat

  datatype EndpointPath = EndpointPath(value: string, truncated: bool)

  datatype Operation =
    | AuthExec(target: ProcessKey, executable: EndpointPath)
    | AuthOpen(file: EndpointPath, flags: bv32)
    | AuthCreate(destination: EndpointPath)
    | AuthRename(source: EndpointPath, renamed: EndpointPath)
    | AuthUnlink(unlinked: EndpointPath)
    | NotifyFork(child: ProcessKey)
    | NotifyExit

  /** Times and sequences are 64-bit unsigned numbers. */
  datatype Envelope = Envelope(observedAt: nat, deadline: Option<nat>, globalSequence: Option<nat>,
                               actor: ProcessKey, operation: Operation)

  datatype Verdict = Allow | Deny | Observe

  datatype Response = Auth(allow: bool) | OpenFlags(authorized: bv32) | NoResponse

  datatype Reason =
    | UnmanagedProcess | NotificationOnly | PermitExactExecutable | DenyExecutable | PermitWorkspacePath
    | DenyOutsideWorkspace | DenyProtectedPath | DenyTruncatedPath | DenyMalformedPath | DenyUnknownOpenFlags
    | DenyMalformedProcessIdentity | DenyMissingSessionPolicy | DenyDeadlineGuard

  datatype EndpointDecision = EndpointDecision(verdict: Verdict, response: Response, reason: Reason,
                                               session: Option<string>,
                                               latency: nat, remaining: Option<nat>)

  datatype Policy = Policy(session: string, workspaceRoots: seq<string>, executables: set<string>)

  /** What is fixed for a lane. */
  datatype Config = Config(sessions: map<string, Policy>, protectedPrefixes: seq<string>, margin: nat)

  type Attributions = map<ProcessKey, string>

  predicate IsU64(n: nat) { n < U64_LIMIT }

  predicate Timely(e: Envelope) {
    && IsU64(e.observedAt) && (e.deadline.Some? ==> IsU64(e.deadline.value))
    && (e.globalSequence.Some? ==> IsU64(e.globalSequence.value))
  }

  function SaturatingAdd(a: nat, b: nat): (r: nat)
    ensures IsU64(r)
  {
    if a + b < U64_LIMIT then a + b else U64_LIMIT - 1
  }

  function SaturatingSub(a: nat, b: nat): nat { if a < b then 0 else a - b }

  predicate IsAuthorization(op: Operation) { !op.NotifyFork? && !op.NotifyExit? }

  // ---- paths ----

  predicate IsForwardSlash(c: char) { c == '/' }

  /** The components of an absolute path: empty ones and single dots do not count. */
  function Names(parts: seq<string>): seq<string> {
    if parts == [] then []
    else (if parts[0] == "" || parts[0] == "." then [] else [parts[0]]) + Names(parts[1..])
  }

  function NamesOf(path: string): seq<string> { Names(Split(IsForwardSlash, path)) }

  predicate WellFormed(path: string) {
    && path != "" && |Utf8.Encode(path)| <= MAX_PATH_BYTES && '\0' !in path && path[0] == '/'
    && ".." !in NamesOf(path)
  }

  /** Component by component; both paths are absolute. */
  predicate IsUnder(path: string, root: string) { NamesOf(root) <= NamesOf(path) }

  predicate UnderAny(path: string, roots: seq<string>) {
    exists k :: 0 <= k < |roots| && IsUnder(path, roots[k])
  }

  datatype PathStatus = Usable | Protected | Truncated | Malformed

  function StatusOf(path: EndpointPath, protectedPrefixes: seq<string>): PathStatus {
    if path.truncated then Truncated
    else if !WellFormed(path.value) then Malformed
    else if UnderAny(path.value, protectedPrefixes) then Protected
    else Usable
  }

  function DenialOf(s: PathStatus): Reason {
    match s
    case Truncated => DenyTruncatedPath
    case Malformed => DenyMalformedPath
    case _ => DenyProtectedPath
  }

  function EvaluateWorkspacePath(path: EndpointPath, p: Policy, protectedPrefixes: seq<string>): (bool, Reason) {
    var s := StatusOf(path, protectedPrefixes);
    if !s.Usable? then (false, DenialOf(s))
    else if UnderAny(path.value, p.workspaceRoots) then (true, PermitWorkspacePath)
    else (false, DenyOutsideWorkspace)
  }

  // ---- one event ----

  function ResponseFor(op: Operation, allow: bool): Response {
    if op.AuthOpen? then OpenFlags(if allow then op.flags else 0)
    else if IsAuthorization(op) then Auth(allow)
    else NoResponse
  }

  predicate KnownFlags(flags: bv32) { flags != 0 && flags & !OPEN_KNOWN_FLAGS == 0 }

  function EvaluateOperation(op: Operation, p: Policy, c: Config): (bool, Reason) {
    match op
    case AuthExec(target, executable) =>
      if target == 0 then (false, DenyMalformedProcessIdentity)
      else
        var s := StatusOf(executable, c.protectedPrefixes);
        if !s.Usable? then (false, DenialOf(s))
        else if executable.value in p.executables then (true, PermitExactExecutable)
        else (false, DenyExecutable)
    case AuthOpen(file, flags) =>
      if !KnownFlags(flags) then (false, DenyUnknownOpenFlags)
      else EvaluateWorkspacePath(file, p, c.protectedPrefixes)
    case AuthCreate(destination) => EvaluateWorkspacePath(destination, p, c.protectedPrefixes)
    case AuthRename(source, destination) =>
      var s := EvaluateWorkspacePath(source, p, c.protectedPrefixes);
      var d := EvaluateWorkspacePath(destination, p, c.protectedPrefixes);
      if s.0 && d.0 then (true, PermitWorkspacePath) else if !s.0 then s else d
    case AuthUnlink(target) => EvaluateWorkspacePath(target, p, c.protectedPrefixes)
    case _ => (false, NotificationOnly)
  }

  function Evaluate(c: Config, a: Attributions, e: Envelope, processedAt: nat): EndpointDecision {
    var latency := SaturatingSub(processedAt, e.observedAt);
    var remaining := if e.deadline.None? then None else Some(SaturatingSub(e.deadline.value, processedAt));
    var session := if e.actor in a then Some(a[e.actor]) else None;
    if !IsAuthorization(e.operation) then
      EndpointDecision(Observe, NoResponse, NotificationOnly, session, latency, remaining)
    else if session.None? then
      EndpointDecision(Allow, ResponseFor(e.operation, true), UnmanagedProcess, None, latency, remaining)
    else if session.value !in c.sessions then
      EndpointDecision(Deny, ResponseFor(e.operation, false), DenyMissingSessionPolicy, session, latency, remaining)
    else if e.deadline.None? || SaturatingAdd(processedAt, c.margin) >= e.deadline.value then
      EndpointDecision(Deny, ResponseFor(e.operation, false), DenyDeadlineGuard, session, latency, remaining)
    else
      var r := EvaluateOperation(e.operation, c.sessions[session.value], c);
      EndpointDecision(if r.0 then Allow else Deny, ResponseFor(e.operation, r.0), r.1, session, latency, remaining)
  }

  // ---- what an answer means ----

  /** Complete, well-formed, and outside every protected prefix. */
  predicate Open(path: EndpointPath, c: Config) {
    !path.truncated && WellFormed(path.value) && !UnderAny(path.value, c.protectedPrefixes)
  }

  predicate InWorkspace(path: EndpointPath, p: Policy, c: Config) {
    Open(path, c) && UnderAny(path.value, p.workspaceRoots)
  }

  /** Everything the policy asks of an operation, without reference to how it is evaluated. */
  predicate Permitted(op: Operation, p: Policy, c: Config) {
    match op
    case AuthExec(target, executable) => target != 0 && Open(executable, c) && executable.value in p.executables
    case AuthOpen(file, flags) => KnownFlags(flags) && InWorkspace(file, p, c)
    case AuthCreate(destination) => InWorkspace(destination, p, c)
    case AuthRename(source, destination) => InWorkspace(source, p, c) && InWorkspace(destination, p, c)
    case AuthUnlink(target) => InWorkspace(target, p, c)
    case _ => false
  }

  /** The known flags are the three lowest bits. */
  lemma {:induction false} KnownFlagsExactly(flags: bv32)
    ensures KnownFlags(flags) <==> 0 < flags < 8
  {
  }

  lemma {:induction false} OperationExactly(op: Operation, p: Policy, c: Config)
    ensures EvaluateOperation(op, p, c).0 <==> Permitted(op, p, c)
  {
  }

  /** In exact arithmetic, despite saturation. */
  lemma {:induction false} GuardIsExact(processedAt: nat, margin: nat, deadline: nat)
    requires IsU64(deadline)
    ensures SaturatingAdd(processedAt, margin) >= deadline <==> processedAt + margin >= deadline
  {
  }

  /**
   An attributed process is allowed exactly the permitted operations, with the margin left
   before a present deadline.
   */
  lemma {:induction false} AllowExactly(c: Config, a: Attributions, e: Envelope, processedAt: nat)
    requires e.actor in a && a[e.actor] in c.sessions && Timely(e)
    ensures Evaluate(c, a, e, processedAt).verdict.Allow? <==>
            && e.deadline.Some? && processedAt + c.margin < e.deadline.value
            && Permitted(e.operation, c.sessions[a[e.actor]], c)
  {
    OperationExactly(e.operation, c.sessions[a[e.actor]], c);
    if e.deadline.Some? {
      GuardIsExact(processedAt, c.margin, e.deadline.value);
    }
  }

  lemma {:induction false} AnswersOneWay(c: Config, a: Attributions, e: Envelope, processedAt: nat)
    ensures var d := Evaluate(c, a, e, processedAt);
            && (d.verdict.Observe? <==> !IsAuthorization(e.operation))
            && d.response == ResponseFor(e.operation, d.verdict.Allow?)
  {
  }

  /** The answer sent to the system says what was decided: nothing is granted on a denial. */
  lemma {:induction false} ResponseSaysVerdict(c: Config, a: Attributions, e: Envelope, processedAt: nat)
    ensures var d := Evaluate(c, a, e, processedAt);
            && (d.response.NoResponse? <==> d.verdict.Observe?)
            && (d.verdict.Observe? <==> !IsAuthorization(e.operation))
            && (d.response.Auth? ==> (d.response.allow <==> d.verdict.Allow?))
            && (d.response.OpenFlags? <==> e.operation.AuthOpen?)
            && (e.operation.AuthOpen? ==> d.response.authorized == if d.verdict.Allow? then e.operation.flags else 0)
  {
    AnswersOneWay(c, a, e, processedAt);
  }

  // ---- why an answer is given ----

  /** The reason given for a path: the first thing wrong with it. */
  function PathReason(path: EndpointPath, p: Policy, c: Config): Reason {
    if path.truncated then DenyTruncatedPath
    else if !WellFormed(path.value) then DenyMalformedPath
    else if !Open(path, c) then DenyProtectedPath
    else if !InWorkspace(path, p, c) then DenyOutsideWorkspace
    else PermitWorkspacePath
  }

  /** The reason given for an operation: the first thing wrong with it, a rename's source before its destination. */
  function ReasonFor(op: Operation, p: Policy, c: Config): Reason {
    match op
    case AuthExec(target, executable) =>
      if target == 0 then DenyMalformedProcessIdentity
      else if !Open(executable, c) then PathReason(executable, p, c)
      else if executable.value !in p.executables then DenyExecutable
      else PermitExactExecutable
    case AuthOpen(file, flags) => if KnownFlags(flags) then PathReason(file, p, c) else DenyUnknownOpenFlags
    case AuthCreate(destination) => PathReason(destination, p, c)
    case AuthRename(source, destination) =>
      if InWorkspace(source, p, c) then PathReason(destination, p, c) else PathReason(source, p, c)
    case AuthUnlink(target) => PathReason(target, p, c)
    case _ => NotificationOnly
  }

  lemma {:induction false} PathEvaluates(path: EndpointPath, p: Policy, c: Config)
    ensures EvaluateWorkspacePath(path, p, c.protectedPrefixes) == (InWorkspace(path, p, c), PathReason(path, p, c))
  {
  }

  lemma {:induction false} ExecReason(op: Operation, p: Policy, c: Config)
    requires op.AuthExec?
    ensures EvaluateOperation(op, p, c).1 == ReasonFor(op, p, c)
  {
  }

  lemma {:induction false} WorkspaceReason(op: Operation, p: Policy, c: Config)
    requires op.AuthCreate? || op.AuthRename? || op.AuthUnlink?
    ensures EvaluateOperation(op, p, c).1 == ReasonFor(op, p, c)
  {
    match op
    case AuthCreate(destination) => PathEvaluates(destination, p, c);
    case AuthRename(source, destination) =>
      PathEvaluates(source, p, c);
      PathEvaluates(destination, p, c);
    case AuthUnlink(target) => PathEvaluates(target, p, c);
  }

  /** Every operation is answered with its reason. */
  lemma {:induction false} OperationReason(op: Operation, p: Policy, c: Config)
    ensures EvaluateOperation(op, p, c).1 == ReasonFor(op, p, c)
  {
    if op.AuthOpen? {
      PathEvaluates(op.file, p, c);
    } else if op.AuthExec? {
      ExecReason(op, p, c);
    } else if IsAuthorization(op) {
      WorkspaceReason(op, p, c);
    }
  }

  /** Every answer: for whom, why, how late and how much time was left. */
  lemma {:induction false} AnswerExactly(c: Config, a: Attributions, e: Envelope, processedAt: nat)
    requires Timely(e)
    ensures var d := Evaluate(c, a, e, processedAt);
            && d.session == (if e.actor in a then Some(a[e.actor]) else None)
            && (d.latency as int == if processedAt < e.observedAt then 0 else processedAt - e.observedAt)
            && (d.remaining.Some? <==> e.deadline.Some?)
            && (e.deadline.Some? ==>
                  var left := e.deadline.value - processedAt;
                  d.remaining.value as int == if left < 0 then 0 else left)
            && (IsAuthorization(e.operation) ==>
                  && (d.reason.UnmanagedProcess? <==> e.actor !in a)
                  && (e.actor !in a ==> d.verdict.Allow?)
                  && (e.actor in a && a[e.actor] !in c.sessions ==>
                       d.verdict.Deny? && d.reason.DenyMissingSessionPolicy?)
                  && (e.actor in a && a[e.actor] in c.sessions ==>
                       var late := e.deadline.None? || processedAt + c.margin >= e.deadline.value;
                       d.reason == if late then DenyDeadlineGuard
                                   else ReasonFor(e.operation, c.sessions[a[e.actor]], c)))
  {
    if e.deadline.Some? {
      GuardIsExact(processedAt, c.margin, e.deadline.value);
    }
    if e.actor in a && a[e.actor] in c.sessions {
      OperationReason(e.operation, c.sessions[a[e.actor]], c);
    }
  }
}
