/** Action requests, what their hash covers, and the two views of one: Core's and the gateway's. */
module Actions {
  import opened Json
  import opened ReadBack
  import opened CanonicalForm
  import opened ContentHashes
  import opened Capabilities
  import opened Approvals
  import opened Materials

  const SCHEMA_VERSION := "vigil.v1"

  datatype ActionRequest = ActionRequest(
    tenant: string, environment: string, agent: string, instance: string, session: string, principal: Principal,
    action: Action, approvalToken: Option<string>)

  function OperationOf(a: Action): string {
    match a
    case ToolCall(_, _, _, _, op, _, _) => if op.Some? then op.value else "invoke"
    case ModelCall(_, _, op) => if op.Some? then op.value else "invoke"
    case Network(verb, _, _, _) => Upper(verb)
    case File(op, _, _, _) => op
    case Shell(_, _, _, _) => "exec"
    case Database(_, _, _, _, op) => op
    case MemoryRead(_, _, _) => "read"
    case MemoryWrite(_, _, _, _) => "write"
    case AgentMessage(_, _) => "send"
    case Delegation(_, _, _, _) => "delegate"
  }

  function ToolOf(a: Action): Option<string> {
    if a.ToolCall? then Some(a.toolId) else None
  }

  /** The target Core binds. */
  function CoreTarget(a: Action): Option<string> {
    match a
    case ToolCall(_, _, _, _, _, _, target) => target
    case Network(_, url, _, _) => Some(url)
    case File(_, path, _, _) => Some(path)
    case Database(_, _, _, database, _) => database
    case _ => None
  }

  /** The target the gateway presents: none for a database. */
  function GatewayTarget(a: Action): Option<string> {
    match a
    case ToolCall(_, _, _, _, _, _, target) => target
    case Network(_, url, _, _) => Some(url)
    case File(_, path, _, _) => Some(path)
    case _ => None
  }

  predicate NamesDatabase(a: Action) { a.Database? && a.database.Some? }

  /** What the gateway checks a capability against. */
  function PresentedFrom(r: ActionRequest, hash: ContentHash): PresentedAction {
    PresentedAction(r.tenant, r.environment, r.agent, r.instance, r.session, r.principal.id,
                    KindOf(r.action), ToolOf(r.action), OperationOf(r.action), GatewayTarget(r.action), hash)
  }

  /** Claim fields that record where a decision came from and bind nothing. */
  datatype Provenance = Provenance(capabilityId: string, remitVersion: string, policyBundle: string,
                                   constraints: seq<Constraint>)

  function DraftClaims(r: ActionRequest, hash: ContentHash, approvalId: Option<string>, p: Provenance): Claims {
    Claims("", p.capabilityId, r.tenant, r.environment, r.agent, r.instance, r.session, r.principal.id,
           KindOf(r.action), ToolOf(r.action), OperationOf(r.action), CoreTarget(r.action), hash,
           p.remitVersion, p.policyBundle, approvalId, p.constraints, 0, 0, "", 1)
  }

  /** What is presented names the action: kind, operation, tool and target, kind by kind. */
  lemma {:induction false} PresentedNames(r: ActionRequest, hash: ContentHash)
    ensures var p, a := PresentedFrom(r, hash), r.action;
            && p.kind == KindOf(a) && p.actionHash == hash
            && (p.toolId.Some? <==> a.ToolCall?)
            && match a
               case ToolCall(_, _, toolId, _, op, _, target) =>
                 && p.toolId == Some(toolId) && p.target == target && (op.Some? ==> p.operation == op.value)
                 && (op.None? ==> p.operation == "invoke")
               case ModelCall(_, _, purpose) =>
                 p.target == None && (if purpose.Some? then p.operation == purpose.value else p.operation == "invoke")
               case Network(verb, url, _, _) => p.target == Some(url) && p.operation == Upper(verb)
               case File(op, path, _, _) => p.target == Some(path) && p.operation == op
               case Shell(_, _, _, _) => p.target == None && p.operation == "exec"
               case Database(_, _, _, _, op) => p.target == None && p.operation == op
               case MemoryRead(_, _, _) => p.target == None && p.operation == "read"
               case MemoryWrite(_, _, _, _) => p.target == None && p.operation == "write"
               case AgentMessage(_, _) => p.target == None && p.operation == "send"
               case Delegation(_, _, _, _) => p.target == None && p.operation == "delegate"
  {
  }

  /** A capability fits the request it was minted for, except when a database is named. */
  lemma {:induction false} FitsItsOwnRequest(r: ActionRequest, hash: ContentHash, approvalId: Option<string>,
                                             p: Provenance)
    ensures var c := DraftClaims(r, hash, approvalId, p);
            && (Bound(c) == PresentedFrom(r, hash) <==> !NamesDatabase(r.action))
            && (NamesDatabase(r.action) ==> Bound(c) == PresentedFrom(r, hash).(target := r.action.database))
            && c.approvalId == approvalId && c.remitVersion == p.remitVersion && c.policyBundle == p.policyBundle
            && c.constraints == p.constraints && c.capabilityId == p.capabilityId
  {
  }

  // ---- the action hash ----

  /** Whose action it is. */
  datatype Scope = Scope(tenant: string, environment: string, agent: string, session: string, principal: string)

  function ScopeOf(r: ActionRequest): Scope {
    Scope(r.tenant, r.environment, r.agent, r.session, r.principal.id)
  }

  function ProjectionOf(c: Scope, material: Value): Value {
    Obj([Entry("schema", Str(SCHEMA_VERSION)),
         Entry("tenant_id", Str(c.tenant)),
         Entry("environment_id", Str(c.environment)),
         Entry("agent_id", Str(c.agent)),
         Entry("session_id", Str(c.session)),
         Entry("principal_id", Str(c.principal)),
         Entry("action", material)])
  }

  function Projection(r: ActionRequest): Value {
    ProjectionOf(ScopeOf(r), Material(r.action))
  }

  function ActionHash(fc: FloatCodec, digest: string -> ContentHash, r: ActionRequest): Option<ContentHash> {
    if Renderable(fc, Projection(r)) then Some(digest(Canonical(fc, Projection(r)))) else None
  }

  ghost predicate SameAction(q: ActionRequest, r: ActionRequest) {
    ScopeOf(q) == ScopeOf(r) && SameMaterial(q.action, r.action)
  }

  lemma {:induction false} ProjectionIsValid(c: Scope, material: Value)
    requires Valid(material)
    ensures Valid(ProjectionOf(c, material))
  {
    assert |"schema"| == 6 && |"tenant_id"| == 9 && |"environment_id"| == 14 && |"agent_id"| == 8
           && |"session_id"| == 10 && |"principal_id"| == 12;
    assert "action"[0] == 'a' && "schema"[0] == 's';
  }

  lemma {:induction false} FieldsAgree(c: Scope, m: Value, d: Scope, n: Value)
    requires forall i :: 0 <= i < 7 ==> Same(ProjectionOf(c, m).entries[i].value, ProjectionOf(d, n).entries[i].value)
    ensures c == d && Same(m, n)
  {
    var es, fs := ProjectionOf(c, m).entries, ProjectionOf(d, n).entries;
    assert Same(es[1].value, fs[1].value) && Same(es[2].value, fs[2].value) && Same(es[3].value, fs[3].value);
    assert Same(es[4].value, fs[4].value) && Same(es[5].value, fs[5].value) && Same(es[6].value, fs[6].value);
  }

  lemma {:induction false} KeysAgree(c: Scope, m: Value, d: Scope, n: Value)
    ensures Keys(ProjectionOf(c, m).entries) == Keys(ProjectionOf(d, n).entries)
  {
  }

  /** The hashed text determines the scope and the material projection. */
  lemma {:induction false} TextBindsAction(fc: FloatCodec, c: Scope, m: Value, d: Scope, n: Value)
    requires PrintsFloatTokens(fc) && Valid(m) && Valid(n)
    requires Renderable(fc, ProjectionOf(c, m)) && Renderable(fc, ProjectionOf(d, n))
    requires Canonical(fc, ProjectionOf(c, m)) == Canonical(fc, ProjectionOf(d, n))
    ensures c == d && Same(m, n)
  {
    ProjectionIsValid(c, m);
    ProjectionIsValid(d, n);
    KeysAgree(c, m, d, n);
    SameRecords(fc, ProjectionOf(c, m).entries, ProjectionOf(d, n).entries);
    FieldsAgree(c, m, d, n);
  }

  /** Two requests with one action hash agree on scope and on every material field, or their canonical texts collide. */
  lemma {:induction false} HashBindsAction(fc: FloatCodec, digest: string -> ContentHash, q: ActionRequest,
                                           r: ActionRequest)
    requires PrintsFloatTokens(fc) && ValidAction(q.action) && ValidAction(r.action)
    requires ActionHash(fc, digest, q).Some? && ActionHash(fc, digest, q) == ActionHash(fc, digest, r)
    ensures var s, t := Canonical(fc, Projection(q)), Canonical(fc, Projection(r));
            SameAction(q, r) || (s != t && digest(s) == digest(t))
  {
    if Canonical(fc, Projection(q)) == Canonical(fc, Projection(r)) {
      MaterialIsValid(q.action);
      MaterialIsValid(r.action);
      TextBindsAction(fc, ScopeOf(q), Material(q.action), ScopeOf(r), Material(r.action));
      MaterialCommits(q.action, r.action);
    }
  }

  lemma {:induction false} SameFieldsSame(c: Scope, m: Value, n: Value)
    requires Same(m, n)
    ensures Same(ProjectionOf(c, m), ProjectionOf(c, n))
  {
    var es, fs := ProjectionOf(c, m).entries, ProjectionOf(c, n).entries;
    forall i | 0 <= i < |es| ensures HasSame(es[i], fs) {
      assert es[i].key == fs[i].key && Same(es[i].value, fs[i].value);
    }
  }

  /** Conversely, requests that are the same action have the same hash, however their keys are ordered. */
  lemma {:induction false} SameActionSameHash(fc: FloatCodec, digest: string -> ContentHash, q: ActionRequest,
                                              r: ActionRequest)
    requires PrintsFloatTokens(fc) && ValidAction(q.action) && ValidAction(r.action)
    requires ActionHash(fc, digest, q).Some? && ActionHash(fc, digest, r).Some? && SameAction(q, r)
    ensures ActionHash(fc, digest, q) == ActionHash(fc, digest, r)
  {
    MaterialIsValid(q.action);
    MaterialIsValid(r.action);
    MaterialCommits(q.action, r.action);
    ProjectionIsValid(ScopeOf(q), Material(q.action));
    ProjectionIsValid(ScopeOf(q), Material(r.action));
    SameFieldsSame(ScopeOf(q), Material(q.action), Material(r.action));
    CanonicalDecidesSame(fc, Projection(q), Projection(r));
  }
}
