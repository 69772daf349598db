/** What an agent may attempt, and the material projection of it that is hashed. */
module Materials {
  import opened Ordering
  import opened Json

  /**
   The actions with their material fields. Enumerations are their written names, and
   `sqlOperation` is the operation read off the statement.
   */
  datatype Action =
    | ToolCall(protocol: string, server: Option<string>, toolId: string, name: string, toolOperation: Option<string>,
               arguments: Value, target: Option<string>)
    | ModelCall(provider: string, model: string, purpose: Option<string>)
    | Network(verb: string, url: string, contentType: Option<string>, body: Option<Value>)
    | File(operation: string, path: string, content: Option<string>, mode: Option<string>)
    | Shell(command: string, argv: seq<string>, cwd: Option<string>, usesShell: bool)
    | Database(engine: string, statement: string, parameters: seq<Value>, database: Option<string>,
               sqlOperation: string)
    | MemoryRead(namespace: string, key: string, scope: string)
    | MemoryWrite(namespace: string, key: string, written: Option<string>, scope: string)
    | AgentMessage(toAgent: string, text: string)
    | Delegation(delegateTo: string, work: string, grantedScope: seq<string>, depth: nat)

  /** ASCII letters in capitals, everything else as it is. */
  function Upper(s: string): (r: string)
    ensures |r| == |s|
    ensures forall k :: 0 <= k < |s| ==>
              r[k] as int == if 97 <= s[k] as int <= 122 then s[k] as int - 32 else s[k] as int
  {
    seq(|s|, (k: nat) requires k < |s| => if 'a' <= s[k] <= 'z' then s[k] - 'a' + 'A' else s[k])
  }

  function KindOf(a: Action): string {
    match a
    case ToolCall(_, _, _, _, _, _, _) => "tool_call"
    case ModelCall(_, _, _) => "model_call"
    case Network(_, _, _, _) => "network"
    case File(_, _, _, _) => "file"
    case Shell(_, _, _, _) => "shell"
    case Database(_, _, _, _, _) => "database"
    case MemoryRead(_, _, _) => "memory_read"
    case MemoryWrite(_, _, _, _) => "memory_write"
    case AgentMessage(_, _) => "agent_message"
    case Delegation(_, _, _, _) => "delegation"
  }

  // ---- the projection ----

  function Optional(o: Option<string>): Value { if o.None? then Null else Str(o.value) }

  function OptionalValue(o: Option<Value>): Value { if o.None? then Null else o.value }

  function Strings(ss: seq<string>): Value { Arr(seq(|ss|, (k: nat) requires k < |ss| => Str(ss[k]))) }

  function FieldNames(a: Action): (names: seq<string>)
    ensures 0 < |names| && names[0] == "kind"
  {
    match a
    case ToolCall(_, _, _, _, _, _, _) =>
      ["kind", "protocol", "server", "tool_id", "name", "operation", "arguments", "target_resource"]
    case ModelCall(_, _, _) => ["kind", "provider", "model", "purpose"]
    case Network(_, _, _, _) => ["kind", "method", "url", "content_type", "body"]
    case File(_, _, _, _) => ["kind", "operation", "path", "content", "mode"]
    case Shell(_, _, _, _) => ["kind", "command", "argv", "cwd", "uses_shell"]
    case Database(_, _, _, _, _) => ["kind", "engine", "statement", "parameters", "database"]
    case MemoryRead(_, _, _) => ["kind", "namespace", "key", "scope"]
    case MemoryWrite(_, _, _, _) => ["kind", "namespace", "key", "content", "scope"]
    case AgentMessage(_, _) => ["kind", "to_agent", "content"]
    case Delegation(_, _, _, _) => ["kind", "delegate_to", "task", "granted_scope", "depth"]
  }

  function FieldValues(a: Action): (values: seq<Value>)
    ensures |values| == |FieldNames(a)| && values[0] == Str(KindOf(a))
  {
    match a
    case ToolCall(protocol, server, toolId, name, op, arguments, target) =>
      [Str("tool_call"), Str(protocol), Optional(server), Str(toolId), Str(name), Optional(op), arguments,
       Optional(target)]
    case ModelCall(provider, model, purpose) => [Str("model_call"), Str(provider), Str(model), Optional(purpose)]
    case Network(verb, url, contentType, body) =>
      [Str("network"), Str(Upper(verb)), Str(url), Optional(contentType), OptionalValue(body)]
    case File(op, path, content, mode) => [Str("file"), Str(op), Str(path), Optional(content), Optional(mode)]
    case Shell(command, argv, cwd, usesShell) =>
      [Str("shell"), Str(command), Strings(argv), Optional(cwd), Bool(usesShell)]
    case Database(engine, statement, parameters, database, _) =>
      [Str("database"), Str(engine), Str(statement), Arr(parameters), Optional(database)]
    case MemoryRead(namespace, key, scope) => [Str("memory_read"), Str(namespace), Str(key), Str(scope)]
    case MemoryWrite(namespace, key, content, scope) =>
      [Str("memory_write"), Str(namespace), Str(key), Optional(content), Str(scope)]
    case AgentMessage(toAgent, content) => [Str("agent_message"), Str(toAgent), Str(content)]
    case Delegation(delegateTo, task, grantedScope, depth) =>
      [Str("delegation"), Str(delegateTo), Str(task), Strings(grantedScope), Num(PosInt(depth))]
  }

  function Record(names: seq<string>, values: seq<Value>): (es: seq<Entry>)
    requires |names| == |values|
  {
    seq(|names|, (k: nat) requires k < |names| => Entry(names[k], values[k]))
  }

  function Material(a: Action): Value { Obj(Record(FieldNames(a), FieldValues(a))) }

  /** The JSON inside the action has no repeated key, and its depth is a 32-bit number. */
  predicate ValidAction(a: Action) {
    match a
    case ToolCall(_, _, _, _, _, arguments, _) => Valid(arguments)
    case Network(_, _, _, body) => body.Some? ==> Valid(body.value)
    case Database(_, _, parameters, _, _) => forall p :: p in parameters ==> Valid(p)
    case Delegation(_, _, _, depth) => depth < 0x1_0000_0000
    case _ => true
  }

  /** The same action, field by field; JSON inside up to what canonical JSON identifies, and the verb up to case. */
  ghost predicate SameMaterial(a: Action, b: Action) {
    match (a, b)
    case (ToolCall(p, s, i, n, o, v, t), ToolCall(p', s', i', n', o', v', t')) =>
      p == p' && s == s' && i == i' && n == n' && o == o' && Same(v, v') && t == t'
    case (Network(v, u, c, d), Network(v', u', c', d')) =>
      Upper(v) == Upper(v') && u == u' && c == c' && Same(OptionalValue(d), OptionalValue(d'))
    case (Database(e, s, ps, d, _), Database(e', s', ps', d', _)) =>
      e == e' && s == s' && d == d' && |ps| == |ps'| && forall k :: 0 <= k < |ps| ==> Same(ps[k], ps'[k])
    case _ => a == b
  }

  // ---- records ----

  lemma {:induction false} SameRecordSameField(names: seq<string>, values: seq<Value>, others: seq<Value>, k: nat)
    requires NoRepeats(names) && k < |names| == |values| == |others|
    requires Same(Obj(Record(names, values)), Obj(Record(names, others)))
    ensures Same(values[k], others[k])
  {
    var es, fs := Record(names, values), Record(names, others);
    assert SameMembers(es, fs);
    assert HasSame(es[k], fs);
    var j :| 0 <= j < |fs| && es[k].key == fs[j].key && Same(es[k].value, fs[j].value);
    assert names[k] == names[j];
  }

  lemma {:induction false} SameFieldsSameRecord(names: seq<string>, values: seq<Value>, others: seq<Value>)
    requires |names| == |values| == |others| && forall k :: 0 <= k < |names| ==> Same(values[k], others[k])
    ensures Same(Obj(Record(names, values)), Obj(Record(names, others)))
  {
    var es, fs := Record(names, values), Record(names, others);
    forall k | 0 <= k < |es| ensures HasSame(es[k], fs) {
      assert es[k].key == fs[k].key && Same(es[k].value, fs[k].value);
    }
  }

  /** Two records that are the same agree on a member both begin with. */
  lemma {:induction false} HeadsAreSame(names: seq<string>, values: seq<Value>, others: seq<string>, theirs: seq<Value>)
    requires |names| == |values| > 0 && |others| == |theirs| > 0 && names[0] == others[0] && NoRepeats(others)
    requires Same(Obj(Record(names, values)), Obj(Record(others, theirs)))
    ensures Same(values[0], theirs[0])
  {
    var es, fs := Record(names, values), Record(others, theirs);
    assert HasSame(es[0], fs);
    var j :| 0 <= j < |fs| && es[0].key == fs[j].key && Same(es[0].value, fs[j].value);
    assert others[j] == others[0];
  }

  // ---- the names and kinds are distinct ----

  lemma {:induction false} NamesAreDistinct(a: Action)
    ensures NoRepeats(FieldNames(a))
  {
  }

  // ---- the projection commits to the action ----

  lemma {:induction false} OptionalSame(o: Option<string>, p: Option<string>)
    ensures Same(Optional(o), Optional(p)) <==> o == p
  {
  }

  lemma {:induction false} StringsSame(xs: seq<string>, ys: seq<string>)
    ensures Same(Strings(xs), Strings(ys)) <==> xs == ys
  {
    var vs, ws := Strings(xs).items, Strings(ys).items;
    if Same(Strings(xs), Strings(ys)) {
      forall k | 0 <= k < |xs| ensures xs[k] == ys[k] { assert Same(vs[k], ws[k]); }
    }
  }

  ghost predicate FieldsSame(a: Action, b: Action)
    requires |FieldValues(a)| == |FieldValues(b)|
  {
    forall k :: 0 <= k < |FieldValues(a)| ==> Same(FieldValues(a)[k], FieldValues(b)[k])
  }

  lemma {:induction false} FourSame(v: seq<Value>, w: seq<Value>)
    requires 4 <= |v| == |w| <= 5
    ensures (forall k :: 0 <= k < |v| ==> Same(v[k], w[k])) <==>
            && Same(v[0], w[0]) && Same(v[1], w[1]) && Same(v[2], w[2]) && Same(v[3], w[3])
            && (|v| == 5 ==> Same(v[4], w[4]))
  {
  }

  lemma {:induction false} ToolCallsSame(a: Action, b: Action)
    requires a.ToolCall? && b.ToolCall?
    ensures FieldsSame(a, b) <==> SameMaterial(a, b)
  {
    var v, w := FieldValues(a), FieldValues(b);
    OptionalSame(a.server, b.server);
    OptionalSame(a.toolOperation, b.toolOperation);
    OptionalSame(a.target, b.target);
    assert FieldsSame(a, b) <==>
           Same(v[0], w[0]) && Same(v[1], w[1]) && Same(v[2], w[2]) && Same(v[3], w[3]) && Same(v[4], w[4])
           && Same(v[5], w[5]) && Same(v[6], w[6]) && Same(v[7], w[7]);
  }

  lemma {:induction false} CallsOutSame(a: Action, b: Action)
    requires (a.ModelCall? && b.ModelCall?) || (a.Network? && b.Network?) || (a.File? && b.File?)
    ensures FieldsSame(a, b) <==> SameMaterial(a, b)
  {
    FourSame(FieldValues(a), FieldValues(b));
    match a
    case ModelCall(_, _, purpose) => OptionalSame(purpose, b.purpose);
    case Network(_, _, contentType, _) => OptionalSame(contentType, b.contentType);
    case File(_, _, content, mode) =>
      OptionalSame(content, b.content);
      OptionalSame(mode, b.mode);
  }

  lemma {:induction false} CommandsSame(a: Action, b: Action)
    requires (a.Shell? && b.Shell?) || (a.Delegation? && b.Delegation?)
    ensures FieldsSame(a, b) <==> SameMaterial(a, b)
  {
    FourSame(FieldValues(a), FieldValues(b));
    match a
    case Shell(_, argv, cwd, _) =>
      StringsSame(argv, b.argv);
      OptionalSame(cwd, b.cwd);
    case Delegation(_, _, grantedScope, _) => StringsSame(grantedScope, b.grantedScope);
  }

  lemma {:induction false} QueriesSame(a: Action, b: Action)
    requires a.Database? && b.Database?
    ensures FieldsSame(a, b) <==> SameMaterial(a, b)
  {
    FourSame(FieldValues(a), FieldValues(b));
    OptionalSame(a.database, b.database);
  }

  lemma {:induction false} MemoriesSame(a: Action, b: Action)
    requires (a.MemoryRead? && b.MemoryRead?) || (a.MemoryWrite? && b.MemoryWrite?)
    ensures FieldsSame(a, b) <==> SameMaterial(a, b)
  {
    FourSame(FieldValues(a), FieldValues(b));
    if a.MemoryWrite? {
      OptionalSame(a.written, b.written);
    }
  }

  lemma {:induction false} MessagesSame(a: Action, b: Action)
    requires a.AgentMessage? && b.AgentMessage?
    ensures FieldsSame(a, b) <==> SameMaterial(a, b)
  {
    var v, w := FieldValues(a), FieldValues(b);
    assert FieldsSame(a, b) <==> Same(v[0], w[0]) && Same(v[1], w[1]) && Same(v[2], w[2]);
  }

  lemma {:induction false} SameKindSameFields(a: Action, b: Action)
    requires KindOf(a) == KindOf(b)
    ensures FieldNames(a) == FieldNames(b) && (FieldsSame(a, b) <==> SameMaterial(a, b))
  {
    match a
    case ToolCall(_, _, _, _, _, _, _) => ToolCallsSame(a, b);
    case AgentMessage(_, _) => MessagesSame(a, b);
    case MemoryRead(_, _, _) => MemoriesSame(a, b);
    case MemoryWrite(_, _, _, _) => MemoriesSame(a, b);
    case ModelCall(_, _, _) => CallsOutSame(a, b);
    case Network(_, _, _, _) => CallsOutSame(a, b);
    case File(_, _, _, _) => CallsOutSame(a, b);
    case Database(_, _, _, _, _) => QueriesSame(a, b);
    case _ => CommandsSame(a, b);
  }

  /** Two projections are the same JSON exactly when the actions agree on every material field. */
  lemma {:induction false} MaterialCommits(a: Action, b: Action)
    ensures Same(Material(a), Material(b)) <==> SameMaterial(a, b)
  {
    NamesAreDistinct(a);
    NamesAreDistinct(b);
    if Same(Material(a), Material(b)) {
      HeadsAreSame(FieldNames(a), FieldValues(a), FieldNames(b), FieldValues(b));
      SameKindSameFields(a, b);
      forall k | 0 <= k < |FieldValues(a)| ensures Same(FieldValues(a)[k], FieldValues(b)[k]) {
        SameRecordSameField(FieldNames(a), FieldValues(a), FieldValues(b), k);
      }
    }
    if SameMaterial(a, b) {
      SameKindSameFields(a, b);
      SameFieldsSameRecord(FieldNames(a), FieldValues(a), FieldValues(b));
    }
  }

  lemma {:induction false} MaterialIsValid(a: Action)
    requires ValidAction(a)
    ensures Valid(Material(a))
  {
    NamesAreDistinct(a);
    var es := Record(FieldNames(a), FieldValues(a));
    forall i, j | 0 <= i < j < |es| ensures es[i].key != es[j].key {
      assert FieldNames(a)[i] != FieldNames(a)[j];
    }
  }
}
