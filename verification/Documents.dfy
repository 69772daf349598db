/**
 The documents that are hashed and signed, as text: which members they have, under which names
 and in which order.
 */
module Documents {
  import opened Json
  import opened CanonicalForm
  import opened CanonicalText
  import opened Ordering
  import opened Utf16
  import opened ContentHashes
  import opened AuditLog
  import opened AuditScheme
  import opened Actions
  import opened Materials
  import TextParts = Text

  /** A member as it is written: the name, a colon, the value. */
  function Member(name: string, text: string): string { PrintString(name) + (":" + text) }

  /** Members between braces, with commas between them and nothing else. */
  function Braces(members: seq<string>): string
    requires members != []
  {
    "{" + TextParts.Join(members, ',') + "}"
  }

  // ---- names in order ----

  /** One character of a single code unit each at `k`, the same or the first smaller. */
  predicate SameAt(s: string, t: string, k: nat) { k < |s| && k < |t| && s[k] == t[k] && t[k] as int < 0x1_0000 }

  predicate LessAt(s: string, t: string, k: nat) { k < |s| && k < |t| && s[k] < t[k] && t[k] as int < 0x1_0000 }

  /** The names part within their first three characters, where the first has the smaller one. */
  predicate NameBefore(s: string, t: string) {
    || LessAt(s, t, 0) || (SameAt(s, t, 0) && LessAt(s, t, 1))
    || (SameAt(s, t, 0) && SameAt(s, t, 1) && LessAt(s, t, 2))
  }

  lemma {:induction false} NamesPrecede(s: string, t: string)
    requires NameBefore(s, t)
    ensures Precedes(Units(s), Units(t))
  {
    var k := if LessAt(s, t, 0) then 0 else if LessAt(s, t, 1) then 1 else 2;
    forall i | 0 <= i <= k
      ensures i < |Units(s)| && i < |Units(t)| && Units(s)[i] == s[i] as int && Units(t)[i] == t[i] as int
    {
      NarrowUnits(s, i);
      NarrowUnits(t, i);
    }
    assert PartsAt(Units(s), Units(t), k);
  }

  lemma {:induction false} PrecedesTransitive(a: seq<int>, b: seq<int>, c: seq<int>)
    requires Precedes(a, b) && Precedes(b, c)
    ensures Precedes(a, c)
  {
    var j: nat :| PartsAt(a, b, j);
    var k: nat :| PartsAt(b, c, k);
    assert PartsAt(a, c, if j < k then j else k);
  }

  /** Names of which each precedes the next. */
  predicate InOrder(names: seq<string>) {
    names != [] && forall i :: 0 < i < |names| ==> NameBefore(names[i - 1], names[i])
  }

  lemma {:induction false} Ascend(names: seq<string>, i: nat, j: nat)
    requires InOrder(names) && i < j < |names|
    ensures Precedes(Units(names[i]), Units(names[j]))
  {
    NamesPrecede(names[j - 1], names[j]);
    if i + 1 < j {
      Ascend(names, i, j - 1);
      PrecedesTransitive(Units(names[i]), Units(names[j - 1]), Units(names[j]));
    }
  }

  // ---- objects as text ----

  function Texts(fc: FloatCodec, es: seq<Entry>): (ts: seq<string>)
    ensures |ts| == |es|
    ensures forall i :: 0 <= i < |es| ==> ts[i] == PrintEntry(fc, Entry(es[i].key, Normal(es[i].value)))
  {
    seq(|es|, (i: nat) requires i < |es| => PrintEntry(fc, Entry(es[i].key, Normal(es[i].value))))
  }

  lemma {:induction false} EntriesJoin(fc: FloatCodec, es: seq<Entry>)
    requires es != []
    ensures PrintEntries(fc, NormalEntries(es)) == TextParts.Join(Texts(fc, es), ',')
  {
    var ns, ts := NormalEntries(es), Texts(fc, es);
    if |es| == 1 {
      assert ns[1..] == [];
    } else {
      EntriesJoin(fc, es[1..]);
      assert NormalEntries(es[1..]) == ns[1..] && Texts(fc, es[1..]) == ts[1..];
      MoreIsComma(fc, ns[1..]);
    }
  }

  lemma {:induction false} MoreIsComma(fc: FloatCodec, es: seq<Entry>)
    requires es != []
    ensures PrintMoreEntries(fc, es) == "," + PrintEntries(fc, es)
  {
  }

  /** The text of an object: its members, in ascending order of their names. */
  lemma {:induction false} ObjectText(fc: FloatCodec, es: seq<Entry>, fs: seq<Entry>)
    requires DistinctKeys(es) && multiset(es) == multiset(fs) && KeysAscend(fs) && fs != []
    ensures Canonical(fc, Obj(es)) == Braces(Texts(fc, fs))
  {
    AscendingIsNormal(es, fs);
    EntriesJoin(fc, fs);
  }

  function Members(fc: FloatCodec, names: seq<string>, values: seq<Value>): (ms: seq<string>)
    requires |names| == |values|
    ensures |ms| == |names| && forall i :: 0 <= i < |names| ==> ms[i] == Member(names[i], Canonical(fc, values[i]))
  {
    seq(|names|, (i: nat) requires i < |names| => Member(names[i], Canonical(fc, values[i])))
  }

  /** The text of a record: its members under their names, in the order of the names. */
  lemma {:induction false} RecordText(fc: FloatCodec, es: seq<Entry>, names: seq<string>, values: seq<Value>)
    requires |names| == |values| && InOrder(names)
    requires multiset(es) == multiset(Record(names, values))
    ensures Canonical(fc, Obj(es)) == Braces(Members(fc, names, values))
  {
    var fs := Record(names, values);
    forall i, j | 0 <= i < j < |fs| ensures Precedes(Units(fs[i].key), Units(fs[j].key)) {
      Ascend(names, i, j);
      PrecedesOneWay(Units(fs[i].key), Units(fs[j].key));
    }
    assert DistinctKeys(fs);
    RearrangedStaysDistinct(fs, es);
    ObjectText(fc, es, fs);
    assert Texts(fc, fs) == Members(fc, names, values);
  }

  // ---- the documents ----

  const LINK_NAMES := ["event_hash", "previous_hash", "sequence"]

  const CHECKPOINT_NAMES := ["chain_hash", "key_id", "sequence", "signed_at", "tenant_id"]

  const ACTION_NAMES := ["action", "agent_id", "environment_id", "principal_id", "schema", "session_id", "tenant_id"]

  /** The names of the committed fields, kind by kind. */
  function MaterialNames(a: Action): seq<string> {
    match a
    case ToolCall(_, _, _, _, _, _, _) =>
      ["arguments", "kind", "name", "operation", "protocol", "server", "target_resource", "tool_id"]
    case ModelCall(_, _, _) => ["kind", "model", "provider", "purpose"]
    case Network(_, _, _, _) => ["body", "content_type", "kind", "method", "url"]
    case File(_, _, _, _) => ["content", "kind", "mode", "operation", "path"]
    case Shell(_, _, _, _) => ["argv", "command", "cwd", "kind", "uses_shell"]
    case Database(_, _, _, _, _) => ["database", "engine", "kind", "parameters", "statement"]
    case MemoryRead(_, _, _) => ["key", "kind", "namespace", "scope"]
    case MemoryWrite(_, _, _, _) => ["content", "key", "kind", "namespace", "scope"]
    case AgentMessage(_, _) => ["content", "kind", "to_agent"]
    case Delegation(_, _, _, _) => ["delegate_to", "depth", "granted_scope", "kind", "task"]
  }

  function TextOrNull(o: Option<string>): Value { match o case None => Null case Some(t) => Str(t) }

  function OrNull(o: Option<Value>): Value { match o case None => Null case Some(v) => v }

  /** The committed fields, in the order of their names. */
  function MaterialValues(a: Action): (vs: seq<Value>)
    ensures |vs| == |MaterialNames(a)|
  {
    match a
    case ToolCall(protocol, server, toolId, name, op, arguments, target) =>
      [arguments, Str("tool_call"), Str(name), TextOrNull(op), Str(protocol), TextOrNull(server), TextOrNull(target),
       Str(toolId)]
    case ModelCall(provider, model, purpose) => [Str("model_call"), Str(model), Str(provider), TextOrNull(purpose)]
    case Network(verb, url, contentType, body) =>
      [OrNull(body), TextOrNull(contentType), Str("network"), Str(Upper(verb)), Str(url)]
    case File(op, path, content, mode) => [TextOrNull(content), Str("file"), TextOrNull(mode), Str(op), Str(path)]
    case Shell(command, argv, cwd, usesShell) =>
      [Strings(argv), Str(command), TextOrNull(cwd), Str("shell"), Bool(usesShell)]
    case Database(engine, statement, parameters, database, _) =>
      [TextOrNull(database), Str(engine), Str("database"), Arr(parameters), Str(statement)]
    case MemoryRead(namespace, key, scope) => [Str(key), Str("memory_read"), Str(namespace), Str(scope)]
    case MemoryWrite(namespace, key, content, scope) =>
      [TextOrNull(content), Str(key), Str("memory_write"), Str(namespace), Str(scope)]
    case AgentMessage(toAgent, content) => [Str(content), Str("agent_message"), Str(toAgent)]
    case Delegation(delegateTo, task, grantedScope, depth) =>
      [Str(delegateTo), Num(PosInt(depth)), Strings(grantedScope), Str("delegation"), Str(task)]
  }

  lemma {:induction false} DocumentNamesInOrder()
    ensures InOrder(LINK_NAMES) && InOrder(CHECKPOINT_NAMES) && InOrder(ACTION_NAMES)
  {
  }

  lemma {:induction false} CallNamesInOrder(a: Action)
    requires a.ToolCall? || a.ModelCall? || a.Network?
    ensures InOrder(MaterialNames(a))
  {
  }

  lemma {:induction false} CommandNamesInOrder(a: Action)
    requires a.File? || a.Shell? || a.Database? || a.Delegation?
    ensures InOrder(MaterialNames(a))
  {
  }

  lemma {:induction false} MaterialNamesInOrder(a: Action)
    ensures InOrder(MaterialNames(a))
  {
    if a.ToolCall? || a.ModelCall? || a.Network? {
      CallNamesInOrder(a);
    } else if a.File? || a.Shell? || a.Database? || a.Delegation? {
      CommandNamesInOrder(a);
    }
  }

  function HashValue(h: ContentHash): Value { Str(ContentHashes.Text(h)) }

  /** The record lists these members under these names, in some order. */
  ghost predicate Lists(es: seq<Entry>, names: seq<string>, values: seq<Value>) {
    && |es| == |names| == |values|
    && forall i :: 0 <= i < |names| ==> Entry(names[i], values[i]) in es
  }

  lemma {:induction false} ListedText(fc: FloatCodec, es: seq<Entry>, names: seq<string>, values: seq<Value>)
    requires Lists(es, names, values) && InOrder(names)
    ensures Canonical(fc, Obj(es)) == Braces(Members(fc, names, values))
  {
    var fs := Record(names, values);
    forall i, j | 0 <= i < j < |fs| ensures fs[i] != fs[j] {
      Ascend(names, i, j);
      PrecedesOneWay(Units(names[i]), Units(names[j]));
    }
    SameMembersSameMultiset(fs, es);
    RecordText(fc, es, names, values);
  }

  lemma {:induction false} LinkLists(n: nat, h: ContentHash, p: Option<ContentHash>)
    ensures Lists(LinkValue(n, h, p).entries, LINK_NAMES,
                  [HashValue(h), if p.None? then Null else HashValue(p.value), Num(PosInt(n))])
  {
    var es := LinkValue(n, h, p).entries;
    assert es[0] in es && es[1] in es && es[2] in es;
  }

  /** The text whose digest is an entry's chain hash. */
  lemma {:induction false} LinkText(fc: FloatCodec, n: nat, h: ContentHash, p: Option<ContentHash>)
    ensures Canonical(fc, LinkValue(n, h, p))
            == Braces(Members(fc, LINK_NAMES,
                              [HashValue(h), if p.None? then Null else HashValue(p.value), Num(PosInt(n))]))
  {
    LinkLists(n, h, p);
    DocumentNamesInOrder();
    ListedText(fc, LinkValue(n, h, p).entries, LINK_NAMES,
               [HashValue(h), if p.None? then Null else HashValue(p.value), Num(PosInt(n))]);
  }

  lemma {:induction false} CheckpointLists(cp: Checkpoint)
    ensures Lists(CheckpointValue(cp).entries, CHECKPOINT_NAMES,
                  [HashValue(cp.chainHash), Str(cp.keyId), Num(PosInt(cp.sequence)), Str(cp.signedAt), Str(cp.tenant)])
  {
    var es := CheckpointValue(cp).entries;
    assert es[0] in es && es[1] in es && es[2] in es && es[3] in es && es[4] in es;
  }

  /** The text a checkpoint's signature is over. */
  lemma {:induction false} CheckpointText(fc: FloatCodec, cp: Checkpoint)
    ensures Canonical(fc, CheckpointValue(cp))
            == Braces(Members(fc, CHECKPOINT_NAMES,
                              [HashValue(cp.chainHash), Str(cp.keyId), Num(PosInt(cp.sequence)), Str(cp.signedAt),
                               Str(cp.tenant)]))
  {
    CheckpointLists(cp);
    DocumentNamesInOrder();
    ListedText(fc, CheckpointValue(cp).entries, CHECKPOINT_NAMES,
               [HashValue(cp.chainHash), Str(cp.keyId), Num(PosInt(cp.sequence)), Str(cp.signedAt), Str(cp.tenant)]);
  }

  lemma {:induction false} ScopeIsListed(c: Scope, material: Value, k: nat)
    requires k < 7
    ensures ProjectionOf(c, material).entries[k] in ProjectionOf(c, material).entries
  {
  }

  lemma {:induction false} ActionLists(c: Scope, material: Value)
    ensures Lists(ProjectionOf(c, material).entries, ACTION_NAMES,
                  [material, Str(c.agent), Str(c.environment), Str(c.principal), Str("vigil.v1"), Str(c.session),
                   Str(c.tenant)])
  {
    ScopeIsListed(c, material, 0);
    ScopeIsListed(c, material, 1);
    ScopeIsListed(c, material, 2);
    ScopeIsListed(c, material, 3);
    ScopeIsListed(c, material, 4);
    ScopeIsListed(c, material, 5);
    ScopeIsListed(c, material, 6);
  }

  /** The text whose digest is the action hash. */
  lemma {:induction false} ActionText(fc: FloatCodec, r: ActionRequest)
    ensures Canonical(fc, Projection(r))
            == Braces(Members(fc, ACTION_NAMES,
                              [Material(r.action), Str(r.agent), Str(r.environment), Str(r.principal.id),
                               Str("vigil.v1"), Str(r.session), Str(r.tenant)]))
  {
    ActionLists(ScopeOf(r), Material(r.action));
    DocumentNamesInOrder();
    ListedText(fc, Projection(r).entries, ACTION_NAMES,
               [Material(r.action), Str(r.agent), Str(r.environment), Str(r.principal.id), Str("vigil.v1"),
                Str(r.session), Str(r.tenant)]);
  }

  lemma {:induction false} FieldIsListed(a: Action, k: nat)
    requires k < |FieldNames(a)|
    ensures Entry(FieldNames(a)[k], FieldValues(a)[k]) in Material(a).entries
  {
    assert Material(a).entries[k] in Material(a).entries;
  }

  lemma {:induction false} ToolLists(a: Action)
    requires a.ToolCall?
    ensures Lists(Material(a).entries, MaterialNames(a), MaterialValues(a))
  {
    FieldIsListed(a, 0);
    FieldIsListed(a, 1);
    FieldIsListed(a, 2);
    FieldIsListed(a, 3);
    FieldIsListed(a, 4);
    FieldIsListed(a, 5);
    FieldIsListed(a, 6);
    FieldIsListed(a, 7);
  }

  lemma {:induction false} LongLists(a: Action)
    requires a.Network? || a.File? || a.Shell?
    ensures Lists(Material(a).entries, MaterialNames(a), MaterialValues(a))
  {
    FieldIsListed(a, 0);
    FieldIsListed(a, 1);
    FieldIsListed(a, 2);
    FieldIsListed(a, 3);
    FieldIsListed(a, 4);
  }

  lemma {:induction false} StoreLists(a: Action)
    requires a.Database? || a.MemoryWrite? || a.Delegation?
    ensures Lists(Material(a).entries, MaterialNames(a), MaterialValues(a))
  {
    FieldIsListed(a, 0);
    FieldIsListed(a, 1);
    FieldIsListed(a, 2);
    FieldIsListed(a, 3);
    FieldIsListed(a, 4);
  }

  lemma {:induction false} ShortLists(a: Action)
    requires a.ModelCall? || a.MemoryRead? || a.AgentMessage?
    ensures Lists(Material(a).entries, MaterialNames(a), MaterialValues(a))
  {
    FieldIsListed(a, 0);
    FieldIsListed(a, 1);
    FieldIsListed(a, 2);
    if !a.AgentMessage? {
      FieldIsListed(a, 3);
    }
  }

  lemma {:induction false} MaterialLists(a: Action)
    ensures Lists(Material(a).entries, MaterialNames(a), MaterialValues(a))
  {
    if a.ToolCall? {
      ToolLists(a);
    } else if a.Network? || a.File? || a.Shell? {
      LongLists(a);
    } else if a.Database? || a.MemoryWrite? || a.Delegation? {
      StoreLists(a);
    } else {
      ShortLists(a);
    }
  }

  /** And within it, the text of an action of each kind. */
  lemma {:induction false} MaterialText(fc: FloatCodec, a: Action)
    ensures Canonical(fc, Material(a)) == Braces(Members(fc, MaterialNames(a), MaterialValues(a)))
  {
    MaterialLists(a);
    MaterialNamesInOrder(a);
    ListedText(fc, Material(a).entries, MaterialNames(a), MaterialValues(a));
  }

  // ---- what is hashed ----

  /** Whether the JSON that an action carries has a canonical text. */
  predicate CarriesText(fc: FloatCodec, a: Action) {
    match a
    case ToolCall(_, _, _, _, _, arguments, _) => Renderable(fc, arguments)
    case Network(_, _, _, body) => body.Some? ==> Renderable(fc, body.value)
    case Database(_, _, parameters, _, _) => forall p :: p in parameters ==> Renderable(fc, p)
    case _ => true
  }

  lemma {:induction false} FieldsCarryText(fc: FloatCodec, a: Action)
    ensures (forall k :: 0 <= k < |FieldValues(a)| ==> Renderable(fc, FieldValues(a)[k])) <==> CarriesText(fc, a)
  {
    var vs := FieldValues(a);
    match a
    case ToolCall(_, _, _, _, _, arguments, _) => assert vs[6] == arguments;
    case Network(_, _, _, body) => assert vs[4] == OptionalValue(body);
    case Database(_, _, parameters, _, _) => assert vs[3] == Arr(parameters);
    case _ =>
  }

  lemma {:induction false} RecordRenders(fc: FloatCodec, names: seq<string>, values: seq<Value>)
    requires |names| == |values|
    ensures Renderable(fc, Obj(Record(names, values))) <==> forall k :: 0 <= k < |values| ==> Renderable(fc, values[k])
  {
    var es := Record(names, values);
    if Renderable(fc, Obj(es)) {
      forall k | 0 <= k < |values| ensures Renderable(fc, values[k]) { assert es[k] in es; }
    }
  }

  lemma {:induction false} ProjectionRenders(fc: FloatCodec, c: Scope, material: Value)
    ensures Renderable(fc, ProjectionOf(c, material)) <==> Renderable(fc, material)
  {
    var es := ProjectionOf(c, material).entries;
    assert es[6] in es && es[6].value == material;
  }

  /** An action has a hash exactly when the JSON it carries has a text, and it is the digest of the text above. */
  lemma {:induction false} HashExactly(fc: FloatCodec, digest: string -> ContentHash, r: ActionRequest)
    ensures ActionHash(fc, digest, r)
            == if CarriesText(fc, r.action) then Some(digest(Canonical(fc, Projection(r)))) else None
  {
    FieldsCarryText(fc, r.action);
    RecordRenders(fc, FieldNames(r.action), FieldValues(r.action));
    ProjectionRenders(fc, ScopeOf(r), Material(r.action));
  }
}
