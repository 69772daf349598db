/**
 The chain that writes the log: append, two-phase checkpoint, crash and recovery, as a class
 over a durable sink and as a machine over its states. In a run, appends happen between a
 checkpoint's signing and its publication, writers publish in any order, the process may stop
 at any point and start again from the sink, and a write may be reported as failed although
 its record stays.
 */
module AuditChains {
  import opened Json
  import opened ContentHashes
  import opened AuditLog
  import opened AuditEvidence

  datatype Signer = Signer(tenant: string, keyId: string, sign: string -> string)

  /** What the process holds, and what its sink holds. */
  datatype Core = Core(entries: seq<AuditEntry>, checkpoints: seq<Checkpoint>, nextSequence: nat,
                       head: Option<ContentHash>,
                       durableEntries: seq<AuditEntry>, durableCheckpoints: seq<Checkpoint>)

  const FRESH := Core([], [], 0, None, [], [])

  // ---- the operations on states ----

  /** The entry an append makes of an event, unless the event has no canonical text. */
  function NewEntry(c: Scheme, s: Core, event: Event): (r: Option<AuditEntry>) {
    match c.contentText(event.content)
    case None => None
    case Some(text) =>
      var h := c.digest(text);
      var stored := Event(event.content, Some(Envelope(s.nextSequence, h, s.head)));
      Some(AuditEntry(s.nextSequence, stored, LinkHash(c, s.nextSequence, h, s.head), s.head))
  }

  function Written(s: Core, e: AuditEntry): Core {
    s.(durableEntries := s.durableEntries + [e])
  }

  function Committed(s: Core, e: AuditEntry): Core {
    Written(s, e).(entries := s.entries + [e], nextSequence := s.nextSequence + 1, head := Some(e.chainHash))
  }

  /** The checkpoint that signing the current head makes. */
  function NewCheckpoint(c: Scheme, signer: Signer, s: Core, signedAt: string): (cp: Checkpoint)
    requires s.head.Some?
  {
    var body := Checkpoint(signer.tenant, if s.nextSequence == 0 then 0 else s.nextSequence - 1,
                           s.head.value, signedAt, signer.keyId, "");
    body.(signature := signer.sign(c.payloadText(body)))
  }

  /** What a process that starts over the sink resumes from. */
  function Recovered(s: Core): Core {
    var es := s.durableEntries;
    Core(es, s.durableCheckpoints, if es == [] then 0 else es[|es| - 1].sequence + 1,
         Previous(es, |es|), es, s.durableCheckpoints)
  }

  // ---- runs ----

  /** A core, the checkpoints on their way through the two phases, and all that were ever signed. */
  datatype State = State(core: Core, signedOnly: multiset<Checkpoint>, durableOnly: multiset<Checkpoint>,
                         signed: set<Checkpoint>)

  datatype Step =
    | AppendRefused
    | AppendCommitted(event: Event)
    | AppendWrittenThenCrash(event: Event)
    | AppendStoredButRefused(event: Event)
    | SignHead(signedAt: string)
    | CheckpointRefused(cp: Checkpoint)
    | CheckpointWritten(cp: Checkpoint)
    | CheckpointStoredButRefused(cp: Checkpoint)
    | CheckpointRemembered(cp: Checkpoint)
    | CrashAndRestart

  ghost predicate Next(c: Scheme, signer: Signer, s: State, step: Step, t: State) {
    match step
    case AppendRefused => t == s
    case AppendCommitted(event) =>
      && CanAppend(c, s.core, event)
      && t == s.(core := Committed(s.core, NewEntry(c, s.core, event).value))
    case AppendWrittenThenCrash(event) =>
      && CanAppend(c, s.core, event)
      && t == Restarted(s.(core := Written(s.core, NewEntry(c, s.core, event).value)))
    case AppendStoredButRefused(event) =>
      && CanAppend(c, s.core, event)
      && t == s.(core := Written(s.core, NewEntry(c, s.core, event).value))
    case SignHead(signedAt) =>
      && s.core.head.Some?
      && var cp := NewCheckpoint(c, signer, s.core, signedAt);
         t == s.(signedOnly := s.signedOnly + multiset{cp}, signed := s.signed + {cp})
    case CheckpointRefused(cp) =>
      cp in s.signedOnly && t == s.(signedOnly := s.signedOnly - multiset{cp})
    case CheckpointWritten(cp) =>
      && cp in s.signedOnly
      && t == s.(signedOnly := s.signedOnly - multiset{cp}, durableOnly := s.durableOnly + multiset{cp},
                 core := s.core.(durableCheckpoints := s.core.durableCheckpoints + [cp]))
    case CheckpointStoredButRefused(cp) =>
      && cp in s.signedOnly
      && t == s.(signedOnly := s.signedOnly - multiset{cp},
                 core := s.core.(durableCheckpoints := s.core.durableCheckpoints + [cp]))
    case CheckpointRemembered(cp) =>
      && cp in s.durableOnly
      && t == s.(durableOnly := s.durableOnly - multiset{cp},
                 core := s.core.(checkpoints := s.core.checkpoints + [cp]))
    case CrashAndRestart => t == Restarted(s)
  }

  /** An append goes through for a hashable event while the 64-bit counter has room. */
  ghost predicate CanAppend(c: Scheme, s: Core, event: Event) {
    Valid(event.content) && NewEntry(c, s, event).Some? && s.nextSequence + 1 < U64_LIMIT
  }

  function Restarted(s: State): State {
    State(Recovered(s.core), multiset{}, multiset{}, s.signed)
  }

  ghost predicate IsRun(c: Scheme, signer: Signer, states: seq<State>, steps: seq<Step>) {
    && |states| == |steps| + 1
    && states[0] == State(FRESH, multiset{}, multiset{}, {})
    && forall i {:trigger steps[i]} :: 0 <= i < |steps| ==> Next(c, signer, states[i], steps[i], states[i + 1])
  }

  // ---- logs that are forked ----

  /** The step leaves a record behind that the process does not know of. */
  predicate Leaves(step: Step) { step.AppendStoredButRefused? }

  predicate Writes(step: Step) {
    step.AppendCommitted? || step.AppendWrittenThenCrash? || step.AppendStoredButRefused?
  }

  predicate Restarts(step: Step) { step.CrashAndRestart? || step.AppendWrittenThenCrash? }

  /** After `n` steps a record was left behind and the process has not restarted since. */
  predicate Pending(steps: seq<Step>, n: nat)
    requires n <= |steps|
  {
    exists i :: 0 <= i < n && Leaves(steps[i]) && forall m :: i < m < n ==> !Restarts(steps[m])
  }

  /** Within `n` steps a record was written while another was left behind. */
  predicate Forks(steps: seq<Step>, n: nat)
    requires n <= |steps|
  {
    exists j :: 0 <= j < n && Writes(steps[j]) && Pending(steps, j)
  }

  lemma {:induction false} PendingStep(steps: seq<Step>, n: nat)
    requires n < |steps|
    ensures Pending(steps, n + 1) <==> Leaves(steps[n]) || (Pending(steps, n) && !Restarts(steps[n]))
  {
    if Leaves(steps[n]) {
      assert 0 <= n < n + 1 && Leaves(steps[n]);
    }
    if Pending(steps, n) && !Restarts(steps[n]) {
      var i :| 0 <= i < n && Leaves(steps[i]) && forall m :: i < m < n ==> !Restarts(steps[m]);
      assert Leaves(steps[i]);
    }
    if Pending(steps, n + 1) && !Leaves(steps[n]) {
      var i :| 0 <= i < n + 1 && Leaves(steps[i]) && forall m :: i < m < n + 1 ==> !Restarts(steps[m]);
      assert i < n && Leaves(steps[i]);
    }
  }

  lemma {:induction false} ForksStep(steps: seq<Step>, n: nat)
    requires n < |steps|
    ensures Forks(steps, n + 1) <==> Forks(steps, n) || (Writes(steps[n]) && Pending(steps, n))
  {
  }

  // ---- what every step keeps ----

  ghost predicate SignerWorks(c: Scheme, signer: Signer, key: PublicKey) {
    forall text :: c.verifies(key, text, signer.sign(text))
  }

  /** A signed checkpoint of an entry the log holds. */
  ghost predicate Covers(c: Scheme, signer: Signer, key: PublicKey, es: seq<AuditEntry>, cp: Checkpoint) {
    && cp.sequence < |es| && cp.chainHash == es[cp.sequence].chainHash
    && cp.keyId == signer.keyId && cp.tenant == signer.tenant && c.verifies(key, c.payloadText(cp), cp.signature)
  }

  ghost predicate GoodLog(c: Scheme, es: seq<AuditEntry>) {
    |es| < U64_LIMIT && ValidLog(es) && WellChained(c, es)
  }

  /** Memory holds a good log, and stands at its end. */
  ghost predicate MemoryInv(c: Scheme, s: Core) {
    GoodLog(c, s.entries) && s.nextSequence == |s.entries| && s.head == Previous(s.entries, |s.entries|)
  }

  ghost predicate ChainInv(c: Scheme, s: Core) {
    MemoryInv(c, s) && s.entries == s.durableEntries
  }

  /** The sink holds what memory holds, and perhaps one good record more. */
  ghost predicate Sound(c: Scheme, s: Core) {
    && MemoryInv(c, s) && GoodLog(c, s.durableEntries)
    && s.entries <= s.durableEntries && |s.durableEntries| <= |s.entries| + 1
  }

  ghost predicate Forked(c: Scheme, s: Core) {
    ValidLog(s.durableEntries) && !WellChained(c, s.durableEntries)
  }

  /** The next entry continues any log that memory's number and head stand at the end of. */
  lemma {:induction false} NewEntryLinks(c: Scheme, s: Core, es: seq<AuditEntry>, event: Event)
    requires GoodLog(c, es) && s.nextSequence == |es| && s.head == Previous(es, |es|) && CanAppend(c, s, event)
    ensures GoodLog(c, es + [NewEntry(c, s, event).value])
  {
    var e := NewEntry(c, s, event).value;
    var n, more := |es|, es + [e];
    ScansAlike(c, es, more, n);
    assert more[n] == e && Previous(more, n) == s.head;
    assert Linked(c, more, n);
    forall i | 0 <= i < |more|
      ensures more[i].sequence < U64_LIMIT && Valid(more[i].event.content) && Linked(c, more, i)
    {
      if i < n { assert more[i] == es[i]; }
    }
  }

  /** Appending to a well-chained log leaves a well-chained log. */
  lemma {:induction false} AppendKeepsChain(c: Scheme, s: Core, event: Event)
    requires ChainInv(c, s) && CanAppend(c, s, event)
    ensures ChainInv(c, Committed(s, NewEntry(c, s, event).value))
  {
    NewEntryLinks(c, s, s.entries, event);
  }

  /** A record left behind continues the durable log. */
  lemma {:induction false} LeftoverIsGood(c: Scheme, s: Core, event: Event)
    requires ChainInv(c, s) && CanAppend(c, s, event)
    ensures var t := Written(s, NewEntry(c, s, event).value); Sound(c, t) && !ChainInv(c, t)
  {
    NewEntryLinks(c, s, s.durableEntries, event);
  }

  lemma {:induction false} BadEndIsForked(c: Scheme, es: seq<AuditEntry>, e: AuditEntry)
    requires ValidLog(es) && e.sequence < U64_LIMIT && Valid(e.event.content)
    ensures ValidLog(es + [e])
    ensures !WellChained(c, es) || e.sequence != |es| ==> !WellChained(c, es + [e])
  {
    var more := es + [e];
    assert more[|es|] == e;
    forall i | 0 <= i < |more| ensures more[i].sequence < U64_LIMIT && Valid(more[i].event.content) {
      if i < |es| { assert more[i] == es[i]; }
    }
    if WellChained(c, more) {
      assert Linked(c, more, |es|) && LinkedUpTo(c, more, |es|);
      ScansAlike(c, es, more, |es|);
    }
  }

  /** A record written while another is left behind reuses its number and forks the log for good. */
  lemma {:induction false} WriteForks(c: Scheme, s: Core, event: Event)
    requires CanAppend(c, s, event)
    requires (Sound(c, s) && !ChainInv(c, s)) || Forked(c, s)
    ensures Forked(c, Written(s, NewEntry(c, s, event).value))
  {
    BadEndIsForked(c, s.durableEntries, NewEntry(c, s, event).value);
  }

  /** A restart takes over whatever the sink holds. */
  lemma {:induction false} RecoveryKeepsChain(c: Scheme, s: Core)
    requires GoodLog(c, s.durableEntries)
    ensures ChainInv(c, Recovered(s)) && Recovered(s).entries == s.durableEntries
  {
    var es := s.durableEntries;
    if es != [] {
      assert Linked(c, es, |es| - 1);
    }
  }

  /** What a step makes of the durable log: nothing, or one record more. */
  lemma {:induction false} StepGrows(c: Scheme, signer: Signer, s: State, step: Step, t: State)
    requires Next(c, signer, s, step, t)
    ensures s.core.durableEntries <= t.core.durableEntries
    ensures !Writes(step) ==> t.core.durableEntries == s.core.durableEntries
    ensures Writes(step) ==>
              CanAppend(c, s.core, step.event)
              && t.core.durableEntries == Written(s.core, NewEntry(c, s.core, step.event).value).durableEntries
  {
  }

  lemma {:induction false} StepKeepsForked(c: Scheme, signer: Signer, s: State, step: Step, t: State)
    requires Next(c, signer, s, step, t)
    requires Forked(c, s.core) || (Sound(c, s.core) && !ChainInv(c, s.core) && Writes(step))
    ensures Forked(c, t.core)
  {
    StepGrows(c, signer, s, step, t);
    if Writes(step) {
      WriteForks(c, s.core, step.event);
    }
  }

  lemma {:induction false} QuietStepKeepsSound(c: Scheme, signer: Signer, s: State, step: Step, t: State)
    requires Sound(c, s.core) && Next(c, signer, s, step, t) && !Writes(step)
    ensures Sound(c, t.core) && s.core.entries <= t.core.entries
    ensures ChainInv(c, t.core) <==> ChainInv(c, s.core) || Restarts(step)
  {
    if step.CrashAndRestart? {
      RecoveryKeepsChain(c, s.core);
    } else {
      assert t.core.entries == s.core.entries && t.core.durableEntries == s.core.durableEntries;
      assert t.core.nextSequence == s.core.nextSequence && t.core.head == s.core.head;
    }
  }

  lemma {:induction false} WriteKeepsSound(c: Scheme, signer: Signer, s: State, step: Step, t: State)
    requires ChainInv(c, s.core) && Next(c, signer, s, step, t) && Writes(step)
    ensures Sound(c, t.core) && s.core.entries <= t.core.entries
    ensures ChainInv(c, t.core) <==> !Leaves(step)
  {
    var e := NewEntry(c, s.core, step.event).value;
    match step
    case AppendCommitted(event) => AppendKeepsChain(c, s.core, event);
    case AppendWrittenThenCrash(event) =>
      LeftoverIsGood(c, s.core, event);
      RecoveryKeepsChain(c, Written(s.core, e));
    case AppendStoredButRefused(event) => LeftoverIsGood(c, s.core, event);
  }

  /** The form of a log that is forked or not, with a record left behind or not. */
  ghost predicate HasForm(c: Scheme, s: Core, forked: bool, pending: bool) {
    if forked then Forked(c, s) else Sound(c, s) && (ChainInv(c, s) <==> !pending)
  }

  lemma {:induction false} StepForm(c: Scheme, signer: Signer, s: State, step: Step, t: State,
                                    forked: bool, pending: bool)
    requires Next(c, signer, s, step, t) && HasForm(c, s.core, forked, pending)
    ensures HasForm(c, t.core, forked || (Writes(step) && pending), Leaves(step) || (pending && !Restarts(step)))
  {
    if forked || (Writes(step) && pending) {
      StepKeepsForked(c, signer, s, step, t);
    } else if Writes(step) {
      WriteKeepsSound(c, signer, s, step, t);
    } else {
      QuietStepKeepsSound(c, signer, s, step, t);
    }
  }

  /**
   Exactly what a run has made of the log: it is forked if and only if a record was written
   while another was left behind, and until then it is good, in step with memory unless a
   record is left behind now.
   */
  lemma {:induction false} RunForm(c: Scheme, signer: Signer, states: seq<State>, steps: seq<Step>, k: nat)
    requires IsRun(c, signer, states, steps) && k < |states|
    ensures HasForm(c, states[k].core, Forks(steps, k), Pending(steps, k))
  {
    if k > 0 {
      RunForm(c, signer, states, steps, k - 1);
      PendingStep(steps, k - 1);
      ForksStep(steps, k - 1);
      StepForm(c, signer, states[k - 1], steps[k - 1], states[k], Forks(steps, k - 1), Pending(steps, k - 1));
    }
  }

  // ---- the fields the verifier does not read ----

  /** The record repeats its number and the chain hash before it, in the entry and in the envelope. */
  predicate Repeats(es: seq<AuditEntry>, i: nat)
    requires i < |es|
  {
    && es[i].previousHash == Previous(es, i) && es[i].event.integrity.Some?
    && es[i].event.integrity.value.sequence == i && es[i].event.integrity.value.previousHash == Previous(es, i)
  }

  lemma {:induction false} NewEntryRepeats(c: Scheme, s: Core, event: Event)
    requires CanAppend(c, s, event) && s.nextSequence == |s.durableEntries|
    requires s.head == Previous(s.durableEntries, |s.durableEntries|)
    requires forall i :: 0 <= i < |s.durableEntries| ==> Repeats(s.durableEntries, i)
    ensures var more := Written(s, NewEntry(c, s, event).value).durableEntries;
            forall i :: 0 <= i < |more| ==> Repeats(more, i)
  {
    var es := s.durableEntries;
    var more := es + [NewEntry(c, s, event).value];
    forall i | 0 <= i < |more| ensures Repeats(more, i) {
      assert Previous(more, i) == Previous(es, i);
      if i < |es| { assert more[i] == es[i] && Repeats(es, i); }
    }
  }

  /** In every run that has not forked the log, every durable record repeats its number and predecessor. */
  lemma {:induction false} RecordsRepeat(c: Scheme, signer: Signer, states: seq<State>, steps: seq<Step>, k: nat)
    requires IsRun(c, signer, states, steps) && k < |states| && !Forks(steps, k)
    ensures var es := states[k].core.durableEntries; forall i :: 0 <= i < |es| ==> Repeats(es, i)
  {
    if k > 0 {
      var s, step, t := states[k - 1], steps[k - 1], states[k];
      ForksStep(steps, k - 1);
      RecordsRepeat(c, signer, states, steps, k - 1);
      RunForm(c, signer, states, steps, k - 1);
      StepGrows(c, signer, s, step, t);
      if Writes(step) {
        NewEntryRepeats(c, s.core, step.event);
      }
    }
  }

  // ---- checkpoints ----

  ghost predicate SignedCovered(c: Scheme, signer: Signer, key: PublicKey, s: State) {
    forall cp :: cp in s.signed ==> Covers(c, signer, key, s.core.entries, cp)
  }

  ghost predicate AllIn(cps: seq<Checkpoint>, signed: set<Checkpoint>) {
    forall i :: 0 <= i < |cps| ==> cps[i] in signed
  }

  ghost predicate Within(cps: multiset<Checkpoint>, signed: set<Checkpoint>) {
    forall cp :: cp in cps ==> cp in signed
  }

  /** Every checkpoint in memory, on disk or on its way there was signed by this chain. */
  ghost predicate Tracked(s: State) {
    && AllIn(s.core.checkpoints, s.signed) && AllIn(s.core.durableCheckpoints, s.signed)
    && Within(s.signedOnly, s.signed) && Within(s.durableOnly, s.signed)
  }

  lemma {:induction false} SigningCovers(c: Scheme, signer: Signer, key: PublicKey, s: Core, signedAt: string)
    requires MemoryInv(c, s) && SignerWorks(c, signer, key) && s.head.Some? && PayloadIgnoresSignature(c)
    ensures Covers(c, signer, key, s.entries, NewCheckpoint(c, signer, s, signedAt))
  {
    var cp := NewCheckpoint(c, signer, s, signedAt);
    assert c.payloadText(cp) == c.payloadText(cp.(signature := ""));
  }

  lemma {:induction false} StepKeepsCovered(c: Scheme, signer: Signer, key: PublicKey, s: State, step: Step, t: State)
    requires SignerWorks(c, signer, key) && PayloadIgnoresSignature(c)
    requires MemoryInv(c, s.core) && SignedCovered(c, signer, key, s) && Next(c, signer, s, step, t)
    requires s.core.entries <= t.core.entries
    ensures SignedCovered(c, signer, key, t)
  {
    if step.SignHead? {
      SigningCovers(c, signer, key, s.core, step.signedAt);
    } else {
      assert t.signed == s.signed;
      forall cp | cp in s.signed ensures Covers(c, signer, key, t.core.entries, cp) {
        assert t.core.entries[cp.sequence] == s.core.entries[cp.sequence];
      }
    }
  }

  lemma {:induction false} CheckpointMoves(cps: multiset<Checkpoint>, cp: Checkpoint, signed: set<Checkpoint>)
    requires Within(cps, signed)
    ensures Within(cps - multiset{cp}, signed) && Within(cps + multiset{cp}, signed + {cp})
    ensures cp in signed ==> Within(cps + multiset{cp}, signed)
  {
  }

  lemma {:induction false} CheckpointIsListed(cps: seq<Checkpoint>, cp: Checkpoint, signed: set<Checkpoint>)
    requires AllIn(cps, signed)
    ensures AllIn(cps + [cp], signed + {cp}) && AllIn(cps, signed + {cp})
    ensures cp in signed ==> AllIn(cps + [cp], signed)
  {
  }

  lemma {:induction false} StepKeepsTracked(c: Scheme, signer: Signer, s: State, step: Step, t: State)
    requires Tracked(s) && Next(c, signer, s, step, t)
    ensures Tracked(t)
  {
    match step
    case SignHead(signedAt) =>
      var cp := NewCheckpoint(c, signer, s.core, signedAt);
      CheckpointMoves(s.signedOnly, cp, s.signed);
      CheckpointMoves(s.durableOnly, cp, s.signed);
      CheckpointIsListed(s.core.checkpoints, cp, s.signed);
      CheckpointIsListed(s.core.durableCheckpoints, cp, s.signed);
      assert Within(s.durableOnly, t.signed);
    case CheckpointRefused(cp) => CheckpointMoves(s.signedOnly, cp, s.signed);
    case CheckpointWritten(cp) =>
      CheckpointMoves(s.signedOnly, cp, s.signed);
      CheckpointMoves(s.durableOnly, cp, s.signed);
      CheckpointIsListed(s.core.durableCheckpoints, cp, s.signed);
    case CheckpointStoredButRefused(cp) =>
      CheckpointMoves(s.signedOnly, cp, s.signed);
      CheckpointIsListed(s.core.durableCheckpoints, cp, s.signed);
    case CheckpointRemembered(cp) =>
      CheckpointMoves(s.durableOnly, cp, s.signed);
      CheckpointIsListed(s.core.checkpoints, cp, s.signed);
    case _ =>
  }

  lemma {:induction false} RunKeepsTracked(c: Scheme, signer: Signer, states: seq<State>, steps: seq<Step>, k: nat)
    requires IsRun(c, signer, states, steps) && k < |states|
    ensures Tracked(states[k])
  {
    if k > 0 {
      RunKeepsTracked(c, signer, states, steps, k - 1);
      StepKeepsTracked(c, signer, states[k - 1], steps[k - 1], states[k]);
    }
  }

  /** Until the log is forked, every checkpoint ever signed covers an entry that memory holds. */
  lemma {:induction false} RunKeepsCovered(c: Scheme, signer: Signer, key: PublicKey,
                                           states: seq<State>, steps: seq<Step>, k: nat)
    requires SignerWorks(c, signer, key) && PayloadIgnoresSignature(c)
    requires IsRun(c, signer, states, steps) && k < |states| && !Forks(steps, k)
    ensures Sound(c, states[k].core) && SignedCovered(c, signer, key, states[k])
  {
    RunForm(c, signer, states, steps, k);
    if k > 0 {
      var s, step, t := states[k - 1], steps[k - 1], states[k];
      ForksStep(steps, k - 1);
      RunForm(c, signer, states, steps, k - 1);
      RunKeepsCovered(c, signer, key, states, steps, k - 1);
      if Writes(step) {
        WriteKeepsSound(c, signer, s, step, t);
      } else {
        QuietStepKeepsSound(c, signer, s, step, t);
      }
      StepKeepsCovered(c, signer, key, s, step, t);
    }
  }

  // ---- what runs promise ----

  /** Whether the verifier, trusting the chain's key, finds nothing wrong. */
  ghost predicate Clean(c: Scheme, signer: Signer, trusted: TrustedKeys, es: seq<AuditEntry>, cps: seq<Checkpoint>) {
    Failures(c, trusted, AuditBundle(signer.tenant, es, cps)) == []
  }

  ghost predicate TrustsChain(signer: Signer, key: PublicKey, trusted: TrustedKeys) {
    signer.keyId in trusted && trusted[signer.keyId] == key
  }

  lemma {:induction false} CoveredLogIsClean(c: Scheme, signer: Signer, key: PublicKey, trusted: TrustedKeys,
                                             es: seq<AuditEntry>, cps: seq<Checkpoint>)
    requires ValidLog(es) && WellChained(c, es) && TrustsChain(signer, key, trusted)
    requires forall i :: 0 <= i < |cps| ==> Covers(c, signer, key, es, cps[i])
    ensures Clean(c, signer, trusted, es, cps)
  {
    var b := AuditBundle(signer.tenant, es, cps);
    CleanMeansLinked(c, es, |es|);
    HashAtLinked(c, es, |es|);
    forall i | 0 <= i < |cps| ensures CheckpointFailures(c, trusted, es, cps[i]) == [] {
      assert Covers(c, signer, key, es, cps[i]);
    }
    EveryCheckpointClean(c, trusted, b, |cps|);
  }

  /**
   In every state of every run that has not forked the log, what the sink holds and what the
   process would export both verify without a failure, and every durable checkpoint covers a
   durable entry. A write that fails without leaving its record never forks the log.
   */
  lemma {:induction false} HonestRunsVerify(c: Scheme, signer: Signer, key: PublicKey, trusted: TrustedKeys,
                                            states: seq<State>, steps: seq<Step>, k: nat)
    requires SignerWorks(c, signer, key) && PayloadIgnoresSignature(c) && TrustsChain(signer, key, trusted)
    requires IsRun(c, signer, states, steps) && k < |states| && !Forks(steps, k)
    ensures var s := states[k].core;
            && Clean(c, signer, trusted, s.durableEntries, s.durableCheckpoints)
            && Clean(c, signer, trusted, s.entries, s.checkpoints)
            && (forall i :: 0 <= i < |s.durableCheckpoints| ==>
                  Covers(c, signer, key, s.durableEntries, s.durableCheckpoints[i]))
  {
    RunKeepsCovered(c, signer, key, states, steps, k);
    RunKeepsTracked(c, signer, states, steps, k);
    var s := states[k].core;
    forall cp | cp in states[k].signed ensures Covers(c, signer, key, s.durableEntries, cp) {
      assert Covers(c, signer, key, s.entries, cp);
      assert s.durableEntries[cp.sequence] == s.entries[cp.sequence];
    }
    CoveredLogIsClean(c, signer, key, trusted, s.durableEntries, s.durableCheckpoints);
    CoveredLogIsClean(c, signer, key, trusted, s.entries, s.checkpoints);
  }

  /**
   The exact condition, over every run: the durable log verifies if and only if no record was
   written after one was left behind and before the next restart.
   */
  lemma {:induction false} LogVerifiesExactly(c: Scheme, signer: Signer, key: PublicKey, trusted: TrustedKeys,
                                              states: seq<State>, steps: seq<Step>, k: nat)
    requires SignerWorks(c, signer, key) && PayloadIgnoresSignature(c) && TrustsChain(signer, key, trusted)
    requires IsRun(c, signer, states, steps) && k < |states|
    ensures var s := states[k].core;
            Clean(c, signer, trusted, s.durableEntries, s.durableCheckpoints) <==> !Forks(steps, k)
  {
    if Forks(steps, k) {
      RunForm(c, signer, states, steps, k);
      CleanMeansLinked(c, states[k].core.durableEntries, |states[k].core.durableEntries|);
    } else {
      HonestRunsVerify(c, signer, key, trusted, states, steps, k);
    }
  }

  /** Nothing a run has made durable is ever lost or changed, crashes and forks included. */
  lemma {:induction false} EvidenceSurvives(c: Scheme, signer: Signer, states: seq<State>, steps: seq<Step>,
                                            j: nat, k: nat)
    requires IsRun(c, signer, states, steps) && j <= k < |states|
    ensures states[j].core.durableEntries <= states[k].core.durableEntries
  {
    if j < k {
      EvidenceSurvives(c, signer, states, steps, j, k - 1);
      StepGrows(c, signer, states[k - 1], steps[k - 1], states[k]);
    }
  }

  /**
   End to end: in any state of any run that has not forked the log, any bundle the verifier
   passes while trusting the chain's key, and whose verified checkpoints the chain signed,
   shows the chain's own history up to each checkpoint, or a collision.
   */
  lemma {:induction false} VerifiedMeansHonest(c: Scheme, signer: Signer, key: PublicKey, trusted: TrustedKeys,
                                               states: seq<State>, steps: seq<Step>, k: nat, b: AuditBundle, i: nat)
    requires LinksCommit(c) && ContentsCommit(c) && PayloadsCommit(c)
    requires SignerWorks(c, signer, key) && PayloadIgnoresSignature(c) && TrustsChain(signer, key, trusted)
    requires IsRun(c, signer, states, steps) && k < |states| && !Forks(steps, k)
    requires Unforged(c, trusted, b, states[k].signed)
    requires ValidLog(b.entries) && Failures(c, trusted, b) == []
    requires i < |b.checkpoints| && b.checkpoints[i].sequence < U64_LIMIT
    ensures var n, honest := b.checkpoints[i].sequence, states[k].core.durableEntries;
            && n < |b.entries| && n < |honest|
            && (ClashUpTo(c, b.entries, honest, n) || SameHistory(b.entries, honest, n))
  {
    RunKeepsCovered(c, signer, key, states, steps, k);
    var s := states[k].core;
    forall cp | cp in states[k].signed
      ensures cp.sequence < |s.durableEntries| && cp.sequence < U64_LIMIT
              && cp.chainHash == s.durableEntries[cp.sequence].chainHash
    {
      assert Covers(c, signer, key, s.entries, cp);
      assert s.durableEntries[cp.sequence] == s.entries[cp.sequence];
    }
    NoForgedHistory(c, trusted, b, i, s.durableEntries, states[k].signed);
  }

  /** The chain's own log is such a bundle: it verifies, and its checkpoints are its own. */
  lemma {:induction false} OwnLogQualifies(c: Scheme, signer: Signer, key: PublicKey, trusted: TrustedKeys,
                                           states: seq<State>, steps: seq<Step>, k: nat)
    requires SignerWorks(c, signer, key) && PayloadIgnoresSignature(c) && TrustsChain(signer, key, trusted)
    requires IsRun(c, signer, states, steps) && k < |states| && !Forks(steps, k)
    ensures var s := states[k].core;
            var b := AuditBundle(signer.tenant, s.durableEntries, s.durableCheckpoints);
            ValidLog(b.entries) && Failures(c, trusted, b) == [] && Unforged(c, trusted, b, states[k].signed)
  {
    HonestRunsVerify(c, signer, key, trusted, states, steps, k);
    RunForm(c, signer, states, steps, k);
    RunKeepsTracked(c, signer, states, steps, k);
    var s := states[k].core;
    forall i | 0 <= i < |s.durableCheckpoints|
      ensures CheckpointUnforged(c, trusted, s.durableCheckpoints[i], states[k].signed)
    {
      assert s.durableCheckpoints[i] in states[k].signed;
      assert WasSigned(c, states[k].signed, c.payloadText(s.durableCheckpoints[i]));
    }
  }
}
