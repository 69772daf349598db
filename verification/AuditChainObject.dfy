/**
 The chain and its sink as the objects that are updated in place. Each method's effect is one
 of the functions of the state machine, so what is proved of runs holds of these objects.
 */
module DurableChain {
  import opened Json
  import opened ContentHashes
  import opened AuditLog
  import opened AuditChains

  /**
   How a write to the sink ends. A failed flush reports an error although the line has been
   written.
   */
  datatype Write = Stored | NotStored | StoredButReported

  class FileAuditSink {
    var entries: seq<AuditEntry>
    var checkpoints: seq<Checkpoint>

    constructor ()
      ensures entries == [] && checkpoints == []
    {
      entries, checkpoints := [], [];
    }

    method Append(e: AuditEntry, w: Write) returns (ok: bool)
      modifies this`entries
      ensures ok <==> w.Stored?
      ensures entries == if w.NotStored? then old(entries) else old(entries) + [e]
    {
      if !w.NotStored? {
        entries := entries + [e];
      }
      return w.Stored?;
    }

    method AppendCheckpoint(cp: Checkpoint, w: Write) returns (ok: bool)
      modifies this`checkpoints
      ensures ok <==> w.Stored?
      ensures checkpoints == if w.NotStored? then old(checkpoints) else old(checkpoints) + [cp]
    {
      if !w.NotStored? {
        checkpoints := checkpoints + [cp];
      }
      return w.Stored?;
    }
  }

  class AuditChain {
    const scheme: Scheme
    const signer: Signer
    const sink: FileAuditSink
    var entries: seq<AuditEntry>
    var checkpoints: seq<Checkpoint>
    var nextSequence: nat
    var head: Option<ContentHash>

    function View(): Core
      reads this, sink
    {
      Core(entries, checkpoints, nextSequence, head, sink.entries, sink.checkpoints)
    }

    /** Starting over a sink resumes the chain it holds, rather than a second one from zero. */
    constructor (scheme: Scheme, signer: Signer, sink: FileAuditSink)
      ensures this.scheme == scheme && this.signer == signer && this.sink == sink
      ensures forall before: Core ::
                before.durableEntries == sink.entries && before.durableCheckpoints == sink.checkpoints ==>
                  View() == Recovered(before)
    {
      this.scheme, this.signer, this.sink := scheme, signer, sink;
      entries, checkpoints := sink.entries, sink.checkpoints;
      var n := |sink.entries|;
      nextSequence := if n == 0 then 0 else sink.entries[n - 1].sequence + 1;
      head := if n == 0 then None else Some(sink.entries[n - 1].chainHash);
    }

    /**
     Durable before acknowledged: memory advances only when the sink reports success, and then
     the two stay equal and well chained.
     */
    method Append(event: Event, w: Write) returns (envelope: Option<Envelope>)
      requires nextSequence + 1 < U64_LIMIT
      modifies this, sink
      ensures View() == match NewEntry(scheme, old(View()), event) {
                          case None => old(View())
                          case Some(e) =>
                            match w {
                              case Stored => Committed(old(View()), e)
                              case NotStored => old(View())
                              case StoredButReported => Written(old(View()), e)
                            }
                        }
      ensures envelope == (if NewEntry(scheme, old(View()), event).Some? && w.Stored?
                           then NewEntry(scheme, old(View()), event).value.event.integrity else None)
      ensures old(ChainInv(scheme, View())) && Valid(event.content) && !w.StoredButReported? ==>
                ChainInv(scheme, View())
    {
      ghost var before := View();
      envelope := None;
      match NewEntry(scheme, View(), event)
      case None =>
      case Some(e) =>
        var ok := sink.Append(e, w);
        if ok {
          entries := entries + [e];
          nextSequence := nextSequence + 1;
          head := Some(e.chainHash);
          envelope := e.event.integrity;
        }
        if ChainInv(scheme, before) && Valid(event.content) && !w.StoredButReported? {
          AppendKeepsChain(scheme, before, event);
        }
    }

    method SignHead(signedAt: string) returns (cp: Option<Checkpoint>)
      ensures cp == if head.Some? then Some(NewCheckpoint(scheme, signer, View(), signedAt)) else None
    {
      if head.None? {
        return None;
      }
      var sequence := if nextSequence == 0 then 0 else nextSequence - 1;
      var body := Checkpoint(signer.tenant, sequence, head.value, signedAt, signer.keyId, "");
      return Some(body.(signature := signer.sign(scheme.payloadText(body))));
    }

    /** The chain may move on between the signing and the write. */
    method Publish(cp: Checkpoint, w: Write) returns (ok: bool)
      modifies this`checkpoints, sink`checkpoints
      ensures ok <==> w.Stored?
      ensures View() == old(View()).(checkpoints := if w.Stored? then old(checkpoints) + [cp] else old(checkpoints),
                                     durableCheckpoints := if w.NotStored? then old(sink.checkpoints)
                                                           else old(sink.checkpoints) + [cp])
    {
      ok := sink.AppendCheckpoint(cp, w);
      if ok {
        checkpoints := checkpoints + [cp];
      }
    }

    method Export() returns (b: AuditBundle)
      ensures b == AuditBundle(signer.tenant, entries, checkpoints)
    {
      return AuditBundle(signer.tenant, entries, checkpoints);
    }
  }
}
