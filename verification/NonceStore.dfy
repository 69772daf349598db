/** The record of which capabilities have been redeemed, and the verifier that ends in it. */
module NonceStores {
  import opened Json
  import opened Capabilities

  datatype Use = Use(uses: nat, expiresAt: Time)

  type Store = map<string, Use>

  datatype Verdict = Accepted(useNumber: nat) | Replay(previousUses: nat)

  /** The record a redemption finds, made if it is missing. */
  function RecordOf(store: Store, nonce: string, expiresAt: Time): Use {
    if nonce in store then store[nonce] else Use(0, expiresAt)
  }

  function VerdictOn(store: Store, nonce: string, maxUses: nat, expiresAt: Time): Verdict {
    var e := RecordOf(store, nonce, expiresAt);
    if e.uses >= maxUses then Replay(e.uses) else Accepted(e.uses + 1)
  }

  function AfterUse(store: Store, nonce: string, maxUses: nat, expiresAt: Time): Store {
    var e := RecordOf(store, nonce, expiresAt);
    store[nonce := if e.uses >= maxUses then e else Use(e.uses + 1, e.expiresAt)]
  }

  function Purged(store: Store, now: Time): Store {
    map n | n in store && store[n].expiresAt > now :: store[n]
  }

  class InMemoryNonceStore {
    var entries: Store

    constructor ()
      ensures entries == map[]
    {
      entries := map[];
    }

    method Consume(nonce: string, maxUses: nat, expiresAt: Time) returns (verdict: Verdict)
      modifies this
      ensures verdict == VerdictOn(old(entries), nonce, maxUses, expiresAt)
      ensures entries == AfterUse(old(entries), nonce, maxUses, expiresAt)
    {
      if nonce !in entries {
        entries := entries[nonce := Use(0, expiresAt)];
      }
      var e := entries[nonce];
      if e.uses >= maxUses {
        return Replay(e.uses);
      }
      entries := entries[nonce := Use(e.uses + 1, e.expiresAt)];
      return Accepted(e.uses + 1);
    }

    method PurgeExpired(now: Time) returns (dropped: nat)
      modifies this
      ensures entries == Purged(old(entries), now)
      ensures dropped == |old(entries)| - |entries|
    {
      var before := entries;
      entries := map n | n in before && before[n].expiresAt > now :: before[n];
      assert entries.Keys <= before.Keys;
      Smaller(entries.Keys, before.Keys);
      assert |entries| == |entries.Keys| && |before| == |before.Keys|;
      dropped := |before| - |entries|;
    }
  }

  lemma {:induction false} Smaller<T>(a: set<T>, b: set<T>)
    requires a <= b
    ensures |a| <= |b|
  {
    if a != {} {
      var x :| x in a;
      Smaller(a - {x}, b - {x});
    }
  }

  datatype Verified = Verified(claims: Claims, useNumber: nat, verifiedAt: Time)

  /**
   Verify and count one use. A presentation that is not admitted leaves the store as it was;
   an admitted one is decided by the store alone.
   */
  method VerifyAndConsume(v: Verifier, nonces: InMemoryNonceStore, token: string, presented: PresentedAction, now: Time)
    returns (r: Option<Verified>)
    modifies nonces
    ensures Admit(v, token, presented, now).None? ==> r.None? && nonces.entries == old(nonces.entries)
    ensures Admit(v, token, presented, now).Some? ==>
              var c := Admit(v, token, presented, now).value;
              var verdict := VerdictOn(old(nonces.entries), c.nonce, c.maxUses, c.expiresAt);
              && nonces.entries == AfterUse(old(nonces.entries), c.nonce, c.maxUses, c.expiresAt)
              && r == if verdict.Accepted? then Some(Verified(c, verdict.useNumber, now)) else None
  {
    var claims := Authenticate(v, token);
    if claims.None? {
      return None;
    }
    var c := claims.value;
    if CheckLifetime(c, now, v.leewaySeconds).Some? {
      return None;
    }
    if CheckBinding(c, presented).Some? {
      return None;
    }
    var verdict := nonces.Consume(c.nonce, c.maxUses, c.expiresAt);
    match verdict
    case Accepted(n) => return Some(Verified(c, n, now));
    case Replay(_) => return None;
  }
}
