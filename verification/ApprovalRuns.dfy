/** Approvals over whole runs: each grant is spent at most once, and never after a rejection. */
module ApprovalRuns {
  import opened Json
  import opened Capabilities
  import opened Approvals

  datatype Event =
    | WasRequested(request: ApprovalRequest)
    | WasGranted(grant: Grant, approver: Principal, request: ApprovalRequest)
    | WasClosed(id: string)
    | WasSpent(grant: Grant, retry: Retry, at: Time)

  /** The approvals, and the history of what happened to them. */
  datatype Desk = Desk(book: Book, log: seq<Event>)

  datatype DeskStep =
    | Raise(request: ApprovalRequest)
    | Approve(id: string, approver: Principal, now: Time, nonce: string)
    | Reject(id: string)
    | Spend(token: string, retry: Retry, now: Time)

  function Noted(s: Desk, book: Book, e: Event): Desk { Desk(book, s.log + [e]) }

  function Approved(s: Desk, id: string, p: Principal, now: Time, nonce: string): Desk {
    var book := AfterGrant(s.book, id, p, now, nonce);
    match CheckGrant(s.book, id, p, now)
    case None => Noted(s, book, WasGranted(NewGrant(s.book[id].request, p, now, nonce), p, s.book[id].request))
    case Some(RequestExpired) => Noted(s, book, WasClosed(id))
    case Some(_) => s
  }

  function Closed(s: Desk, id: string): Desk {
    if id in s.book then Noted(s, AfterReject(s.book, id), WasClosed(id)) else s
  }

  function AfterPresenting(s: Desk, k: ApprovalKey, token: string, retry: Retry, now: Time): Desk {
    var spent := Spends(s.book, k, token, retry, now);
    if spent.Some? then Noted(s, AfterSpend(s.book, spent), WasSpent(spent.value, retry, now)) else s
  }

  /** A signature that verifies was made for a grant that was given. */
  ghost predicate GrantUnforged(k: ApprovalKey, s: Desk, token: string) {
    SignedBody(k, token).Some? ==>
      exists j :: 0 <= j < |s.log| && s.log[j].WasGranted? && SignedBody(k, token).value == k.write(s.log[j].grant)
  }

  ghost predicate DeskNext(k: ApprovalKey, s: Desk, step: DeskStep, t: Desk) {
    match step
    case Raise(r) => r.id !in s.book && t == Noted(s, AfterRequest(s.book, r), WasRequested(r))
    case Approve(id, p, now, nonce) => t == Approved(s, id, p, now, nonce)
    case Reject(id) => t == Closed(s, id)
    case Spend(token, retry, now) => GrantUnforged(k, s, token) && t == AfterPresenting(s, k, token, retry, now)
  }

  ghost predicate IsDeskRun(k: ApprovalKey, states: seq<Desk>, steps: seq<DeskStep>) {
    && |states| == |steps| + 1 && states[0] == Desk(map[], [])
    && forall j {:trigger steps[j]} :: 0 <= j < |steps| ==> DeskNext(k, states[j], steps[j], states[j + 1])
  }

  // ---- what the history always looks like ----

  predicate GrantsId(e: Event, id: string) { e.WasGranted? && e.grant.id == id }

  /** The approval is over: rejected, lapsed or spent. */
  predicate Settles(e: Event, id: string) {
    (e.WasClosed? && e.id == id) || (e.WasSpent? && e.grant.id == id)
  }

  predicate Unsettled(log: seq<Event>, n: nat, id: string)
    requires n <= |log|
  {
    forall j :: 0 <= j < n ==> !Settles(log[j], id)
  }

  predicate Ungranted(log: seq<Event>, n: nat, id: string)
    requires n <= |log|
  {
    forall j :: 0 <= j < n ==> !GrantsId(log[j], id)
  }

  /** Some earlier event gave exactly this grant. */
  ghost predicate GrantedBefore(log: seq<Event>, n: nat, g: Grant)
    requires n <= |log|
  {
    exists j :: 0 <= j < n && log[j].WasGranted? && log[j].grant == g
  }

  /** Some earlier event raised exactly this request. */
  ghost predicate RequestedBefore(log: seq<Event>, n: nat, r: ApprovalRequest)
    requires n <= |log|
  {
    exists j :: 0 <= j < n && log[j] == WasRequested(r)
  }

  /** A grant is given once, before anything settles it, by someone entitled, for what was requested before. */
  ghost predicate GrantInOrder(log: seq<Event>, j: nat)
    requires j < |log| && log[j].WasGranted?
  {
    var g, p, r := log[j].grant, log[j].approver, log[j].request;
    && RequestedBefore(log, j, r) && Ungranted(log, j, g.id) && Unsettled(log, j, g.id)
    && MayApprove(p, r) && g == NewGrant(r, p, g.grantedAt, g.nonce) && g.grantedAt < r.expiresAt
  }

  /** A grant is spent after it was given, at most once, and never after a rejection. */
  ghost predicate SpentInOrder(log: seq<Event>, j: nat)
    requires j < |log| && log[j].WasSpent?
  {
    var g := log[j].grant;
    && GrantedBefore(log, j, g) && Unsettled(log, j, g.id)
    && log[j].retry == OwnRetry(g) && log[j].at < g.expiresAt
  }

  ghost predicate InOrder(log: seq<Event>, j: nat)
    requires j < |log|
  {
    (log[j].WasGranted? ==> GrantInOrder(log, j)) && (log[j].WasSpent? ==> SpentInOrder(log, j))
  }

  ghost predicate Orderly(log: seq<Event>) {
    forall j :: 0 <= j < |log| ==> InOrder(log, j)
  }

  ghost predicate Filed(s: Desk, id: string)
    requires id in s.book
  {
    && s.book[id].request.id == id && RequestedBefore(s.log, |s.log|, s.book[id].request)
    && (s.book[id].state.Pending? ==> Ungranted(s.log, |s.log|, id) && Unsettled(s.log, |s.log|, id))
    && (s.book[id].state.Granted? ==> Unsettled(s.log, |s.log|, id))
  }

  ghost predicate AllFiled(s: Desk) {
    forall id :: id in s.book ==> Filed(s, id)
  }

  /** Nothing is granted or settled that was never requested. */
  ghost predicate Known(s: Desk) {
    forall j, id :: 0 <= j < |s.log| && (GrantsId(s.log[j], id) || Settles(s.log[j], id)) ==> id in s.book
  }

  /** The grant given at `j` can still be spent. */
  ghost predicate Spendable(s: Desk, j: nat)
    requires j < |s.log| && s.log[j].WasGranted?
  {
    var g := s.log[j].grant;
    g.id in s.book && s.book[g.id].state.Granted? && s.book[g.id].nonce == Some(g.nonce)
  }

  /** Every grant that nothing has settled can still be spent. */
  ghost predicate AllHeld(s: Desk) {
    forall j :: 0 <= j < |s.log| && s.log[j].WasGranted? && Unsettled(s.log, |s.log|, s.log[j].grant.id) ==>
      Spendable(s, j)
  }

  ghost predicate DeskInv(s: Desk) {
    Orderly(s.log) && AllFiled(s) && Known(s) && AllHeld(s)
  }

  // ---- appending to the history ----

  lemma {:induction false} PrefixInOrder(log: seq<Event>, e: Event, j: nat)
    requires j < |log| && InOrder(log, j)
    ensures InOrder(log + [e], j)
  {
    var more := log + [e];
    assert more[j] == log[j] && forall i :: 0 <= i < j ==> more[i] == log[i];
    if log[j].WasSpent? {
      GrantedStays(log, e, j, log[j].grant);
    } else if log[j].WasGranted? {
      RequestedStays(log, e, j, log[j].request);
    }
  }

  lemma {:induction false} GrantedStays(log: seq<Event>, e: Event, n: nat, g: Grant)
    requires n <= |log| && GrantedBefore(log, n, g)
    ensures GrantedBefore(log + [e], n, g)
  {
    var i :| 0 <= i < n && log[i].WasGranted? && log[i].grant == g;
    assert (log + [e])[i] == log[i];
  }

  lemma {:induction false} RequestedStays(log: seq<Event>, e: Event, n: nat, r: ApprovalRequest)
    requires n <= |log| && RequestedBefore(log, n, r)
    ensures RequestedBefore(log + [e], n, r) && RequestedBefore(log + [e], |log| + 1, r)
  {
    var i :| 0 <= i < n && log[i] == WasRequested(r);
    assert (log + [e])[i] == log[i];
  }

  lemma {:induction false} OrderlyGrows(log: seq<Event>, e: Event)
    requires Orderly(log) && InOrder(log + [e], |log|)
    ensures Orderly(log + [e])
  {
    forall j | 0 <= j < |log| + 1 ensures InOrder(log + [e], j) {
      if j < |log| { PrefixInOrder(log, e, j); }
    }
  }

  lemma {:induction false} OthersStayFiled(s: Desk, book: Book, e: Event, id: string)
    requires id in s.book && id in book && book[id] == s.book[id] && Filed(s, id)
    requires !GrantsId(e, id) && !Settles(e, id)
    ensures Filed(Noted(s, book, e), id)
  {
    RequestedStays(s.log, e, |s.log|, s.book[id].request);
  }

  /** What is not granted now is held as before, if nothing else about the book changes. */
  lemma {:induction false} HeldStays(s: Desk, book: Book, e: Event, id: string)
    requires AllHeld(s) && (forall x :: x in s.book && x != id ==> x in book && book[x] == s.book[x])
    requires Known(s) && (Settles(e, id) || Ungranted(s.log, |s.log|, id))
    requires e.WasGranted? ==> Spendable(Noted(s, book, e), |s.log|)
    ensures AllHeld(Noted(s, book, e))
  {
    var t := Noted(s, book, e);
    forall j | 0 <= j < |t.log| && t.log[j].WasGranted? && Unsettled(t.log, |t.log|, t.log[j].grant.id)
      ensures Spendable(t, j)
    {
      if j < |s.log| {
        assert t.log[j] == s.log[j] && GrantsId(s.log[j], s.log[j].grant.id);
        assert !Settles(t.log[|s.log|], t.log[j].grant.id);
        assert forall i :: 0 <= i < |s.log| ==> t.log[i] == s.log[i];
        assert Unsettled(s.log, |s.log|, s.log[j].grant.id);
        assert Spendable(s, j);
      }
    }
  }

  // ---- the steps ----

  lemma {:induction false} RaiseKeeps(s: Desk, r: ApprovalRequest)
    requires DeskInv(s) && r.id !in s.book
    ensures DeskInv(Noted(s, AfterRequest(s.book, r), WasRequested(r)))
  {
    var t := Noted(s, AfterRequest(s.book, r), WasRequested(r));
    OrderlyGrows(s.log, WasRequested(r));
    assert t.log[|s.log|] == WasRequested(r);
    assert Ungranted(s.log, |s.log|, r.id);
    HeldStays(s, t.book, WasRequested(r), r.id);
    forall id | id in t.book ensures Filed(t, id) {
      if id != r.id { OthersStayFiled(s, t.book, WasRequested(r), id); }
    }
  }

  lemma {:induction false} ClosingKeeps(s: Desk, id: string)
    requires DeskInv(s) && id in s.book
    ensures DeskInv(Noted(s, s.book[id := s.book[id].(state := Rejected)], WasClosed(id)))
  {
    var t := Noted(s, s.book[id := s.book[id].(state := Rejected)], WasClosed(id));
    OrderlyGrows(s.log, WasClosed(id));
    HeldStays(s, t.book, WasClosed(id), id);
    assert Filed(s, id);
    RequestedStays(s.log, WasClosed(id), |s.log|, s.book[id].request);
    forall x | x in t.book ensures Filed(t, x) {
      if x != id { OthersStayFiled(s, t.book, WasClosed(id), x); }
    }
  }

  lemma {:induction false} GrantKeeps(s: Desk, id: string, p: Principal, now: Time, nonce: string)
    requires DeskInv(s) && CheckGrant(s.book, id, p, now).None?
    ensures DeskInv(Approved(s, id, p, now, nonce))
  {
    var t := Approved(s, id, p, now, nonce);
    var e := WasGranted(NewGrant(s.book[id].request, p, now, nonce), p, s.book[id].request);
    assert Filed(s, id);
    RequestedStays(s.log, e, |s.log|, s.book[id].request);
    assert InOrder(s.log + [e], |s.log|);
    OrderlyGrows(s.log, e);
    HeldStays(s, t.book, e, id);
    forall x | x in t.book ensures Filed(t, x) {
      if x != id { OthersStayFiled(s, t.book, e, x); }
    }
  }

  lemma {:induction false} ApproveKeeps(s: Desk, id: string, p: Principal, now: Time, nonce: string)
    requires DeskInv(s)
    ensures DeskInv(Approved(s, id, p, now, nonce))
  {
    match CheckGrant(s.book, id, p, now)
    case None => GrantKeeps(s, id, p, now, nonce);
    case Some(RequestExpired) => ClosingKeeps(s, id);
    case Some(_) =>
  }

  lemma {:induction false} SpendingKeeps(s: Desk, g: Grant, retry: Retry, now: Time)
    requires DeskInv(s) && GrantedBefore(s.log, |s.log|, g) && g.id in s.book && s.book[g.id].state.Granted?
    requires retry == OwnRetry(g) && now < g.expiresAt
    ensures DeskInv(Noted(s, AfterSpend(s.book, Some(g)), WasSpent(g, retry, now)))
  {
    var e := WasSpent(g, retry, now);
    var t := Noted(s, AfterSpend(s.book, Some(g)), e);
    assert Filed(s, g.id);
    GrantedStays(s.log, e, |s.log|, g);
    RequestedStays(s.log, e, |s.log|, s.book[g.id].request);
    assert InOrder(t.log, |s.log|);
    OrderlyGrows(s.log, e);
    HeldStays(s, t.book, e, g.id);
    forall x | x in t.book ensures Filed(t, x) {
      if x != g.id { OthersStayFiled(s, t.book, e, x); }
    }
  }

  lemma {:induction false} DeskStepKeeps(k: ApprovalKey, s: Desk, step: DeskStep, t: Desk)
    requires KeyWorks(k) && DeskInv(s) && DeskNext(k, s, step, t)
    ensures DeskInv(t)
  {
    match step
    case Raise(r) => RaiseKeeps(s, r);
    case Approve(id, p, now, nonce) => ApproveKeeps(s, id, p, now, nonce);
    case Reject(id) => if id in s.book { ClosingKeeps(s, id); }
    case Spend(token, retry, now) =>
      if Spends(s.book, k, token, retry, now).Some? {
        SpendingKeeps(s, Spends(s.book, k, token, retry, now).value, retry, now);
      }
  }

  /**
   In every run, every grant was given once by a human entitled to give it; every spending
   follows its grant, spends the very action granted, and is the first thing to settle it.
   */
  lemma {:induction false} HistoryIsOrderly(k: ApprovalKey, states: seq<Desk>, steps: seq<DeskStep>, n: nat)
    requires KeyWorks(k) && IsDeskRun(k, states, steps) && n < |states|
    ensures DeskInv(states[n])
  {
    if n > 0 {
      HistoryIsOrderly(k, states, steps, n - 1);
      DeskStepKeeps(k, states[n - 1], steps[n - 1], states[n]);
    }
  }

  /**
   Conversely, in every run, a grant that nothing has settled is spent by its own token for its
   own action within 900 s of being given.
   */
  lemma {:induction false} GrantCanBeSpent(k: ApprovalKey, s: Desk, j: nat, now: Time)
    requires KeyWorks(k) && DeskInv(s) && j < |s.log| && s.log[j].WasGranted?
    requires var g := s.log[j].grant;
             Unsettled(s.log, |s.log|, g.id) && now < g.grantedAt + 900 * SECOND
    ensures var g := s.log[j].grant;
            && GrantUnforged(k, s, GrantToken(k, g))
            && AfterPresenting(s, k, GrantToken(k, g), OwnRetry(g), now).log == s.log + [WasSpent(g, OwnRetry(g), now)]
  {
    var g := s.log[j].grant;
    assert InOrder(s.log, j) && Spendable(s, j);
    OwnTokenSpends(s.book, k, g, now);
    GrantBodyReadsBack(k, g);
  }

  lemma {:induction false} UnsettledGrantIsSpent(k: ApprovalKey, states: seq<Desk>, steps: seq<DeskStep>, n: nat,
                                                 j: nat, now: Time)
    requires KeyWorks(k) && IsDeskRun(k, states, steps) && n < |states|
    requires j < |states[n].log| && states[n].log[j].WasGranted?
    requires var g := states[n].log[j].grant;
             Unsettled(states[n].log, |states[n].log|, g.id) && now < g.grantedAt + 900 * SECOND
    ensures var s, g := states[n], states[n].log[j].grant;
            && GrantUnforged(k, s, GrantToken(k, g))
            && AfterPresenting(s, k, GrantToken(k, g), OwnRetry(g), now).log == s.log + [WasSpent(g, OwnRetry(g), now)]
  {
    HistoryIsOrderly(k, states, steps, n);
    GrantCanBeSpent(k, states[n], j, now);
  }

  /** A rejection of a known request is recorded, and from then on nothing spends the approval. */
  lemma {:induction false} RejectedIsNeverSpent(k: ApprovalKey, s: Desk, id: string, token: string, retry: Retry,
                                                now: Time)
    requires id in s.book
    ensures var t := Closed(s, id);
            && t.log == s.log + [WasClosed(id)]
            && (Spends(t.book, k, token, retry, now).Some? ==> Spends(t.book, k, token, retry, now).value.id != id)
  {
    RejectionHolds(s.book, k, id, token, retry, now);
  }

  /** Put as counts: two spendings of one approval are the same spending, and no rejection precedes it. */
  lemma {:induction false} SpentOnce(k: ApprovalKey, states: seq<Desk>, steps: seq<DeskStep>, n: nat, i: nat, j: nat)
    requires KeyWorks(k) && IsDeskRun(k, states, steps) && n < |states|
    requires i < |states[n].log| && states[n].log[i].WasSpent? && j < |states[n].log|
    ensures states[n].log[j].WasSpent? && states[n].log[j].grant.id == states[n].log[i].grant.id ==> i == j
    ensures states[n].log[j] == WasClosed(states[n].log[i].grant.id) ==> i < j
  {
    HistoryIsOrderly(k, states, steps, n);
    var log := states[n].log;
    assert InOrder(log, i) && InOrder(log, j);
  }
}
