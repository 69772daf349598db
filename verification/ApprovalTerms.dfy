/** Who may approve an action on which several rules demand approval, and how long the request stays open. */
module ApprovalTerms {
  import opened Json
  import opened Ordering
  import opened Approvals
  import opened Capabilities

  /** A rule's demand: the roles it accepts and its lifetime, a 64-bit unsigned number of seconds. */
  datatype Demand = Demand(roles: seq<string>, ttlSeconds: nat)

  datatype Terms = Terms(roles: seq<string>, ttlSeconds: int)

  /** Reading an unsigned 64-bit number as a signed one. */
  function AsSigned(n: nat): int {
    var m := n % U64_LIMIT;
    if m < U64_LIMIT / 2 then m else m - U64_LIMIT
  }

  function CodePoints(s: string): (r: seq<int>) {
    seq(|s|, (k: nat) requires k < |s| => s[k] as int)
  }

  /** The roles that satisfy every demand; the defaults when there is none. */
  ghost predicate Suits(demands: seq<Demand>, defaults: seq<string>, role: string) {
    if demands == [] then role in defaults else forall k :: 0 <= k < |demands| ==> role in demands[k].roles
  }

  ghost predicate IsShortest(demands: seq<Demand>, ttl: int) {
    if demands == [] then ttl == GRANT_TTL_SECONDS
    else
      && (exists k :: 0 <= k < |demands| && AsSigned(demands[k].ttlSeconds) == ttl)
      && (forall k :: 0 <= k < |demands| ==> ttl <= AsSigned(demands[k].ttlSeconds))
  }

  /** Terms list exactly the suitable roles, in order and without repeats, and the shortest lifetime. */
  ghost predicate AreTerms(demands: seq<Demand>, defaults: seq<string>, t: Terms) {
    && (forall role :: role in t.roles <==> Suits(demands, defaults, role))
    && Ordered(CodePoints, t.roles) && NoRepeats(t.roles)
    && IsShortest(demands, t.ttlSeconds)
  }

  method Retain(xs: seq<string>, keep: seq<string>) returns (r: seq<string>)
    ensures forall x :: x in r <==> x in xs && x in keep
  {
    r := [];
    for i := 0 to |xs|
      invariant forall x :: x in r <==> x in xs[..i] && x in keep
    {
      assert xs[..i + 1] == xs[..i] + [xs[i]];
      if xs[i] in keep {
        r := r + [xs[i]];
      }
    }
    assert xs[..|xs|] == xs;
  }

  lemma {:induction false} CodePointsInjective(s: string, t: string)
    requires CodePoints(s) == CodePoints(t)
    ensures s == t
  {
    assert |s| == |CodePoints(s)| == |t|;
    forall k | 0 <= k < |s| ensures s[k] == t[k] {
      assert CodePoints(s)[k] == s[k] as int && CodePoints(t)[k] == t[k] as int;
    }
  }

  /** Dropping neighbours that repeat leaves an ordered list without repeats and with the same members. */
  method Dedup(xs: seq<string>) returns (r: seq<string>)
    requires Ordered(CodePoints, xs)
    ensures Ordered(CodePoints, r) && NoRepeats(r) && forall x :: x in r <==> x in xs
  {
    r := [];
    for i := 0 to |xs|
      invariant Ordered(CodePoints, r) && NoRepeats(r)
      invariant forall x :: x in r <==> x in xs[..i]
      invariant i > 0 ==> r != [] && r[|r| - 1] == xs[i - 1]
    {
      assert xs[..i + 1] == xs[..i] + [xs[i]];
      if r == [] || r[|r| - 1] != xs[i] {
        NewIsGreater(xs, r, i);
        r := r + [xs[i]];
      }
    }
    assert xs[..|xs|] == xs;
  }

  lemma {:induction false} NewIsGreater(xs: seq<string>, r: seq<string>, i: nat)
    requires Ordered(CodePoints, xs) && Ordered(CodePoints, r) && i < |xs|
    requires forall x :: x in r <==> x in xs[..i]
    requires r != [] ==> r[|r| - 1] != xs[i]
    ensures forall k :: 0 <= k < |r| ==> LexLe(CodePoints(r[k]), CodePoints(xs[i])) && r[k] != xs[i]
  {
    forall k | 0 <= k < |r| ensures LexLe(CodePoints(r[k]), CodePoints(xs[i])) {
      assert r[k] in xs[..i];
    }
    forall k | 0 <= k < |r| ensures r[k] != xs[i] {
      var last := r[|r| - 1];
      if r[k] == xs[i] && k < |r| - 1 {
        assert LexLe(CodePoints(r[k]), CodePoints(last)) && LexLe(CodePoints(last), CodePoints(xs[i]));
        LexAntisymmetric(CodePoints(last), CodePoints(xs[i]));
        CodePointsInjective(last, xs[i]);
        assert false;
      }
    }
  }

  ghost predicate AcceptedByFirst(demands: seq<Demand>, n: nat, role: string)
    requires n <= |demands|
  {
    forall k :: 0 <= k < n ==> role in demands[k].roles
  }

  /** The first rule's roles, less those another rule does not accept. */
  method CommonRoles(demands: seq<Demand>, defaults: seq<string>) returns (roles: seq<string>)
    ensures forall role :: role in roles <==> Suits(demands, defaults, role)
  {
    if demands == [] {
      return defaults;
    }
    roles := demands[0].roles;
    for i := 1 to |demands|
      invariant forall x :: x in roles <==> AcceptedByFirst(demands, i, x)
    {
      var before := roles;
      roles := Retain(roles, demands[i].roles);
      forall x ensures x in roles <==> AcceptedByFirst(demands, i + 1, x) {
        assert x in before <==> AcceptedByFirst(demands, i, x);
      }
    }
    forall x ensures x in roles <==> Suits(demands, defaults, x) {
      assert AcceptedByFirst(demands, |demands|, x) <==> Suits(demands, defaults, x);
    }
  }

  method ShortestLifetime(demands: seq<Demand>) returns (ttl: int)
    ensures IsShortest(demands, ttl)
  {
    ttl := GRANT_TTL_SECONDS;
    for i := 0 to |demands|
      invariant i == 0 ==> ttl == GRANT_TTL_SECONDS
      invariant i > 0 ==> exists k :: 0 <= k < i && AsSigned(demands[k].ttlSeconds) == ttl
      invariant i > 0 ==> forall k :: 0 <= k < i ==> ttl <= AsSigned(demands[k].ttlSeconds)
    {
      if i == 0 || AsSigned(demands[i].ttlSeconds) < ttl {
        ttl := AsSigned(demands[i].ttlSeconds);
      }
    }
  }

  /** The terms of the approval request, or nothing when no role suits every rule. */
  method ApprovalTermsFor(demands: seq<Demand>, defaults: seq<string>) returns (r: Option<Terms>)
    ensures r.None? <==> forall role :: !Suits(demands, defaults, role)
    ensures r.Some? ==> AreTerms(demands, defaults, r.value)
  {
    var common := CommonRoles(demands, defaults);
    SortByOrders(CodePoints, common);
    var roles := Dedup(SortBy(CodePoints, common));
    forall role ensures role in roles <==> Suits(demands, defaults, role) {
      SameMultisetSameMembers(SortBy(CodePoints, common), common, role);
    }
    if roles == [] {
      return None;
    }
    assert Suits(demands, defaults, roles[0]);
    var ttl := ShortestLifetime(demands);
    return Some(Terms(roles, ttl));
  }

  lemma {:induction false} SameSuits(a: seq<Demand>, b: seq<Demand>, defaults: seq<string>, role: string)
    requires multiset(a) == multiset(b)
    ensures Suits(a, defaults, role) ==> Suits(b, defaults, role)
  {
    if Suits(a, defaults, role) {
      assert a == [] ==> |multiset(b)| == 0;
      forall k | 0 <= k < |b| ensures role in b[k].roles {
        SameMultisetSameMembers(a, b, b[k]);
        assert b[k] in a;
      }
    }
  }

  lemma {:induction false} ShorterThan(a: seq<Demand>, b: seq<Demand>, t: int, u: int)
    requires multiset(a) == multiset(b) && IsShortest(a, t) && IsShortest(b, u)
    ensures t <= u
  {
    if b == [] {
      assert |multiset(a)| == 0;
    } else {
      var k :| 0 <= k < |b| && AsSigned(b[k].ttlSeconds) == u;
      SameMultisetSameMembers(a, b, b[k]);
      assert b[k] in a;
      var j :| 0 <= j < |a| && a[j] == b[k];
    }
  }

  /** The lifetime the rules mean: the least of theirs. */
  ghost predicate IsLeast(demands: seq<Demand>, ttl: int) {
    && (exists k :: 0 <= k < |demands| && demands[k].ttlSeconds == ttl)
    && (forall k :: 0 <= k < |demands| ==> ttl <= demands[k].ttlSeconds)
  }

  /** The terms carry the least lifetime if and only if every rule's is below 2^63 seconds. */
  lemma {:induction false} LifetimeIsLeastExactly(demands: seq<Demand>, ttl: int)
    requires demands != [] && IsShortest(demands, ttl)
    requires forall k :: 0 <= k < |demands| ==> demands[k].ttlSeconds < U64_LIMIT
    ensures IsLeast(demands, ttl) <==> forall k :: 0 <= k < |demands| ==> demands[k].ttlSeconds < U64_LIMIT / 2
  {
    var k :| 0 <= k < |demands| && AsSigned(demands[k].ttlSeconds) == ttl;
    forall j | 0 <= j < |demands|
      ensures ttl <= AsSigned(demands[j].ttlSeconds)
      ensures AsSigned(demands[j].ttlSeconds)
              == demands[j].ttlSeconds - if demands[j].ttlSeconds < U64_LIMIT / 2 then 0 else U64_LIMIT
    {
    }
  }

  /** Otherwise the request is open for 30 seconds, whatever the rules say. */
  lemma {:induction false} WrappedLifetimeIsShortest(demands: seq<Demand>, ttl: int, j: nat, id: string, retry: Retry,
                                                     requester: string, roles: seq<string>, now: Time)
    requires j < |demands| && U64_LIMIT / 2 <= demands[j].ttlSeconds < U64_LIMIT && IsShortest(demands, ttl)
    ensures NewRequest(id, retry, requester, roles, ttl, now).expiresAt == now + 30 * SECOND
  {
    assert ttl <= AsSigned(demands[j].ttlSeconds) < 0;
  }

  /** At 2^63 seconds and one day, the two rules together give 30 seconds rather than a day. */
  lemma {:induction false} WrappedLifetimeExample(roles: seq<string>, id: string, retry: Retry, requester: string,
                                                  now: Time)
    ensures var demands := [Demand(roles, 86_400), Demand(roles, 0x8000_0000_0000_0000)];
            && IsLeast(demands, 86_400) && !IsShortest(demands, 86_400)
            && exists ttl :: IsShortest(demands, ttl)
                 && NewRequest(id, retry, requester, roles, ttl, now).expiresAt == now + 30 * SECOND
  {
    var demands := [Demand(roles, 86_400), Demand(roles, 0x8000_0000_0000_0000)];
    var ttl := AsSigned(0x8000_0000_0000_0000);
    assert demands[0].ttlSeconds == 86_400 && AsSigned(demands[0].ttlSeconds) == 86_400;
    assert demands[1].ttlSeconds == 0x8000_0000_0000_0000 && AsSigned(demands[1].ttlSeconds) == ttl < 0;
    assert IsShortest(demands, ttl);
    WrappedLifetimeIsShortest(demands, ttl, 1, id, retry, requester, roles, now);
  }

  lemma {:induction false} SameSetSameMultiset(xs: seq<string>, ys: seq<string>)
    requires NoRepeats(xs) && NoRepeats(ys) && forall x :: x in xs <==> x in ys
    ensures multiset(xs) == multiset(ys)
  {
    forall x ensures multiset(xs)[x] == multiset(ys)[x] {
      NoRepeatsCounts(xs, x);
      NoRepeatsCounts(ys, x);
    }
  }

  /** The terms are the same for every order in which the rules' demands are listed. */
  lemma {:induction false} TermsIgnoreOrder(a: seq<Demand>, b: seq<Demand>, defaults: seq<string>, t: Terms, u: Terms)
    requires multiset(a) == multiset(b) && AreTerms(a, defaults, t) && AreTerms(b, defaults, u)
    ensures t == u
  {
    forall role ensures role in t.roles <==> role in u.roles {
      SameSuits(a, b, defaults, role);
      SameSuits(b, a, defaults, role);
    }
    SameSetSameMultiset(t.roles, u.roles);
    forall x, y | x in t.roles && y in t.roles && CodePoints(x) == CodePoints(y) ensures x == y {
      CodePointsInjective(x, y);
    }
    OrderedIsUnique(CodePoints, t.roles, u.roles);
    ShorterThan(a, b, t.ttlSeconds, u.ttlSeconds);
    ShorterThan(b, a, u.ttlSeconds, t.ttlSeconds);
  }

  /** Whoever may approve under the terms holds one role that every rule accepts, and is an independent human. */
  lemma {:induction false} ApproverSatisfiesEveryRule(demands: seq<Demand>, defaults: seq<string>, t: Terms,
                                                      p: Principal, r: ApprovalRequest)
    requires AreTerms(demands, defaults, t) && r.roles == t.roles && MayApprove(p, r)
    ensures exists role :: role in p.roles && Suits(demands, defaults, role)
    ensures p.kind.Human? && p.tenant == r.tenant && p.id != r.requester
  {
    var role :| role in r.roles && role in p.roles;
    assert Suits(demands, defaults, role);
  }
}
