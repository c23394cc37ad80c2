/** What evaluations amount to when the API server follows a policy, fixed or changing between calls. */
module Policies {
  import opened Regexps
  import opened Responses
  import opened CacheKeys
  import opened Decisions

  /** Replies depend on the bearer token and the question. */
  datatype Policy = Policy(review: (string, Review) -> Reply<bool>, list: string -> Reply<seq<string>>)

  /** Call k is answered by the k-th policy. */
  function Following(policies: seq<Policy>, token: string): Api {
    Api((k: nat, r: Review) => if k < |policies| then policies[k].review(token, r) else Failed,
        (k: nat) => if k < |policies| then policies[k].list(token) else Failed)
  }

  function Fixed(policy: Policy, token: string): Api {
    Api((k: nat, r: Review) => policy.review(token, r), (k: nat) => policy.list(token))
  }

  /** The evaluation with no cache under one policy. */
  ghost function Evaluate(policy: Policy, q: Request, bare: bool, compiles: string -> bool): Result<Grant> {
    Decide(Fixed(policy, q.token), 0, q, bare, compiles)
  }

  // ---- Partial evaluations ----

  function Iterate(step: (nat, Pc) -> Pc, n: nat): Pc {
    if n == 0 then AskCluster else step(n - 1, Iterate(step, n - 1))
  }

  function Stepper(api: Api, q: Request, bare: bool, compiles: string -> bool): (nat, Pc) -> Pc {
    (k: nat, pc: Pc) => Advance(api, k, q, bare, compiles, pc)
  }

  /** Where an evaluation stands after n calls. */
  function Run(api: Api, q: Request, bare: bool, compiles: string -> bool, n: nat): Pc {
    Iterate(Stepper(api, q, bare, compiles), n)
  }

  lemma {:induction false} IterateAgrees(f: (nat, Pc) -> Pc, g: (nat, Pc) -> Pc, n: nat)
    requires forall k: nat, pc :: k < n ==> f(k, pc) == g(k, pc)
    ensures Iterate(f, n) == Iterate(g, n)
  {
    if n > 0 { IterateAgrees(f, g, n - 1); }
  }

  ghost predicate AgreeAt(a: Api, b: Api, k: nat) {
    a.list(k) == b.list(k) && forall r :: a.review(k, r) == b.review(k, r)
  }

  ghost predicate AgreeBelow(a: Api, b: Api, n: nat) {
    forall k :: 0 <= k < n ==> AgreeAt(a, b, k)
  }

  /** Only the replies received so far matter. */
  lemma RunAgrees(a: Api, b: Api, q: Request, bare: bool, compiles: string -> bool, n: nat)
    requires AgreeBelow(a, b, n)
    ensures Run(a, q, bare, compiles, n) == Run(b, q, bare, compiles, n)
  {
    var f, g := Stepper(a, q, bare, compiles), Stepper(b, q, bare, compiles);
    forall k: nat, pc | k < n ensures f(k, pc) == g(k, pc) {
      assert AgreeAt(a, b, k);
      AdvanceAgrees(a, b, k, q, bare, compiles, pc);
    }
    IterateAgrees(f, g, n);
  }

  lemma AdvanceAgrees(a: Api, b: Api, k: nat, q: Request, bare: bool, compiles: string -> bool, pc: Pc)
    requires AgreeAt(a, b, k)
    ensures Advance(a, k, q, bare, compiles, pc) == Advance(b, k, q, bare, compiles, pc)
  {
  }

  lemma FinishStep(api: Api, k: nat, q: Request, bare: bool, compiles: string -> bool, pc: Pc)
    requires Sound(pc)
    ensures var next := Advance(api, k, q, bare, compiles, pc);
      Sound(next) && Finish(api, k + 1, q, bare, compiles, next) == Finish(api, k, q, bare, compiles, pc)
  {
  }

  lemma {:induction false} RunFinishes(api: Api, q: Request, bare: bool, compiles: string -> bool, n: nat)
    ensures Sound(Run(api, q, bare, compiles, n))
    ensures Finish(api, n, q, bare, compiles, Run(api, q, bare, compiles, n)) == Decide(api, 0, q, bare, compiles)
  {
    if n == 0 {
      StepsReachDecision(api, 0, q, bare, compiles);
    } else {
      RunFinishes(api, q, bare, compiles, n - 1);
      FinishStep(api, n - 1, q, bare, compiles, Run(api, q, bare, compiles, n - 1));
    }
  }

  /** An evaluation that is finished after n calls has reached the decision of every API server that
      answered those calls as this one did. */
  lemma FinishedRunDecides(api: Api, other: Api, q: Request, bare: bool, compiles: string -> bool, n: nat)
    requires Run(api, q, bare, compiles, n).Finished? && AgreeBelow(api, other, n)
    ensures Run(api, q, bare, compiles, n).outcome == Decide(other, 0, q, bare, compiles)
  {
    RunAgrees(api, other, q, bare, compiles, n);
    RunFinishes(other, q, bare, compiles, n);
  }

  /** Call i was the one that came next after i calls. */
  predicate RecordedAt(api: Api, q: Request, bare: bool, compiles: string -> bool, calls: seq<Call>, i: nat) {
    var pc := Run(api, q, bare, compiles, i);
    i < |calls| && Asks(pc) && calls[i] == NextCall(q, pc)
  }

  ghost predicate Recorded(api: Api, q: Request, bare: bool, compiles: string -> bool, calls: seq<Call>) {
    forall i: nat :: i < |calls| ==> RecordedAt(api, q, bare, compiles, calls, i)
  }

  /** The calls that are left after k calls. */
  function CallsLeft(api: Api, q: Request, bare: bool, compiles: string -> bool, k: nat): seq<Call> {
    var pc := Run(api, q, bare, compiles, k);
    if Sound(pc) then CallsFrom(api, k, q, bare, compiles, pc) else []
  }

  lemma OneCallLess(api: Api, q: Request, bare: bool, compiles: string -> bool, calls: seq<Call>, k: nat)
    requires RecordedAt(api, q, bare, compiles, calls, k)
    ensures CallsLeft(api, q, bare, compiles, k) == [calls[k]] + CallsLeft(api, q, bare, compiles, k + 1)
  {
  }

  lemma MoveOver<T>(s: seq<T>, k: nat, rest: seq<T>)
    requires k < |s|
    ensures s[..k] + ([s[k]] + rest) == s[..k + 1] + rest
  {
  }

  lemma {:induction false} CallsBeforeAndLeft(api: Api, q: Request, bare: bool, compiles: string -> bool,
      calls: seq<Call>, k: nat)
    requires k <= |calls| && Recorded(api, q, bare, compiles, calls)
    ensures calls[..k] + CallsLeft(api, q, bare, compiles, k) == CallsLeft(api, q, bare, compiles, 0)
  {
    if k > 0 {
      CallsBeforeAndLeft(api, q, bare, compiles, calls, k - 1);
      assert RecordedAt(api, q, bare, compiles, calls, k - 1);
      OneCallLess(api, q, bare, compiles, calls, k - 1);
      var rest := CallsLeft(api, q, bare, compiles, k);
      assert CallsLeft(api, q, bare, compiles, k - 1) == [calls[k - 1]] + rest;
      MoveOver(calls, k - 1, rest);
    }
  }

  /** The calls made so far and those that are left are the specified calls; when the evaluation is
      finished none are left. */
  lemma RecordedCalls(api: Api, q: Request, bare: bool, compiles: string -> bool, calls: seq<Call>)
    requires Recorded(api, q, bare, compiles, calls)
    ensures calls + CallsLeft(api, q, bare, compiles, |calls|) == Calls(api, 0, q, bare)
    ensures calls <= Calls(api, 0, q, bare)
    ensures Run(api, q, bare, compiles, |calls|).Finished? ==> calls == Calls(api, 0, q, bare)
  {
    CallsBeforeAndLeft(api, q, bare, compiles, calls, |calls|);
    StepsMakeCalls(api, 0, q, bare, compiles);
    assert calls[..|calls|] == calls;
  }

  // ---- One fixed policy ----

  /** Under a fixed policy the numbering of the calls does not matter. */
  lemma EachIgnoresNumbering(policy: Policy, token: string, p1: nat, p2: nat, q: Request, cands: seq<string>,
      bare: bool, compiles: string -> bool)
    ensures DecideEach(Fixed(policy, token), p1, q, cands, bare, compiles) ==
      DecideEach(Fixed(policy, token), p2, q, cands, bare, compiles)
  {
    var api := Fixed(policy, token);
    forall i | 0 <= i < |cands| ensures ReplyTo(api, p1, q, cands, i) == ReplyTo(api, p2, q, cands, i) {}
    assert ReviewFlags(api, p1, q, cands) == ReviewFlags(api, p2, q, cands);
  }

  /** A metadata request without namespaces is answered like the request that names the listing, whether
      or not the user has cluster-wide access, and it fails alike. */
  lemma ExpansionEquivalence(policy: Policy, q: Request, listing: seq<string>, bare: bool, compiles: string -> bool)
    requires q.metadataOnly && q.namespaces == []
    requires policy.list(q.token) == Got(listing) && listing != []
    ensures Evaluate(policy, q, bare, compiles) == Evaluate(policy, q.(namespaces := listing), bare, compiles)
  {
    var api := Fixed(policy, q.token);
    var named := q.(namespaces := listing);
    assert At(q, "") == At(named, "");
    ExpansionInCluster(api, q, listing, bare, compiles);
    ExpansionInLoop(policy, q, listing, bare, compiles);
  }

  lemma ExpansionInCluster(api: Api, q: Request, listing: seq<string>, bare: bool, compiles: string -> bool)
    requires q.namespaces == [] && api.list(1) == Got(listing) && listing != []
    ensures DecideClusterWide(api, 1, q, bare, compiles) ==
      DecideClusterWide(api, 1, q.(namespaces := listing), bare, compiles)
  {
    PickAll(listing, ListedFlags(listing, listing));
  }

  lemma ExpansionInLoop(policy: Policy, q: Request, listing: seq<string>, bare: bool, compiles: string -> bool)
    requires q.metadataOnly && q.namespaces == [] && policy.list(q.token) == Got(listing) && listing != []
    ensures DecideNamespaced(Fixed(policy, q.token), 1, q, bare, compiles) ==
      DecideNamespaced(Fixed(policy, q.token), 1, q.(namespaces := listing), bare, compiles)
  {
    var named := q.(namespaces := listing);
    forall ns ensures At(q, ns) == At(named, ns) {}
    EachIgnoresRest(Fixed(policy, q.token), 2, q, named, listing, bare, compiles);
    EachIgnoresNumbering(policy, q.token, 2, 1, named, listing, bare, compiles);
  }

  lemma EachIgnoresRest(api: Api, p: nat, q1: Request, q2: Request, cands: seq<string>, bare: bool,
      compiles: string -> bool)
    requires forall ns :: At(q1, ns) == At(q2, ns)
    ensures DecideEach(api, p, q1, cands, bare, compiles) == DecideEach(api, p, q2, cands, bare, compiles)
  {
    forall i | 0 <= i < |cands| ensures ReplyTo(api, p, q1, cands, i) == ReplyTo(api, p, q2, cands, i) {
      assert At(q1, cands[i]) == At(q2, cands[i]);
    }
    assert ReviewFlags(api, p, q1, cands) == ReviewFlags(api, p, q2, cands);
  }

  /** Each good name occurs as often as among the candidates, and no other name occurs. */
  ghost predicate Filters(names: seq<string>, cands: seq<string>, good: string -> bool) {
    forall x :: multiset(names)[x] == (if good(x) then multiset(cands)[x] else 0)
  }

  lemma {:induction false} PickFilters(cands: seq<string>, flags: seq<bool>, good: string -> bool)
    requires |cands| == |flags| && forall i :: 0 <= i < |cands| ==> flags[i] == good(cands[i])
    ensures Filters(Pick(cands, flags), cands, good)
  {
    if cands != [] {
      var n := |cands| - 1;
      PickFilters(cands[..n], flags[..n], good);
      assert cands == cands[..n] + [cands[n]];
    }
  }

  lemma FilterMembers(names: seq<string>, cands: seq<string>, good: string -> bool, ns: string)
    requires Filters(names, cands, good)
    ensures ns in names <==> ns in cands && good(ns)
  {
    assert ns in names <==> multiset(names)[ns] > 0;
    assert ns in cands <==> multiset(cands)[ns] > 0;
  }

  lemma SameFilter(na: seq<string>, a: seq<string>, nb: seq<string>, b: seq<string>, good: string -> bool)
    requires Filters(na, a, good) && Filters(nb, b, good) && multiset(a) == multiset(b)
    ensures multiset(na) == multiset(nb)
  {
  }

  function Allowing(policy: Policy, q: Request): string -> bool {
    ns => policy.review(q.token, At(q, ns)) == Got(true)
  }

  function Containing(listing: seq<string>): string -> bool {
    ns => ns in listing
  }

  lemma EachFilters(policy: Policy, p: nat, q: Request, cands: seq<string>)
    ensures Filters(Pick(cands, ReviewFlags(Fixed(policy, q.token), p, q, cands)), cands, Allowing(policy, q))
  {
    PickFilters(cands, ReviewFlags(Fixed(policy, q.token), p, q, cands), Allowing(policy, q));
  }

  lemma ListedFilters(cands: seq<string>, listing: seq<string>)
    ensures Filters(Pick(cands, ListedFlags(cands, listing)), cands, Containing(listing))
  {
    PickFilters(cands, ListedFlags(cands, listing), Containing(listing));
  }

  // ---- The cluster-wide shortcut ----

  /** When cluster permission implies permission in every namespace, the shortcut gives the verdict and the
      names that the loop over the listed requested namespaces would give; the two differ only in how a
      denial is written, and not at all when something is granted. */
  lemma ShortcutPreservesMeaning(policy: Policy, q: Request, listing: seq<string>, compiles: string -> bool)
    requires q.verb == GET && q.namespaces != [] && policy.list(q.token) == Got(listing)
    requires Allowing(policy, q)("")
    requires Allowing(policy, q)("") ==> forall ns :: Allowing(policy, q)(ns)
    ensures var shortcut := Evaluate(policy, q, false, compiles);
      var wanted := Pick(q.namespaces, ListedFlags(q.namespaces, listing));
      var loop := DecideEach(Fixed(policy, q.token), 1, q, wanted, false, compiles);
      && (wanted != [] ==> shortcut == loop)
      && (shortcut.Ok? && loop.Ok? ==>
           Verdict(shortcut.value) == Verdict(loop.value) && Names(shortcut.value) == Names(loop.value))
      && (shortcut.Ok? ==> Names(shortcut.value) == wanted && Verdict(shortcut.value) == (wanted != []))
  {
    var api := Fixed(policy, q.token);
    var wanted := Pick(q.namespaces, ListedFlags(q.namespaces, listing));
    forall i | 0 <= i < |wanted| ensures ReplyTo(api, 1, q, wanted, i) == Got(true) {
      assert Allowing(policy, q)(wanted[i]);
    }
    PickAll(wanted, ReviewFlags(api, 1, q, wanted));
  }

  // ---- The order of the namespaces ----

  lemma PlainOutcome(names: seq<string>, bare: bool, compiles: string -> bool)
    requires CompilesPlain(compiles) && (bare || PlainNames(names))
    ensures Conclude(names, bare, compiles) == Ok(if bare && names != [] then Flag(true) else Scope(names))
  {
    if !bare { JoinIsPlainPattern(names); }
  }

  /** Those of the candidates that may be granted are plain. */
  ghost predicate PlainWhereGood(cands: seq<string>, good: string -> bool) {
    forall ns :: ns in cands && good(ns) ==> PlainName(ns)
  }

  lemma PlainFilter(names: seq<string>, cands: seq<string>, good: string -> bool)
    requires PlainWhereGood(cands, good) && Filters(names, cands, good)
    ensures PlainNames(names)
  {
    forall i | 0 <= i < |names| ensures PlainName(names[i]) { FilterMembers(names, cands, good, names[i]); }
  }

  /** The same failure, or grants with the same verdict and the same names as often. */
  ghost predicate SameOutcome(a: Result<Grant>, b: Result<Grant>) {
    if a.Err? then a == b
    else b.Ok? && Verdict(a.value) == Verdict(b.value) && multiset(Names(a.value)) == multiset(Names(b.value))
  }

  lemma SameConclusion(na: seq<string>, a: seq<string>, nb: seq<string>, b: seq<string>, good: string -> bool,
      bare: bool, compiles: string -> bool)
    requires Filters(na, a, good) && Filters(nb, b, good) && multiset(a) == multiset(b)
    requires CompilesPlain(compiles) && (bare || PlainWhereGood(a, good))
    ensures SameOutcome(Conclude(na, bare, compiles), Conclude(nb, bare, compiles))
    ensures na == [] <==> nb == []
  {
    SameFilter(na, a, nb, b, good);
    if !bare {
      assert PlainWhereGood(b, good) by { assert forall ns :: ns in b ==> ns in multiset(a); }
      PlainFilter(na, a, good);
      PlainFilter(nb, b, good);
    }
    PlainOutcome(na, bare, compiles);
    PlainOutcome(nb, bare, compiles);
    assert |multiset(na)| == |na| && |multiset(nb)| == |nb|;
  }

  lemma OrderInLoop(policy: Policy, p: nat, q: Request, a: seq<string>, b: seq<string>, bare: bool,
      compiles: string -> bool)
    requires CompilesPlain(compiles) && multiset(a) == multiset(b)
    requires bare || PlainWhereGood(a, Allowing(policy, q))
    ensures SameOutcome(
      DecideEach(Fixed(policy, q.token), p, q, a, bare, compiles),
      DecideEach(Fixed(policy, q.token), p, q, b, bare, compiles))
  {
    var api := Fixed(policy, q.token);
    AnsweredTogether(policy, p, q, a, b);
    AnsweredTogether(policy, p, q, b, a);
    EachFilters(policy, p, q, a);
    EachFilters(policy, p, q, b);
    SameConclusion(Pick(a, ReviewFlags(api, p, q, a)), a, Pick(b, ReviewFlags(api, p, q, b)), b,
                   Allowing(policy, q), bare, compiles);
  }

  lemma AnsweredTogether(policy: Policy, p: nat, q: Request, a: seq<string>, b: seq<string>)
    requires multiset(a) == multiset(b)
    ensures AllAnswered(Fixed(policy, q.token), p, q, a) ==> AllAnswered(Fixed(policy, q.token), p, q, b)
  {
    forall i | AllAnswered(Fixed(policy, q.token), p, q, a) && 0 <= i < |b|
      ensures ReplyTo(Fixed(policy, q.token), p, q, b, i).Got?
    {
      assert b[i] in multiset(a);
      var j :| 0 <= j < |a| && a[j] == b[i];
      assert ReplyTo(Fixed(policy, q.token), p, q, a, j).Got?;
    }
  }

  /** The requested namespaces may come in any order: both evaluations fail alike, or they give the same
      verdict and the same namespaces. */
  lemma NamespaceOrderIrrelevant(policy: Policy, q: Request, a: seq<string>, b: seq<string>, bare: bool,
      compiles: string -> bool)
    requires CompilesPlain(compiles) && multiset(a) == multiset(b)
    requires bare || forall ns :: Permitted(policy, q.(namespaces := a), ns) ==> PlainName(ns)
    ensures SameOutcome(
      Evaluate(policy, q.(namespaces := a), bare, compiles),
      Evaluate(policy, q.(namespaces := b), bare, compiles))
  {
    var api, qa, qb := Fixed(policy, q.token), q.(namespaces := a), q.(namespaces := b);
    forall ns ensures At(qa, ns) == At(q, ns) {}
    assert |multiset(a)| == |a| && |multiset(b)| == |b|;
    if a == [] {
      assert a == b;
    } else if policy.review(q.token, At(q, "")).Got? && q.verb != CREATE {
      if policy.review(q.token, At(q, "")).value {
        if policy.list(q.token).Got? {
          var listing := policy.list(q.token).value;
          assert bare || PlainWhereGood(a, Containing(listing)) by {
            assert forall ns :: ns in a && ns in listing ==> Permitted(policy, qa, ns);
          }
          ListedFilters(a, listing);
          ListedFilters(b, listing);
          SameConclusion(Pick(a, ListedFlags(a, listing)), a, Pick(b, ListedFlags(b, listing)), b,
                         Containing(listing), bare, compiles);
        }
      } else {
        EachIgnoresRest(api, 1, qa, q, a, bare, compiles);
        EachIgnoresRest(api, 1, qb, q, b, bare, compiles);
        assert bare || PlainWhereGood(a, Allowing(policy, q)) by {
          assert forall ns :: ns in a && Allowing(policy, q)(ns) ==> Permitted(policy, qa, ns);
        }
        OrderInLoop(policy, 1, q, a, b, bare, compiles);
      }
    }
  }

  // ---- More permissive policies ----

  /** What an answer opens up. */
  datatype Reach = Everything | Only(names: set<string>)

  function ReachOf(g: Grant): Reach {
    if g == Flag(true) then Everything else Only(set n | n in Names(g))
  }

  predicate AtMost(a: Reach, b: Reach) {
    b.Everything? || (a.Only? && a.names <= b.names)
  }

  /** For this user, the second policy allows and lists at least what the first does. */
  ghost predicate AtLeastAsPermissive(less: Policy, more: Policy, q: Request) {
    && (forall ns :: Allowing(less, q)(ns) ==> Allowing(more, q)(ns))
    && (less.list(q.token).Got? && more.list(q.token).Got? ==>
         forall ns :: ns in less.list(q.token).value ==> ns in more.list(q.token).value)
  }

  /** Every namespace that this user may read is in the listing. */
  ghost predicate ListsTheAllowed(policy: Policy, q: Request) {
    policy.list(q.token).Got? ==>
      forall ns :: ns != "" && Allowing(policy, q)(ns) ==> ns in policy.list(q.token).value
  }

  /** The name is one that the request may concern: requested, or any when it names none. */
  predicate Concerned(q: Request, ns: string) {
    q.namespaces == [] || ns in q.namespaces
  }

  /** With a matcher, the names granted to a read: when the whole cluster was allowed, those concerned and
      listed; otherwise some that are concerned and allowed, all of them when the request names any. */
  lemma GrantedNames(policy: Policy, q: Request, compiles: string -> bool, ns: string)
    requires q.verb == GET && Evaluate(policy, q, false, compiles).Ok?
    ensures var g := Evaluate(policy, q, false, compiles).value;
      var token := q.token;
      && g != Flag(true)
      && (if Allowing(policy, q)("")
          then policy.list(token).Got? && (ns in Names(g) <==> Concerned(q, ns) && ns in policy.list(token).value)
          else if q.namespaces != [] then ns in Names(g) <==> ns in q.namespaces && Allowing(policy, q)(ns)
          else if q.metadataOnly then
            policy.list(token).Got? && (ns in Names(g) <==> ns in policy.list(token).value && Allowing(policy, q)(ns))
          else Names(g) == [])
  {
    var api := Fixed(policy, q.token);
    if Allowing(policy, q)("") {
      var listing := policy.list(q.token).value;
      ListedFilters(q.namespaces, listing);
      FilterMembers(Pick(q.namespaces, ListedFlags(q.namespaces, listing)), q.namespaces, Containing(listing), ns);
    } else {
      var p := if q.metadataOnly && q.namespaces == [] then 2 else 1;
      var cands := if p == 2 then policy.list(q.token).value else q.namespaces;
      EachFilters(policy, p, q, cands);
      FilterMembers(Pick(cands, ReviewFlags(api, p, q, cands)), cands, Allowing(policy, q), ns);
    }
  }

  /** What a policy lets this read see: with cluster-wide permission whatever it concerns that is listed,
      otherwise its candidates that are allowed one by one. */
  predicate Permitted(policy: Policy, q: Request, ns: string) {
    if Allowing(policy, q)("")
    then Concerned(q, ns) && policy.list(q.token).Got? && ns in policy.list(q.token).value
    else CandidateOf(policy, q, ns) && Allowing(policy, q)(ns)
  }

  lemma GrantedArePermitted(policy: Policy, q: Request, compiles: string -> bool)
    requires q.verb == GET && Evaluate(policy, q, false, compiles).Ok?
    ensures var g := Evaluate(policy, q, false, compiles).value;
      g != Flag(true) && forall ns :: ns in Names(g) <==> Permitted(policy, q, ns)
  {
    GrantedNames(policy, q, compiles, "");
    var g := Evaluate(policy, q, false, compiles).value;
    forall ns ensures ns in Names(g) <==> Permitted(policy, q, ns) { GrantedNames(policy, q, compiles, ns); }
  }

  /** A more permissive policy never narrows what a request is granted, even when it moves the evaluation
      from the loop to the cluster-wide shortcut. */
  lemma MonotoneInPolicy(less: Policy, more: Policy, q: Request, bare: bool, compiles: string -> bool)
    requires KnownVerb(q.verb) && AtLeastAsPermissive(less, more, q) && ListsTheAllowed(more, q)
    requires Evaluate(less, q, bare, compiles).Ok? && Evaluate(more, q, bare, compiles).Ok?
    ensures AtMost(ReachOf(Evaluate(less, q, bare, compiles).value), ReachOf(Evaluate(more, q, bare, compiles).value))
  {
    assert Allowing(less, q)("") ==> Allowing(more, q)("");
    var a, b := Evaluate(less, q, bare, compiles).value, Evaluate(more, q, bare, compiles).value;
    if q.verb == GET && !bare {
      GrantedNames(less, q, compiles, "");
      GrantedNames(more, q, compiles, "");
      forall ns | ns in Names(a) ensures ns in Names(b) {
        GrantedNames(less, q, compiles, ns);
        GrantedNames(more, q, compiles, ns);
        assert Allowing(less, q)(ns) ==> Allowing(more, q)(ns);
      }
    } else if q.verb == GET && !Allowing(more, q)("") {
      BareGrantMeaning(less, q, compiles);
      BareGrantMeaning(more, q, compiles);
      forall ns | CandidateOf(less, q, ns) && Allowing(less, q)(ns)
        ensures CandidateOf(more, q, ns) && Allowing(more, q)(ns)
      {
      }
    }
  }

  /** Without a matcher and without cluster-wide permission, everything is granted exactly when some
      candidate is allowed. */
  lemma BareGrantMeaning(policy: Policy, q: Request, compiles: string -> bool)
    requires q.verb == GET && !Allowing(policy, q)("") && Evaluate(policy, q, true, compiles).Ok?
    ensures Evaluate(policy, q, true, compiles).value ==
      Flag(exists ns :: CandidateOf(policy, q, ns) && Allowing(policy, q)(ns))
  {
    var p := if q.metadataOnly && q.namespaces == [] then 2 else 1;
    var cands := if p == 2 then policy.list(q.token).value else q.namespaces;
    var names := Pick(cands, ReviewFlags(Fixed(policy, q.token), p, q, cands));
    EachFilters(policy, p, q, cands);
    forall ns ensures ns in names <==> CandidateOf(policy, q, ns) && Allowing(policy, q)(ns) {
      FilterMembers(names, cands, Allowing(policy, q), ns);
    }
    if names != [] { assert names[0] in names; }
  }

  predicate CandidateOf(policy: Policy, q: Request, ns: string) {
    if q.namespaces != [] then ns in q.namespaces
    else q.metadataOnly && policy.list(q.token).Got? && ns in policy.list(q.token).value
  }
}
