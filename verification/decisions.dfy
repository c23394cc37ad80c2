/** What an evaluation decides, for every behaviour of the API server: as a specification, as the calls it
    makes, and one call at a time. */
module Decisions {
  import opened Text
  import opened Responses
  import opened CacheKeys

  datatype Reply<+T> = Got(value: T) | Failed

  datatype Review = Review(
    user: string, groups: seq<string>, verb: string, resource: string, resourceName: string, apiGroup: string,
    namespace: string)

  datatype Call = ReviewCall(review: Review) | ListCall

  /** An API server seen by one client: what it replies to the k-th call. */
  datatype Api = Api(review: (nat, Review) -> Reply<bool>, list: nat -> Reply<seq<string>>)

  function At(q: Request, namespace: string): Review {
    Review(q.user, q.groups, q.verb, q.resource, q.resourceName, q.apiGroup, namespace)
  }

  // ---- Selection ----

  /** The candidates whose flag is set, in order and with their repetitions. */
  function Pick(cands: seq<string>, flags: seq<bool>): seq<string>
    requires |cands| == |flags|
  {
    if cands == [] then []
    else
      var n := |cands| - 1;
      Pick(cands[..n], flags[..n]) + if flags[n] then [cands[n]] else []
  }

  function ListedFlags(cands: seq<string>, listing: seq<string>): seq<bool> {
    seq(|cands|, i requires 0 <= i < |cands| => cands[i] in listing)
  }

  /** Candidate i is reviewed by call p + i. */
  function ReviewFlags(api: Api, p: nat, q: Request, cands: seq<string>): seq<bool> {
    seq(|cands|, i requires 0 <= i < |cands| => ReplyTo(api, p, q, cands, i) == Got(true))
  }

  ghost predicate AllAnswered(api: Api, p: nat, q: Request, cands: seq<string>) {
    forall i :: 0 <= i < |cands| ==> ReplyTo(api, p, q, cands, i).Got?
  }

  /** `names` are exactly the candidates at the positions `idx`, in order. */
  ghost predicate Selection(cands: seq<string>, idx: seq<nat>, names: seq<string>) {
    && |idx| == |names|
    && (forall j :: 0 <= j < |idx| ==> idx[j] < |cands| && names[j] == cands[idx[j]])
    && (forall j, k :: 0 <= j < k < |idx| ==> idx[j] < idx[k])
  }

  /** The positions of the set flags, in order. */
  function Positions(flags: seq<bool>): (idx: seq<nat>)
    ensures forall j :: 0 <= j < |idx| ==> idx[j] < |flags| && flags[idx[j]]
    ensures forall j, k :: 0 <= j < k < |idx| ==> idx[j] < idx[k]
    ensures forall i :: 0 <= i < |flags| && flags[i] ==> i in idx
  {
    if flags == [] then []
    else
      var n := |flags| - 1;
      var before := Positions(flags[..n]);
      assert forall i :: 0 <= i < n && flags[i] ==> flags[..n][i];
      if flags[n] then before + [n] else before
  }

  lemma {:induction false} PickSelects(cands: seq<string>, flags: seq<bool>)
    requires |cands| == |flags|
    ensures Selection(cands, Positions(flags), Pick(cands, flags))
  {
    if cands != [] {
      var n := |cands| - 1;
      PickSelects(cands[..n], flags[..n]);
    }
  }

  /** The reply to the review of candidate i, which is call p + i. */
  function ReplyTo(api: Api, p: nat, q: Request, cands: seq<string>, i: nat): Reply<bool>
    requires i < |cands|
  {
    api.review(p + i, At(q, cands[i]))
  }

  // ---- The decision ----

  /** The response builder: without matcher keys any name is a bare grant, otherwise the names must make a
      regexp that compiles. */
  function Conclude(names: seq<string>, bare: bool, compiles: string -> bool): Result<Grant> {
    if bare then Ok(if names != [] then Flag(true) else Scope(names))
    else if compiles(Join(names, "|")) then Ok(Scope(names))
    else Err(BadPattern)
  }

  ghost function DecideEach(api: Api, p: nat, q: Request, cands: seq<string>, bare: bool,
      compiles: string -> bool): Result<Grant> {
    if !AllAnswered(api, p, q, cands) then Err(NamespaceReview)
    else
      var names := Pick(cands, ReviewFlags(api, p, q, cands));
      if names == [] then Ok(Flag(false)) else Conclude(names, bare, compiles)
  }

  /** After the cluster-wide review allowed: call p, if any, lists the namespaces. */
  function DecideClusterWide(api: Api, p: nat, q: Request, bare: bool, compiles: string -> bool): Result<Grant> {
    if bare then Ok(Flag(true))
    else
      match api.list(p)
      case Failed => Err(ListNamespaces)
      case Got(listing) =>
        Conclude(if q.namespaces == [] then listing else Pick(q.namespaces, ListedFlags(q.namespaces, listing)),
                 bare, compiles)
  }

  /** After the cluster-wide review denied: call p lists the namespaces or reviews the first one. */
  ghost function DecideNamespaced(api: Api, p: nat, q: Request, bare: bool, compiles: string -> bool): Result<Grant> {
    if q.metadataOnly && q.namespaces == [] then
      match api.list(p)
      case Failed => Err(ListNamespaces)
      case Got(listing) =>
        if listing == [] then Ok(Flag(false)) else DecideEach(api, p + 1, q, listing, bare, compiles)
    else DecideEach(api, p, q, q.namespaces, bare, compiles)
  }

  /** The outcome of an evaluation whose first call is call p; `bare` means that no matcher is needed. */
  ghost function Decide(api: Api, p: nat, q: Request, bare: bool, compiles: string -> bool): Result<Grant> {
    match api.review(p, At(q, ""))
    case Failed => Err(ClusterReview)
    case Got(cluster) =>
      if q.verb == CREATE then Ok(Flag(cluster))
      else if cluster then DecideClusterWide(api, p + 1, q, bare, compiles)
      else DecideNamespaced(api, p + 1, q, bare, compiles)
  }

  /** Whether an evaluation that has a cluster-wide verdict lists the namespaces before it decides. */
  predicate Lists(q: Request, bare: bool, cluster: bool) {
    q.verb != CREATE && if cluster then !bare else q.metadataOnly && q.namespaces == []
  }

  /** The namespaces an evaluation considers. */
  function Candidates(api: Api, p: nat, q: Request, bare: bool, cluster: bool): seq<string> {
    if q.namespaces != [] then q.namespaces
    else if Lists(q, bare, cluster) && api.list(p + 1).Got? then api.list(p + 1).value
    else []
  }

  /** The call that reviews the first candidate. */
  function FirstReview(p: nat, q: Request, bare: bool, cluster: bool): nat {
    p + if Lists(q, bare, cluster) then 2 else 1
  }

  /** Candidate i is granted by the cluster-wide review and the listing, or by its own review. */
  predicate Justified(api: Api, p: nat, q: Request, bare: bool, cluster: bool, i: nat) {
    var cands := Candidates(api, p, q, bare, cluster);
    && i < |cands|
    && if cluster then api.list(p + 1).Got? && cands[i] in api.list(p + 1).value
       else ReplyTo(api, FirstReview(p, q, bare, cluster), q, cands, i) == Got(true)
  }

  function JustifiedFlags(api: Api, p: nat, q: Request, bare: bool, cluster: bool): seq<bool> {
    seq(|Candidates(api, p, q, bare, cluster)|, i requires 0 <= i => Justified(api, p, q, bare, cluster, i))
  }

  /** The grant is the selection of the flagged candidates, or a bare verdict. */
  ghost predicate GrantsFlagged(g: Grant, cands: seq<string>, flags: seq<bool>, bare: bool, everything: bool) {
    if bare then g == Flag(everything || Positions(flags) != [])
    else Selection(cands, Positions(flags), Names(g)) && (g.Flag? ==> !g.allowed)
  }

  lemma EachGrantsTheAllowed(api: Api, p: nat, q: Request, cands: seq<string>, bare: bool, compiles: string -> bool)
    requires DecideEach(api, p, q, cands, bare, compiles).Ok?
    ensures GrantsFlagged(DecideEach(api, p, q, cands, bare, compiles).value, cands,
                          ReviewFlags(api, p, q, cands), bare, false)
  {
    PickSelects(cands, ReviewFlags(api, p, q, cands));
  }

  lemma ListingGrantsTheListed(q: Request, listing: seq<string>)
    ensures var cands := if q.namespaces != [] then q.namespaces else listing;
      var names := if q.namespaces == [] then listing else Pick(q.namespaces, ListedFlags(q.namespaces, listing));
      GrantsFlagged(Scope(names), cands, ListedFlags(cands, listing), false, true)
  {
    var cands := if q.namespaces != [] then q.namespaces else listing;
    PickSelects(cands, ListedFlags(cands, listing));
    if q.namespaces == [] { PickAll(cands, ListedFlags(cands, listing)); }
  }

  /** Soundness and completeness: a read that needs a matcher is granted exactly the justified candidates,
      in order and with repetitions; one that needs none is granted everything exactly when the cluster-wide
      review allows it or some candidate is justified, and nothing otherwise. */
  lemma GrantsExactlyTheJustified(api: Api, p: nat, q: Request, bare: bool, compiles: string -> bool)
    returns (cluster: bool)
    requires q.verb == GET && Decide(api, p, q, bare, compiles).Ok?
    ensures api.review(p, At(q, "")) == Got(cluster)
    ensures GrantsFlagged(Decide(api, p, q, bare, compiles).value, Candidates(api, p, q, bare, cluster),
                          JustifiedFlags(api, p, q, bare, cluster), bare, cluster)
  {
    cluster := api.review(p, At(q, "")).value;
    var cands := Candidates(api, p, q, bare, cluster);
    if cluster && !bare {
      var listing := api.list(p + 1).value;
      assert JustifiedFlags(api, p, q, bare, cluster) == ListedFlags(cands, listing);
      ListingGrantsTheListed(q, listing);
    } else if !cluster {
      var first := FirstReview(p, q, bare, cluster);
      assert JustifiedFlags(api, p, q, bare, cluster) == ReviewFlags(api, first, q, cands);
      if cands != [] || !q.metadataOnly {
        EachGrantsTheAllowed(api, first, q, cands, bare, compiles);
      }
    }
  }

  /** The outcome of a read in full, once no call fails. One that needs no matcher gets everything or nothing.
      One that needs a matcher gets the justified candidates if their joined names make a pattern, and a bare
      denial when the reviews leave none. */
  lemma ReadDecidedExactly(api: Api, p: nat, q: Request, bare: bool, compiles: string -> bool)
    returns (cluster: bool, names: seq<string>)
    requires q.verb == "get"
    requires var outcome := Decide(api, p, q, bare, compiles); outcome.Ok? || outcome == Err(BadPattern)
    ensures api.review(p, Review(q.user, q.groups, "get", q.resource, q.resourceName, q.apiGroup, "")) == Got(cluster)
    ensures Selection(Candidates(api, p, q, bare, cluster), Positions(JustifiedFlags(api, p, q, bare, cluster)), names)
    ensures Decide(api, p, q, bare, compiles) ==
      if bare then Ok(Flag(cluster || names != []))
      else if !cluster && names == [] then Ok(Flag(false))
      else if compiles(Join(names, "|")) then Ok(Scope(names))
      else Err(BadPattern)
  {
    cluster := api.review(p, At(q, "")).value;
    var cands, flags := Candidates(api, p, q, bare, cluster), JustifiedFlags(api, p, q, bare, cluster);
    names := Pick(cands, flags);
    PickSelects(cands, flags);
    if cluster && !bare {
      assert flags == ListedFlags(cands, api.list(p + 1).value);
      if q.namespaces == [] { PickAll(cands, flags); }
    } else if !cluster {
      assert flags == ReviewFlags(api, FirstReview(p, q, bare, cluster), q, cands);
    }
  }

  /** A write is decided by its one call. */
  lemma WriteDecidedExactly(api: Api, p: nat, q: Request, bare: bool, compiles: string -> bool)
    requires q.verb == "create"
    ensures var review := Review(q.user, q.groups, "create", q.resource, q.resourceName, q.apiGroup, "");
      && Calls(api, p, q, bare) == [ReviewCall(review)]
      && Decide(api, p, q, bare, compiles) ==
           match api.review(p, review)
           case Failed => Err(ClusterReview)
           case Got(allowed) => Ok(Flag(allowed))
  {
  }

  lemma {:induction false} PickAll(cands: seq<string>, flags: seq<bool>)
    requires |cands| == |flags| && forall i :: 0 <= i < |flags| ==> flags[i]
    ensures Pick(cands, flags) == cands
  {
    if cands != [] {
      var n := |cands| - 1;
      PickAll(cands[..n], flags[..n]);
      assert cands == cands[..n] + [cands[n]];
    }
  }

  /** Without matcher keys no answer carries a matcher document, so the operator never shows. */
  lemma OperatorUnobservable(api: Api, p: nat, q: Request, compiles: string -> bool, op1: string, op2: string)
    requires Decide(api, p, q, true, compiles).Ok?
    ensures Body(Decide(api, p, q, true, compiles).value, [], op1) ==
      Body(Decide(api, p, q, true, compiles).value, [], op2)
  {
  }

  // ---- The calls ----

  /** How many of the candidates from i on are reviewed, plus i: up to and including the first failure. */
  function Reached(api: Api, p: nat, q: Request, cands: seq<string>, i: nat): (n: nat)
    requires i <= |cands|
    ensures i <= n <= |cands|
    ensures forall k :: i <= k < n - 1 ==> ReplyTo(api, p, q, cands, k).Got?
    ensures n < |cands| ==> n > i && ReplyTo(api, p, q, cands, n - 1).Failed?
    decreases |cands| - i
  {
    if i == |cands| then i
    else if ReplyTo(api, p, q, cands, i).Failed? then i + 1
    else Reached(api, p, q, cands, i + 1)
  }

  function ReviewCalls(q: Request, cands: seq<string>): seq<Call> {
    seq(|cands|, i requires 0 <= i < |cands| => ReviewCall(At(q, cands[i])))
  }

  function LoopCalls(api: Api, p: nat, q: Request, cands: seq<string>): seq<Call> {
    ReviewCalls(q, cands[..Reached(api, p, q, cands, 0)])
  }

  function NamespacedCalls(api: Api, p: nat, q: Request): seq<Call> {
    if q.metadataOnly && q.namespaces == [] then
      match api.list(p)
      case Failed => [ListCall]
      case Got(listing) => [ListCall] + LoopCalls(api, p + 1, q, listing)
    else LoopCalls(api, p, q, q.namespaces)
  }

  /** All calls of one evaluation. */
  function Calls(api: Api, p: nat, q: Request, bare: bool): seq<Call> {
    [ReviewCall(At(q, ""))] +
    match api.review(p, At(q, ""))
    case Failed => []
    case Got(cluster) =>
      if q.verb == CREATE || (cluster && bare) then []
      else if cluster then [ListCall]
      else NamespacedCalls(api, p + 1, q)
  }

  /** The candidates that an evaluation reviews, and the call that reviews the first of them. */
  ghost predicate ReviewedPrefix(api: Api, first: nat, q: Request, cands: seq<string>, reviewed: seq<string>) {
    && reviewed <= cands
    && (forall i :: 0 <= i < |reviewed| - 1 ==> ReplyTo(api, first, q, reviewed, i).Got?)
    && (|reviewed| < |cands| ==> reviewed != [] && ReplyTo(api, first, q, reviewed, |reviewed| - 1).Failed?)
  }

  /** A listing, if any, and the reviews made. */
  function ListAndReviews(q: Request, lists: bool, reviewed: seq<string>): seq<Call> {
    (if lists then [ListCall] else []) + ReviewCalls(q, reviewed)
  }

  lemma NamespacedShape(api: Api, p: nat, q: Request) returns (reviewed: seq<string>)
    requires p > 0 && q.verb != CREATE
    ensures var lists := Lists(q, true, false);
      var cands := Candidates(api, p - 1, q, true, false);
      && NamespacedCalls(api, p, q) == ListAndReviews(q, lists, reviewed)
      && ReviewedPrefix(api, if lists then p + 1 else p, q, cands, reviewed)
  {
    var cands := Candidates(api, p - 1, q, true, false);
    var first := if Lists(q, true, false) then p + 1 else p;
    reviewed := cands[..Reached(api, first, q, cands, 0)];
    FailsWhereItStops(api, first, q, cands, reviewed);
  }

  /** The cluster-wide review, then at most one listing, then, unless the verdict was for the whole cluster,
      reviews of the candidates in order up to and including the first failure. */
  lemma CallShape(api: Api, p: nat, q: Request, bare: bool)
    returns (lists: bool, cands: seq<string>, reviewed: seq<string>)
    ensures Calls(api, p, q, bare) == [ReviewCall(At(q, ""))] + ListAndReviews(q, lists, reviewed)
    ensures lists <==> api.review(p, At(q, "")).Got? && Lists(q, bare, api.review(p, At(q, "")).value)
    ensures cands ==
      if q.verb != CREATE && api.review(p, At(q, "")) == Got(false) then Candidates(api, p, q, bare, false) else []
    ensures ReviewedPrefix(api, if lists then p + 2 else p + 1, q, cands, reviewed)
  {
    lists, cands, reviewed := false, [], [];
    match api.review(p, At(q, ""))
    case Failed =>
    case Got(cluster) =>
      lists := Lists(q, bare, cluster);
      if !cluster && q.verb != CREATE {
        cands := Candidates(api, p, q, bare, false);
        reviewed := NamespacedShape(api, p + 1, q);
      }
  }

  predicate CallFails(api: Api, k: nat, call: Call) {
    match call
    case ReviewCall(r) => api.review(k, r).Failed?
    case ListCall => api.list(k).Failed?
  }

  /** Only the last call can have failed; if it did, it gives the outcome its error, and if it did not, the
      outcome is a grant or a pattern that does not compile. */
  ghost predicate EndsAtFailure(api: Api, p: nat, calls: seq<Call>, outcome: Result<Grant>) {
    && (forall k :: 0 <= k < |calls| - 1 ==> !CallFails(api, p + k, calls[k]))
    && if calls != [] && CallFails(api, p + |calls| - 1, calls[|calls| - 1])
       then outcome == Err(if calls[|calls| - 1].ListCall? then ListNamespaces else NamespaceReview)
       else outcome.Ok? || outcome == Err(BadPattern)
  }

  lemma LoopEndsAtFailure(api: Api, p: nat, q: Request, cands: seq<string>, bare: bool, compiles: string -> bool)
    ensures EndsAtFailure(api, p, LoopCalls(api, p, q, cands), DecideEach(api, p, q, cands, bare, compiles))
  {
    var reviewed := cands[..Reached(api, p, q, cands, 0)];
    FailsWhereItStops(api, p, q, cands, reviewed);
    var calls := LoopCalls(api, p, q, cands);
    forall k | 0 <= k < |calls| ensures CallFails(api, p + k, calls[k]) == ReplyTo(api, p, q, reviewed, k).Failed? {}
  }

  lemma EndsAfterSuccess(api: Api, p: nat, first: Call, rest: seq<Call>, outcome: Result<Grant>)
    requires !CallFails(api, p, first) && EndsAtFailure(api, p + 1, rest, outcome)
    ensures EndsAtFailure(api, p, [first] + rest, outcome)
  {
    var calls := [first] + rest;
    forall k | 0 <= k < |calls| - 1 ensures !CallFails(api, p + k, calls[k]) {
      if k > 0 { assert !CallFails(api, p + 1 + (k - 1), rest[k - 1]); }
    }
  }

  lemma NamespacedEndsAtFailure(api: Api, p: nat, q: Request, bare: bool, compiles: string -> bool)
    ensures EndsAtFailure(api, p, NamespacedCalls(api, p, q), DecideNamespaced(api, p, q, bare, compiles))
  {
    if q.metadataOnly && q.namespaces == [] {
      if api.list(p).Got? {
        var listing := api.list(p).value;
        LoopEndsAtFailure(api, p + 1, q, listing, bare, compiles);
        var outcome := DecideNamespaced(api, p, q, bare, compiles);
        EndsAfterSuccess(api, p, ListCall, LoopCalls(api, p + 1, q, listing), outcome);
      }
    } else {
      LoopEndsAtFailure(api, p, q, q.namespaces, bare, compiles);
    }
  }

  /** An evaluation stops at its first failing call and fails exactly when its last call did or the names
      make no regexp; a failed cluster-wide review has an error of its own. */
  lemma FailsWithLastCall(api: Api, p: nat, q: Request, bare: bool, compiles: string -> bool)
    ensures var calls := Calls(api, p, q, bare);
      if CallFails(api, p, calls[0])
      then |calls| == 1 && Decide(api, p, q, bare, compiles) == Err(ClusterReview)
      else EndsAtFailure(api, p, calls, Decide(api, p, q, bare, compiles))
  {
    if q.verb != CREATE && api.review(p, At(q, "")) == Got(false) {
      NamespacedEndsAtFailure(api, p + 1, q, bare, compiles);
      var outcome := Decide(api, p, q, bare, compiles);
      EndsAfterSuccess(api, p, ReviewCall(At(q, "")), NamespacedCalls(api, p + 1, q), outcome);
    }
  }

  /** The kinds of error that a failing call gives. */
  predicate CallError(e: Error) {
    e == ClusterReview || e == Error.ListNamespaces || e == NamespaceReview
  }

  /** The outcome is the error of a call exactly when the last call failed. */
  lemma LastCallDecides(api: Api, p: nat, q: Request, bare: bool, compiles: string -> bool)
    ensures var calls, outcome := Calls(api, p, q, bare), Decide(api, p, q, bare, compiles);
      && calls != []
      && (CallFails(api, p + |calls| - 1, calls[|calls| - 1]) <==> outcome.Err? && CallError(outcome.error))
      && (outcome.Err? ==> CallError(outcome.error) || outcome.error == BadPattern)
  {
    FailsWithLastCall(api, p, q, bare, compiles);
  }

  lemma FailsWhereItStops(api: Api, p: nat, q: Request, cands: seq<string>, reviewed: seq<string>)
    requires reviewed == cands[..Reached(api, p, q, cands, 0)]
    ensures ReviewedPrefix(api, p, q, cands, reviewed)
    ensures AllAnswered(api, p, q, cands) <==>
      reviewed == [] || ReplyTo(api, p, q, reviewed, |reviewed| - 1).Got?
  {
    var n := Reached(api, p, q, cands, 0);
    forall i | 0 <= i < n ensures ReplyTo(api, p, q, reviewed, i) == ReplyTo(api, p, q, cands, i) {
      assert reviewed[i] == cands[i];
    }
    if n > 0 && ReplyTo(api, p, q, cands, n - 1).Got? {
      forall i | 0 <= i < |cands| ensures ReplyTo(api, p, q, cands, i).Got? {
        assert i < n - 1 || i == n - 1;
      }
    }
  }

  /** A read that succeeds after the cluster-wide denial has reviewed every candidate. */
  lemma ReviewIsCalled(api: Api, p: nat, q: Request, bare: bool, compiles: string -> bool, i: nat)
    requires q.verb == GET && api.review(p, At(q, "")) == Got(false) && Decide(api, p, q, bare, compiles).Ok?
    requires i < |Candidates(api, p, q, bare, false)|
    ensures var calls, k := Calls(api, p, q, bare), FirstReview(0, q, bare, false) + i;
      k < |calls| && calls[k] == ReviewCall(At(q, Candidates(api, p, q, bare, false)[i]))
  {
    var lists, cands, reviewed := CallShape(api, p, q, bare);
    var first := FirstReview(0, q, bare, false);
    assert AllAnswered(api, p + first, q, cands);
    assert reviewed == cands;
    assert Calls(api, p, q, bare)[first + i] == ListAndReviews(q, lists, reviewed)[first + i - 1];
  }

  predicate Distinct<T(==)>(s: seq<T>) {
    forall i, j :: 0 <= i < j < |s| ==> s[i] != s[j]
  }

  lemma DistinctReviews(q: Request, lists: bool, reviewed: seq<string>)
    requires Distinct(reviewed)
    ensures Distinct(ListAndReviews(q, lists, reviewed))
    ensures ReviewCall(At(q, "")) in ListAndReviews(q, lists, reviewed) ==> "" in reviewed
  {
    var reviews := ReviewCalls(q, reviewed);
    assert Distinct(reviews) && ListCall !in reviews by {
      assert forall i :: 0 <= i < |reviews| ==> reviews[i] == ReviewCall(At(q, reviewed[i]));
    }
    assert ReviewCall(At(q, "")) in reviews ==> "" in reviewed;
  }

  /** Distinct requested namespaces are reviewed at most once each after the cluster-wide review. */
  lemma NoNamespaceReviewedTwice(api: Api, p: nat, q: Request, bare: bool)
    requires q.namespaces != [] && Distinct(q.namespaces)
    ensures Distinct(Calls(api, p, q, bare)[1..])
    ensures "" !in q.namespaces ==> Distinct(Calls(api, p, q, bare))
  {
    var lists, cands, reviewed := CallShape(api, p, q, bare);
    DistinctReviews(q, lists, reviewed);
    var calls := Calls(api, p, q, bare);
    assert calls[1..] == ListAndReviews(q, lists, reviewed);
    if "" !in q.namespaces {
      assert "" !in reviewed;
      forall i, j | 0 <= i < j < |calls| ensures calls[i] != calls[j] {
        assert calls[j] == calls[1..][j - 1];
        if i > 0 { assert calls[i] == calls[1..][i - 1]; }
      }
    }
  }

  /** A review about this access of this user, in whatever namespace. */
  predicate Concerns(call: Call, user: string, groups: seq<string>, verb: string, resource: string,
      resourceName: string, apiGroup: string) {
    call.ReviewCall? ==>
      && call.review.user == user && call.review.groups == groups && call.review.verb == verb
      && call.review.resource == resource && call.review.resourceName == resourceName
      && call.review.apiGroup == apiGroup
  }

  lemma RestConcerns(q: Request, lists: bool, reviewed: seq<string>)
    ensures forall k :: 0 <= k < |ListAndReviews(q, lists, reviewed)| ==>
      Concerns(ListAndReviews(q, lists, reviewed)[k], q.user, q.groups, q.verb, q.resource, q.resourceName, q.apiGroup)
  {
    var rest, first := ListAndReviews(q, lists, reviewed), if lists then 1 else 0;
    forall k | first <= k < |rest| ensures rest[k] == ReviewCall(At(q, reviewed[k - first])) {}
  }

  /** Every review of an evaluation is of the access that was requested, the first in no namespace. */
  lemma QuestionsAreOfTheRequest(api: Api, p: nat, q: Request, bare: bool)
    ensures var calls := Calls(api, p, q, bare);
      && |calls| > 0 && calls[0].ReviewCall? && calls[0].review.namespace == ""
      && forall k :: 0 <= k < |calls| ==>
           Concerns(calls[k], q.user, q.groups, q.verb, q.resource, q.resourceName, q.apiGroup)
  {
    var lists, cands, reviewed := CallShape(api, p, q, bare);
    RestConcerns(q, lists, reviewed);
    HeadConcerns(q, Calls(api, p, q, bare), ListAndReviews(q, lists, reviewed));
  }

  lemma HeadConcerns(q: Request, calls: seq<Call>, rest: seq<Call>)
    requires calls == [ReviewCall(At(q, ""))] + rest
    requires forall k :: 0 <= k < |rest| ==>
      Concerns(rest[k], q.user, q.groups, q.verb, q.resource, q.resourceName, q.apiGroup)
    ensures forall k :: 0 <= k < |calls| ==>
      Concerns(calls[k], q.user, q.groups, q.verb, q.resource, q.resourceName, q.apiGroup)
  {
  }

  lemma ListsExactly(api: Api, p: nat, q: Request, bare: bool)
    ensures ListCall in Calls(api, p, q, bare) <==>
      api.review(p, At(q, "")).Got? && Lists(q, bare, api.review(p, At(q, "")).value)
  {
    var lists, cands, reviewed := CallShape(api, p, q, bare);
    var calls, rest := Calls(api, p, q, bare), ListAndReviews(q, lists, reviewed);
    assert ListCall !in ReviewCalls(q, reviewed);
    assert calls == [ReviewCall(At(q, ""))] + rest;
    if lists { assert rest[0] == ListCall; }
  }

  /** After the cluster-wide review, an evaluation of requested namespaces reviews no others. */
  lemma OnlyRequestedReviewed(api: Api, p: nat, q: Request, bare: bool)
    requires q.namespaces != []
    ensures var calls := Calls(api, p, q, bare);
      && calls[0] == ReviewCall(At(q, ""))
      && forall k :: 1 <= k < |calls| && calls[k].ReviewCall? ==> calls[k].review.namespace in q.namespaces
  {
    var lists, cands, reviewed := CallShape(api, p, q, bare);
    var calls, first := Calls(api, p, q, bare), if lists then 2 else 1;
    forall k | 1 <= k < |calls| && calls[k].ReviewCall? ensures calls[k].review.namespace in q.namespaces {
      assert calls[k] == ListAndReviews(q, lists, reviewed)[k - 1];
      assert calls[k] == ReviewCall(At(q, reviewed[k - first]));
      assert reviewed[k - first] == cands[k - first];
    }
  }

  // ---- One call at a time ----

  /** Where an evaluation stands: the next call it will make, or its outcome. */
  datatype Pc =
    | AskCluster
    | AskListing
    | AskMetadata
    | AskNamespace(cands: seq<string>, i: nat, allowed: seq<string>)
    | Finished(outcome: Result<Grant>)

  function Loop(cands: seq<string>, i: nat, allowed: seq<string>, bare: bool, compiles: string -> bool): Pc {
    if i < |cands| then AskNamespace(cands, i, allowed)
    else Finished(if allowed == [] then Ok(Flag(false)) else Conclude(allowed, bare, compiles))
  }

  function AfterDenial(q: Request, bare: bool, compiles: string -> bool): Pc {
    if q.metadataOnly && q.namespaces == [] then AskMetadata else Loop(q.namespaces, 0, [], bare, compiles)
  }

  /** Makes the next call, as call k, and digests the reply. */
  function Advance(api: Api, k: nat, q: Request, bare: bool, compiles: string -> bool, pc: Pc): Pc {
    match pc
    case AskCluster =>
      (match api.review(k, At(q, ""))
       case Failed => Finished(Err(ClusterReview))
       case Got(cluster) =>
         if q.verb == CREATE then Finished(Ok(Flag(cluster)))
         else if cluster then (if bare then Finished(Ok(Flag(true))) else AskListing)
         else AfterDenial(q, bare, compiles))
    case AskListing =>
      (match api.list(k)
       case Failed => Finished(Err(ListNamespaces))
       case Got(listing) =>
         Finished(Conclude(
           if q.namespaces == [] then listing else Pick(q.namespaces, ListedFlags(q.namespaces, listing)),
           bare, compiles)))
    case AskMetadata =>
      (match api.list(k)
       case Failed => Finished(Err(ListNamespaces))
       case Got(listing) =>
         if listing == [] then Finished(Ok(Flag(false))) else Loop(listing, 0, [], bare, compiles))
    case AskNamespace(cands, i, allowed) =>
      if i >= |cands| then pc else
      (match api.review(k, At(q, cands[i]))
       case Failed => Finished(Err(NamespaceReview))
       case Got(ok) => Loop(cands, i + 1, if ok then allowed + [cands[i]] else allowed, bare, compiles))
    case Finished(_) => pc
  }

  predicate Sound(pc: Pc) {
    pc.AskNamespace? ==> pc.i < |pc.cands|
  }

  /** Whether an evaluation has a call left to make. */
  predicate Asks(pc: Pc) {
    !pc.Finished? && Sound(pc)
  }

  /** The call that an evaluation makes next. */
  function NextCall(q: Request, pc: Pc): Call
    requires Asks(pc)
  {
    match pc
    case AskCluster => ReviewCall(At(q, ""))
    case AskNamespace(cands, i, _) => ReviewCall(At(q, cands[i]))
    case _ => ListCall
  }

  function Rank(pc: Pc): nat {
    match pc
    case AskCluster => 3
    case AskListing => 2
    case AskMetadata => 2
    case AskNamespace(_, _, _) => 1
    case Finished(_) => 0
  }

  /** The outcome of running an evaluation to its end, with call k next. */
  function Finish(api: Api, k: nat, q: Request, bare: bool, compiles: string -> bool, pc: Pc): Result<Grant>
    requires Sound(pc)
    decreases Rank(pc), if pc.AskNamespace? then |pc.cands| - pc.i else 0
  {
    if pc.Finished? then pc.outcome
    else Finish(api, k + 1, q, bare, compiles, Advance(api, k, q, bare, compiles, pc))
  }

  /** The calls made by running an evaluation to its end, with call k next. */
  function CallsFrom(api: Api, k: nat, q: Request, bare: bool, compiles: string -> bool, pc: Pc): seq<Call>
    requires Sound(pc)
    decreases Rank(pc), if pc.AskNamespace? then |pc.cands| - pc.i else 0
  {
    if pc.Finished? then []
    else [NextCall(q, pc)] + CallsFrom(api, k + 1, q, bare, compiles, Advance(api, k, q, bare, compiles, pc))
  }

  /** What the loop has granted after i candidates. */
  function AllowedUpTo(api: Api, p: nat, q: Request, cands: seq<string>, i: nat): seq<string>
    requires i <= |cands|
  {
    Pick(cands[..i], ReviewFlags(api, p, q, cands)[..i])
  }

  lemma AllowedNext(api: Api, p: nat, q: Request, cands: seq<string>, i: nat)
    requires i < |cands|
    ensures AllowedUpTo(api, p, q, cands, i + 1) ==
      AllowedUpTo(api, p, q, cands, i) + if ReplyTo(api, p, q, cands, i) == Got(true) then [cands[i]] else []
  {
    var flags := ReviewFlags(api, p, q, cands);
    assert cands[..i + 1][..i] == cands[..i] && flags[..i + 1][..i] == flags[..i];
  }

  lemma AllowedAtEnds(api: Api, p: nat, q: Request, cands: seq<string>)
    ensures AllowedUpTo(api, p, q, cands, 0) == []
    ensures AllowedUpTo(api, p, q, cands, |cands|) == Pick(cands, ReviewFlags(api, p, q, cands))
  {
    var flags := ReviewFlags(api, p, q, cands);
    assert cands[..|cands|] == cands && flags[..|cands|] == flags;
  }

  lemma AnsweredNext(api: Api, p: nat, q: Request, cands: seq<string>, i: nat)
    requires i < |cands| && AllAnswered(api, p, q, cands[..i]) && ReplyTo(api, p, q, cands, i).Got?
    ensures AllAnswered(api, p, q, cands[..i + 1])
  {
    var upto := cands[..i + 1];
    forall j | 0 <= j < |upto| ensures ReplyTo(api, p, q, upto, j).Got? {
      if j < i { assert ReplyTo(api, p, q, cands[..i], j).Got?; }
    }
  }

  lemma LoopTakesReply(api: Api, p: nat, q: Request, bare: bool, compiles: string -> bool, cands: seq<string>,
      i: nat, allowed: seq<string>)
    requires i < |cands|
    ensures var reply := ReplyTo(api, p, q, cands, i);
      Finish(api, p + i, q, bare, compiles, Loop(cands, i, allowed, bare, compiles)) ==
        if reply.Failed? then Err(NamespaceReview)
        else
          var more := if reply.value then allowed + [cands[i]] else allowed;
          Finish(api, p + i + 1, q, bare, compiles, Loop(cands, i + 1, more, bare, compiles))
  {
  }

  lemma {:induction false} LoopDecides(api: Api, p: nat, q: Request, bare: bool, compiles: string -> bool,
      cands: seq<string>, i: nat)
    requires i <= |cands| && AllAnswered(api, p, q, cands[..i])
    ensures
      Finish(api, p + i, q, bare, compiles, Loop(cands, i, AllowedUpTo(api, p, q, cands, i), bare, compiles)) ==
      DecideEach(api, p, q, cands, bare, compiles)
    decreases |cands| - i
  {
    var allowed := AllowedUpTo(api, p, q, cands, i);
    if i == |cands| {
      AllowedAtEnds(api, p, q, cands);
      assert cands[..i] == cands;
    } else {
      LoopTakesReply(api, p, q, bare, compiles, cands, i, allowed);
      if ReplyTo(api, p, q, cands, i).Got? {
        AnsweredNext(api, p, q, cands, i);
        LoopDecides(api, p, q, bare, compiles, cands, i + 1);
        AllowedNext(api, p, q, cands, i);
        assert AllowedUpTo(api, p, q, cands, i + 1) ==
          if ReplyTo(api, p, q, cands, i).value then allowed + [cands[i]] else allowed;
      }
    }
  }

  lemma MetadataDecides(api: Api, p: nat, q: Request, bare: bool, compiles: string -> bool)
    requires q.metadataOnly && q.namespaces == []
    ensures Finish(api, p, q, bare, compiles, AskMetadata) == DecideNamespaced(api, p, q, bare, compiles)
  {
    if api.list(p).Got? && api.list(p).value != [] {
      var listing := api.list(p).value;
      AllowedAtEnds(api, p + 1, q, listing);
      LoopDecides(api, p + 1, q, bare, compiles, listing, 0);
      assert Advance(api, p, q, bare, compiles, AskMetadata) == Loop(listing, 0, [], bare, compiles);
    }
  }

  lemma NamespacedDecides(api: Api, p: nat, q: Request, bare: bool, compiles: string -> bool)
    ensures Finish(api, p, q, bare, compiles, AfterDenial(q, bare, compiles)) ==
      DecideNamespaced(api, p, q, bare, compiles)
  {
    if q.metadataOnly && q.namespaces == [] {
      MetadataDecides(api, p, q, bare, compiles);
    } else {
      AllowedAtEnds(api, p, q, q.namespaces);
      LoopDecides(api, p, q, bare, compiles, q.namespaces, 0);
    }
  }

  lemma ListingDecides(api: Api, p: nat, q: Request, compiles: string -> bool)
    ensures Finish(api, p, q, false, compiles, AskListing) == DecideClusterWide(api, p, q, false, compiles)
  {
  }

  /** The evaluation run one call at a time reaches the decision. */
  lemma StepsReachDecision(api: Api, p: nat, q: Request, bare: bool, compiles: string -> bool)
    ensures Finish(api, p, q, bare, compiles, AskCluster) == Decide(api, p, q, bare, compiles)
  {
    var next := Advance(api, p, q, bare, compiles, AskCluster);
    assert Finish(api, p, q, bare, compiles, AskCluster) == Finish(api, p + 1, q, bare, compiles, next);
    if next == AskListing {
      ListingDecides(api, p + 1, q, compiles);
    } else if next == AfterDenial(q, bare, compiles) {
      NamespacedDecides(api, p + 1, q, bare, compiles);
    }
  }

  lemma ReviewCallsSplit(q: Request, cands: seq<string>, i: nat, n: nat)
    requires i < n <= |cands|
    ensures ReviewCalls(q, cands[i..n]) == [ReviewCall(At(q, cands[i]))] + ReviewCalls(q, cands[i + 1..n])
  {
  }

  lemma LoopMakesCall(api: Api, p: nat, q: Request, bare: bool, compiles: string -> bool, cands: seq<string>, i: nat,
      allowed: seq<string>)
    requires i < |cands|
    ensures var reply := ReplyTo(api, p, q, cands, i);
      var next :=
        if reply.Failed? then Finished(Err(NamespaceReview))
        else Loop(cands, i + 1, if reply.value then allowed + [cands[i]] else allowed, bare, compiles);
      CallsFrom(api, p + i, q, bare, compiles, Loop(cands, i, allowed, bare, compiles)) ==
        [ReviewCall(At(q, cands[i]))] + CallsFrom(api, p + i + 1, q, bare, compiles, next)
  {
  }

  lemma LoopStopsAtFailure(api: Api, p: nat, q: Request, bare: bool, compiles: string -> bool,
      cands: seq<string>, i: nat, allowed: seq<string>)
    requires i < |cands| && ReplyTo(api, p, q, cands, i).Failed?
    ensures LoopCallsFrom(api, p, q, bare, compiles, cands, i, allowed) == [ReviewCall(At(q, cands[i]))]
    ensures ReviewCalls(q, cands[i..Reached(api, p, q, cands, i)]) == [ReviewCall(At(q, cands[i]))]
  {
    LoopMakesCall(api, p, q, bare, compiles, cands, i, allowed);
  }

  /** The calls that the loop makes from candidate i on. */
  function LoopCallsFrom(api: Api, p: nat, q: Request, bare: bool, compiles: string -> bool,
      cands: seq<string>, i: nat, allowed: seq<string>): seq<Call>
    requires i <= |cands|
  {
    CallsFrom(api, p + i, q, bare, compiles, Loop(cands, i, allowed, bare, compiles))
  }

  lemma LoopGoesOn(api: Api, p: nat, q: Request, bare: bool, compiles: string -> bool, cands: seq<string>, i: nat,
      allowed: seq<string>, more: seq<string>, rest: seq<Call>)
    requires i < |cands| && ReplyTo(api, p, q, cands, i).Got?
    requires more == if ReplyTo(api, p, q, cands, i).value then allowed + [cands[i]] else allowed
    requires LoopCallsFrom(api, p, q, bare, compiles, cands, i + 1, more) == rest
    ensures LoopCallsFrom(api, p, q, bare, compiles, cands, i, allowed) == [ReviewCall(At(q, cands[i]))] + rest
  {
    LoopMakesCall(api, p, q, bare, compiles, cands, i, allowed);
  }

  lemma {:induction false} LoopMakesCalls(api: Api, p: nat, q: Request, bare: bool, compiles: string -> bool,
      cands: seq<string>, i: nat, allowed: seq<string>)
    requires i <= |cands|
    ensures LoopCallsFrom(api, p, q, bare, compiles, cands, i, allowed) ==
      ReviewCalls(q, cands[i..Reached(api, p, q, cands, i)])
    decreases |cands| - i
  {
    if i < |cands| {
      var reply, n := ReplyTo(api, p, q, cands, i), Reached(api, p, q, cands, i);
      if reply.Failed? {
        LoopStopsAtFailure(api, p, q, bare, compiles, cands, i, allowed);
      } else {
        var more := if reply.value then allowed + [cands[i]] else allowed;
        LoopMakesCalls(api, p, q, bare, compiles, cands, i + 1, more);
        LoopGoesOn(api, p, q, bare, compiles, cands, i, allowed, more, ReviewCalls(q, cands[i + 1..n]));
        ReviewCallsSplit(q, cands, i, n);
      }
    }
  }

  lemma NamespacedMakesCalls(api: Api, p: nat, q: Request, bare: bool, compiles: string -> bool)
    ensures CallsFrom(api, p, q, bare, compiles, AfterDenial(q, bare, compiles)) == NamespacedCalls(api, p, q)
  {
    if q.metadataOnly && q.namespaces == [] {
      if api.list(p).Got? && api.list(p).value != [] {
        LoopMakesCalls(api, p + 1, q, bare, compiles, api.list(p).value, 0, []);
      }
    } else {
      LoopMakesCalls(api, p, q, bare, compiles, q.namespaces, 0, []);
    }
  }

  /** The evaluation run one call at a time makes exactly the specified calls. */
  lemma StepsMakeCalls(api: Api, p: nat, q: Request, bare: bool, compiles: string -> bool)
    ensures CallsFrom(api, p, q, bare, compiles, AskCluster) == Calls(api, p, q, bare)
  {
    var next := Advance(api, p, q, bare, compiles, AskCluster);
    assert CallsFrom(api, p, q, bare, compiles, AskCluster) ==
      [ReviewCall(At(q, ""))] + CallsFrom(api, p + 1, q, bare, compiles, next);
    if next == AfterDenial(q, bare, compiles) { NamespacedMakesCalls(api, p + 1, q, bare, compiles); }
  }
}
