/** Where the names in an answer come from, when the policy changes during the run: each was allowed by the
    policy that was in force when it was asked about. */
module Grants {
  import opened Text
  import opened Responses
  import opened CacheKeys
  import opened TtlCache
  import opened Decisions
  import opened Policies
  import opened Authorizers
  import opened Gateways
  import opened Moments
  import opened Runs

  /** Step j of the run made this call for the request, under the policy that was in force there. */
  ghost predicate CalledAt(c: Config, policy: Policy, steps: seq<Step>, id: nat, call: Call, j: nat) {
    && j < |steps| && steps[j] == Ask(id)
    && (var s := Exec(c, policy, steps[..j]);
        Enabled(c, s, Ask(id)) && LastAsked(s, s.threads[id]).call == call)
  }

  /** The namespace was reviewed at step j and allowed by the policy in force there. */
  ghost predicate AllowedAt(c: Config, policy: Policy, steps: seq<Step>, id: nat, q: Request, ns: string, j: nat) {
    var review := Review(q.user, q.groups, q.verb, q.resource, q.resourceName, q.apiGroup, ns);
    && CalledAt(c, policy, steps, id, ReviewCall(review), j)
    && Exec(c, policy, steps[..j]).policy.review(q.token, review) == Got(true)
  }

  /** The namespaces were listed at step j, and the policy in force there listed this one. */
  ghost predicate ListedAt(c: Config, policy: Policy, steps: seq<Step>, id: nat, q: Request, ns: string, j: nat) {
    && CalledAt(c, policy, steps, id, ListCall, j)
    && (var listed := Exec(c, policy, steps[..j]).policy.list(q.token); listed.Got? && ns in listed.value)
  }

  /** The name was allowed by itself, or the whole cluster was allowed and the name then listed. */
  ghost predicate GrantedInRun(c: Config, policy: Policy, steps: seq<Step>, id: nat, q: Request, ns: string) {
    || (exists j :: AllowedAt(c, policy, steps, id, q, ns, j))
    || (exists j, k :: j < k && AllowedAt(c, policy, steps, id, q, "", j) && ListedAt(c, policy, steps, id, q, ns, k))
  }

  lemma CallOfRun(c: Config, policy: Policy, steps: seq<Step>, id: nat, k: nat) returns (j: nat)
    requires id in Exec(c, policy, steps).threads && k < |Exec(c, policy, steps).threads[id].asked|
    ensures CalledAt(c, policy, steps, id, CallsOf(Exec(c, policy, steps).threads[id])[k], j)
    ensures Exec(c, policy, steps[..j]).policy == PoliciesMet(Exec(c, policy, steps).threads[id])[k]
    ensures |Exec(c, policy, steps[..j]).threads[id].asked| == k
  {
    j := AskedPolicyWasInForce(c, policy, steps, id, k);
  }

  /** Each name that an evaluation grants was allowed by its own review, or was listed by the second call
      after the first, the cluster-wide review, was allowed. */
  lemma GrantsComeFromCalls(api: Api, q: Request, compiles: string -> bool, ns: string) returns (k: nat)
    requires q.verb == GET && Decide(api, 0, q, false, compiles).Ok?
    requires ns in Names(Decide(api, 0, q, false, compiles).value)
    ensures var calls := Calls(api, 0, q, false);
      && k < |calls|
      && (if api.review(0, At(q, "")) == Got(true)
          then k == 1 && calls[0] == ReviewCall(At(q, "")) && calls[1] == ListCall
               && api.list(1).Got? && ns in api.list(1).value
          else calls[k] == ReviewCall(At(q, ns)) && api.review(k, At(q, ns)) == Got(true))
  {
    var cluster, i := GrantedIsJustified(api, q, compiles, ns);
    if cluster {
      k := 1;
    } else {
      k := FirstReview(0, q, false, false) + i;
      ReviewIsCalled(api, 0, q, false, compiles, i);
    }
  }

  lemma GrantedIsJustified(api: Api, q: Request, compiles: string -> bool, ns: string)
    returns (cluster: bool, i: nat)
    requires q.verb == GET && Decide(api, 0, q, false, compiles).Ok?
    requires ns in Names(Decide(api, 0, q, false, compiles).value)
    ensures api.review(0, At(q, "")) == Got(cluster) && Justified(api, 0, q, false, cluster, i)
    ensures Candidates(api, 0, q, false, cluster)[i] == ns
  {
    cluster := GrantsExactlyTheJustified(api, 0, q, false, compiles);
    var names := Names(Decide(api, 0, q, false, compiles).value);
    var n :| 0 <= n < |names| && names[n] == ns;
    i := Positions(JustifiedFlags(api, 0, q, false, cluster))[n];
  }

  lemma {:induction false} AskedGrows(c: Config, policy: Policy, steps: seq<Step>, id: nat, i: nat, j: nat)
    requires i <= j <= |steps| && id in Exec(c, policy, steps[..i]).threads
    ensures id in Exec(c, policy, steps[..j]).threads
    ensures |Exec(c, policy, steps[..i]).threads[id].asked| <= |Exec(c, policy, steps[..j]).threads[id].asked|
  {
    if i < j {
      AskedGrows(c, policy, steps, id, i, j - 1);
      ExecNext(c, policy, steps, j - 1);
      var s := Exec(c, policy, steps[..j - 1]);
      if Enabled(c, s, steps[j - 1]) {
        KeepsIncoming(c, s, steps[j - 1], id);
        if steps[j - 1] != Ask(id) { StepKeepsCalls(c, s, steps[j - 1], id); }
      }
    }
  }

  /** A request whose evaluation is finished was granted each of its names during the run. */
  lemma {:induction false} GrantsWereMade(c: Config, policy: Policy, steps: seq<Step>, id: nat, ns: string)
    requires id in Exec(c, policy, steps).threads && Progress(c, Exec(c, policy, steps).threads[id]).Finished?
    requires var t := Exec(c, policy, steps).threads[id];
      && t.incoming.q.verb == GET && !IsBare(c, t.incoming)
      && OwnDecision(c, t).Ok? && ns in Names(OwnDecision(c, t).value)
    ensures GrantedInRun(c, policy, steps, id, Canonical(Exec(c, policy, steps).threads[id].incoming.q), ns)
  {
    var t := Exec(c, policy, steps).threads[id];
    var api, q := Experience(t), Canonical(t.incoming.q);
    CallsAreOfTheEvaluation(c, policy, steps, id);
    var k := GrantsComeFromCalls(api, q, c.compiles, ns);
    var j := CallOfRun(c, policy, steps, id, k);
    if api.review(0, At(q, "")) == Got(true) {
      var i := CallOfRun(c, policy, steps, id, 0);
      if j <= i { AskedGrows(c, policy, steps, id, j, i); }
      assert AllowedAt(c, policy, steps, id, q, "", i) && ListedAt(c, policy, steps, id, q, ns, j);
    } else {
      assert AllowedAt(c, policy, steps, id, q, ns, j);
    }
  }

  /** In any run, whatever the policy changes and whatever the strings hold, a positive answer to a read that
      needs a matcher names namespaces each of which was granted before one step of the run stored the
      answer: by its own review, or by a listing after the cluster-wide review, each time under the policy in
      force. The maker of the answer has the same key, and unless it is the request itself the answer was
      given out within the time to live. */
  lemma {:induction false} PositiveAnswersWereGranted(c: Config, policy: Policy, steps: seq<Step>, id: nat)
    returns (maker: nat, stored: nat, served: nat, names: seq<string>)
    requires HexDigest(c.hash) && Answered(Exec(c, policy, steps), id)
    requires var i := Exec(c, policy, steps).threads[id].incoming; i.q.verb == GET && !IsBare(c, i)
    requires Positive(Exec(c, policy, steps).threads[id].phase.answer.value)
    ensures FinishedBy(c, policy, steps, id, served) && FinishedBy(c, policy, steps, maker, stored)
    ensures stored <= served
    ensures maker != id ==> Young(c.ttl, Clock(c, policy, steps, stored), Clock(c, policy, steps, served))
    ensures var m, t := Exec(c, policy, steps).threads[maker], Exec(c, policy, steps).threads[id];
      && KeyOf(c, m.incoming) == KeyOf(c, t.incoming)
      && t.phase.answer.value == BodyFor(c, m.incoming, Scope(names)) && names != []
      && forall ns :: ns in names ==>
           GrantedInRun(c, policy, steps[..stored], maker, Canonical(m.incoming.q), ns)
  {
    maker, stored, served := BoundedStaleness(c, policy, steps, id);
    var m, t := Exec(c, policy, steps).threads[maker], Exec(c, policy, steps).threads[id];
    KeyRevealsVerbAndMatcher(c.hash, m.incoming.q, MatcherOf(c, m.incoming).keys, t.incoming.q,
        MatcherOf(c, t.incoming).keys);
    ScopedDecision(c, m);
    var g := OwnDecision(c, m).value;
    BodyMeaning(g, MatcherOf(c, m.incoming).keys, MatcherOf(c, m.incoming).op);
    names := Names(g);
    MakerBeforeStore(c, policy, steps, maker, stored);
    forall ns | ns in names
      ensures GrantedInRun(c, policy, steps[..stored], maker, Canonical(m.incoming.q), ns)
    {
      GrantsWereMade(c, policy, steps[..stored], maker, ns);
    }
  }

  /** In any run, a successful answer to a write is the bare verdict of one cluster-wide review of that write,
      made by a request with the same key before the step that stored the answer, under the policy in force. */
  lemma {:induction false} WritesAreAnsweredByReview(c: Config, policy: Policy, steps: seq<Step>, id: nat)
    returns (maker: nat, stored: nat, served: nat, j: nat, allowed: bool)
    requires HexDigest(c.hash) && Answered(Exec(c, policy, steps), id)
    requires Exec(c, policy, steps).threads[id].incoming.q.verb == "create"
    ensures FinishedBy(c, policy, steps, id, served) && FinishedBy(c, policy, steps, maker, stored)
    ensures j < stored <= served
    ensures maker != id ==> Young(c.ttl, Clock(c, policy, steps, stored), Clock(c, policy, steps, served))
    ensures var m, t := Exec(c, policy, steps).threads[maker], Exec(c, policy, steps).threads[id];
      var q := m.incoming.q;
      var review := Review(q.user, Sorted(q.groups), "create", q.resource, q.resourceName, q.apiGroup, "");
      && KeyOf(c, m.incoming) == KeyOf(c, t.incoming)
      && t.phase.answer.value == JObject(map["result" := JBool(allowed)])
      && CalledAt(c, policy, steps[..stored], maker, ReviewCall(review), j)
      && Exec(c, policy, steps[..stored][..j]).policy.review(q.token, review) == Got(allowed)
  {
    maker, stored, served := BoundedStaleness(c, policy, steps, id);
    var m, t := Exec(c, policy, steps).threads[maker], Exec(c, policy, steps).threads[id];
    KeyRevealsVerbAndMatcher(c.hash, m.incoming.q, MatcherOf(c, m.incoming).keys, t.incoming.q,
        MatcherOf(c, t.incoming).keys);
    var g := OwnDecision(c, m).value;
    BodyMeaning(g, MatcherOf(c, m.incoming).keys, MatcherOf(c, m.incoming).op);
    MakerBeforeStore(c, policy, steps, maker, stored);
    j, allowed := WriteWasReviewed(c, policy, steps[..stored], maker);
  }

  /** The one call of a write. */
  lemma {:induction false} WriteWasReviewed(c: Config, policy: Policy, steps: seq<Step>, id: nat)
    returns (j: nat, allowed: bool)
    requires id in Exec(c, policy, steps).threads && Progress(c, Exec(c, policy, steps).threads[id]).Finished?
    requires var t := Exec(c, policy, steps).threads[id]; t.incoming.q.verb == "create" && OwnDecision(c, t).Ok?
    ensures var t := Exec(c, policy, steps).threads[id];
      var q := t.incoming.q;
      var review := Review(q.user, Sorted(q.groups), "create", q.resource, q.resourceName, q.apiGroup, "");
      && OwnDecision(c, t) == Ok(Flag(allowed))
      && CalledAt(c, policy, steps, id, ReviewCall(review), j)
      && Exec(c, policy, steps[..j]).policy.review(q.token, review) == Got(allowed)
  {
    var t := Exec(c, policy, steps).threads[id];
    WriteDecidedExactly(Experience(t), 0, Canonical(t.incoming.q), IsBare(c, t.incoming), c.compiles);
    allowed := OwnDecision(c, t).value.allowed;
    CallsAreOfTheEvaluation(c, policy, steps, id);
    j := CallOfRun(c, policy, steps, id, 0);
  }

  lemma MakerBeforeStore(c: Config, policy: Policy, steps: seq<Step>, id: nat, j: nat)
    requires FinishedBy(c, policy, steps, id, j) && steps[j].Store? && steps[j].id == id
    ensures var t, m := Exec(c, policy, steps[..j]).threads[id], Exec(c, policy, steps).threads[id];
      t.incoming == m.incoming && OwnDecision(c, t) == OwnDecision(c, m) && Progress(c, t).Finished?
  {
    var s := Exec(c, policy, steps[..j]);
    EveryRunKeeps(c, policy, steps[..j]);
    assert OnCourse(c, s.now, s.threads[id]);
    ExecNext(c, policy, steps, j);
    StepKeepsCalls(c, s, steps[j], id);
  }
}
