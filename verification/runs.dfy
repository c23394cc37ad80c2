/** What every schedule of requests, clock ticks, policy changes, losses and faults guarantees. */
module Runs {
  import opened Text
  import opened Regexps
  import opened Responses
  import opened CacheKeys
  import opened TtlCache
  import opened Decisions
  import opened Policies
  import opened Alike
  import opened Authorizers
  import opened Gateways
  import opened Moments

  predicate Answered(s: State, id: nat) {
    id in s.threads && s.threads[id].phase.Done? && s.threads[id].phase.answer.Ok?
  }

  /** The request's evaluation with no cache, against the policies that in fact answered its calls. */
  ghost function OwnDecision(c: Config, t: Thread): Result<Grant> {
    Decide(Experience(t), 0, Canonical(t.incoming.q), IsBare(c, t.incoming), c.compiles)
  }

  lemma FinishedIsOwnDecision(c: Config, t: Thread)
    requires Progress(c, t).Finished?
    ensures Progress(c, t).outcome == OwnDecision(c, t)
  {
    var api, q := Experience(t), Canonical(t.incoming.q);
    FinishedRunDecides(api, api, q, IsBare(c, t.incoming), c.compiles, |t.asked|);
  }

  // ---- Isolation ----

  /** No run changes the configured matcher, and a request that holds a matcher holds the one that the
      configuration and the request alone determine, whatever the other requests do in place. */
  lemma {:induction false} SharedMatcherNeverChanges(c: Config, policy: Policy, steps: seq<Step>)
    ensures var s := Exec(c, policy, steps);
      && HasObject(s, SHARED) && View(s, SHARED) == c.matcher
      && forall id :: id in s.threads && HasRef(s.threads[id].phase) && !s.threads[id].phase.Derived? ==>
           && HasObject(s, s.threads[id].phase.ref)
           && View(s, s.threads[id].phase.ref) == MatcherOf(c, s.threads[id].incoming)
  {
    EveryRunKeeps(c, policy, steps);
    var s := Exec(c, policy, steps);
    forall id | id in s.threads && HasRef(s.threads[id].phase) && !s.threads[id].phase.Derived?
      ensures HasObject(s, s.threads[id].phase.ref)
      ensures View(s, s.threads[id].phase.ref) == MatcherOf(c, s.threads[id].incoming)
    {
      assert Placed(c, s, id);
    }
  }

  // ---- Bounded staleness ----

  /** Every successful answer was decided by one evaluation, the request's own or that of a request with
      the same key, against the policies in force at its calls. One step of the run stored it, after all
      those calls, and one step gave it out. If it is another request's these are a store and a later
      lookup that are less than the time to live apart; if it is the request's own they are one store. */
  lemma {:induction false} BoundedStaleness(c: Config, policy: Policy, steps: seq<Step>, id: nat)
    returns (maker: nat, stored: nat, served: nat)
    requires Answered(Exec(c, policy, steps), id)
    ensures FinishedBy(c, policy, steps, id, served)
    ensures FinishedBy(c, policy, steps, maker, stored) && steps[stored].Store? && steps[stored].id == maker
    ensures if maker == id then stored == served
      else
        && stored < served && steps[stored] == Store(maker, false) && steps[served] == LookUp(id, false)
        && Clock(c, policy, steps, stored) <= Clock(c, policy, steps, served)
        && Young(c.ttl, Clock(c, policy, steps, stored), Clock(c, policy, steps, served))
    ensures var m, t := Exec(c, policy, steps).threads[maker], Exec(c, policy, steps).threads[id];
      && KnownVerb(m.incoming.q.verb) && KeyOf(c, m.incoming) == KeyOf(c, t.incoming)
      && OwnDecision(c, m).Ok? && t.phase.answer.value == BodyFor(c, m.incoming, OwnDecision(c, m).value)
      && m.asked == Exec(c, policy, steps[..stored]).threads[maker].asked
  {
    served := FinishingStep(c, policy, steps, id);
    if steps[served].LookUp? {
      var key := KeyOf(c, Exec(c, policy, steps).threads[id].incoming);
      stored := StoreBehindEntry(c, policy, steps, key, served);
      var e := Exec(c, policy, steps[..served]).items[key];
      maker := e.maker;
      StoringFinishes(c, policy, steps, key, e, stored);
    } else {
      maker, stored := id, served;
      StoreKeepsAsked(c, policy, steps, id, stored);
    }
    FinishedIsOwnDecision(c, Exec(c, policy, steps).threads[maker]);
  }

  /** A live entry was stored by an earlier step, not long before, for a request that stays as it was. */
  lemma StoreBehindEntry(c: Config, policy: Policy, steps: seq<Step>, key: string, k: nat) returns (stored: nat)
    requires k <= |steps|
    requires var s := Exec(c, policy, steps[..k]); key in s.items && Live(c.ttl, s.items[key].item, s.now)
    ensures var s := Exec(c, policy, steps[..k]);
      var e := s.items[key];
      && stored < k && StoredBy(c, policy, steps, key, e, stored)
      && e.at <= s.now && Young(c.ttl, e.at, s.now) && IsDone(s, e.maker)
      && e.maker in Exec(c, policy, steps).threads
      && (var m := Exec(c, policy, steps).threads[e.maker];
          KeyOf(c, m.incoming) == key && Produced(c, m, e.item.body))
  {
    EveryRunKeeps(c, policy, steps[..k]);
    var s := Exec(c, policy, steps[..k]);
    LiveEntryIsYoung(c, s, key);
    stored := StoringStepBefore(c, policy, steps, key, k);
    DoneStays(c, policy, steps, s.items[key].maker, k, |steps|);
    assert steps[..|steps|] == steps;
  }

  /** What was stored is served: a request that looks up a key while its entry is younger than the time to live
      and has been neither evicted nor replaced is finished by that lookup, with the answer of the request
      that stored it and without a call. A time to live of zero or less has no such limit. */
  lemma {:induction false} FreshEntryIsServed(c: Config, policy: Policy, steps: seq<Step>, maker: nat, i: nat,
      id: nat, k: nat)
    requires i < k < |steps| && steps[i] == Store(maker, false) && steps[k] == LookUp(id, false)
    requires Enabled(c, Exec(c, policy, steps[..i]), steps[i]) && Enabled(c, Exec(c, policy, steps[..k]), steps[k])
    requires var m, t := Exec(c, policy, steps[..i]).threads[maker], Exec(c, policy, steps[..k]).threads[id];
      && KeyOf(c, m.incoming) == KeyOf(c, t.incoming) && KnownVerb(t.incoming.q.verb)
      && forall n :: i < n < k ==> !Replaces(c, Exec(c, policy, steps[..n]), steps[n], KeyOf(c, t.incoming))
    requires c.ttl.nanos <= 0 || Clock(c, policy, steps, k) - Clock(c, policy, steps, i) < c.ttl.nanos
    ensures FinishedBy(c, policy, steps, id, k) && FinishedBy(c, policy, steps, maker, i)
    ensures var m, t := Exec(c, policy, steps).threads[maker], Exec(c, policy, steps).threads[id];
      t.phase.answer.Ok? && t.phase.answer == m.phase.answer && CallsOf(t) == []
  {
    var s, now := Exec(c, policy, steps[..i]), Exec(c, policy, steps[..k]);
    var key := KeyOf(c, now.threads[id].incoming);
    OwnKeyAtStore(c, policy, steps[..i], maker);
    var e := Entry(ItemAt(c.ttl, s.threads[maker].phase.body, s.now), maker, s.now);
    EntryStays(c, policy, steps, key, e, i, k);
    StoringFinishes(c, policy, steps, key, e, i);
    StoredIsAnswered(c, policy, steps, maker, i);
    HitFinishes(c, policy, steps, id, k, e);
  }

  lemma OwnKeyAtStore(c: Config, policy: Policy, steps: seq<Step>, id: nat)
    requires Enabled(c, Exec(c, policy, steps), Store(id, false))
    ensures var t := Exec(c, policy, steps).threads[id]; t.phase.key == KeyOf(c, t.incoming)
  {
    EveryRunKeeps(c, policy, steps);
    assert OnCourse(c, Exec(c, policy, steps).now, Exec(c, policy, steps).threads[id]);
  }

  lemma StoredIsAnswered(c: Config, policy: Policy, steps: seq<Step>, id: nat, i: nat)
    requires FinishedBy(c, policy, steps, id, i) && steps[i] == Store(id, false)
    ensures Exec(c, policy, steps).threads[id].phase.answer == Ok(Exec(c, policy, steps[..i]).threads[id].phase.body)
  {
    ExecNext(c, policy, steps, i);
  }

  lemma HitFinishes(c: Config, policy: Policy, steps: seq<Step>, id: nat, k: nat, e: Entry)
    requires k < |steps| && steps[k] == LookUp(id, false) && Enabled(c, Exec(c, policy, steps[..k]), steps[k])
    requires var s := Exec(c, policy, steps[..k]);
      var key := KeyOf(c, s.threads[id].incoming);
      && KnownVerb(s.threads[id].incoming.q.verb)
      && key in s.items && s.items[key] == e && Live(c.ttl, e.item, s.now)
    ensures FinishedBy(c, policy, steps, id, k)
    ensures var t := Exec(c, policy, steps).threads[id];
      t.phase.answer == Ok(e.item.body) && CallsOf(t) == []
  {
    var s := Exec(c, policy, steps[..k]);
    var t := s.threads[id];
    ExecNext(c, policy, steps, k);
    OwnKeyAtLookUp(c, policy, steps[..k], id);
    AnsweredByHit(c, s, id, t.phase.ref, t.incoming.q, KeyOf(c, t.incoming));
    LookUpEndsInRun(c, policy, steps[..k], id);
    KeepsIncoming(c, s, steps[k], id);
    DoneStays(c, policy, steps, id, k + 1, |steps|);
    assert steps[..|steps|] == steps;
  }

  lemma LiveEntryIsYoung(c: Config, s: State, key: string)
    requires CacheHonest(c, s) && key in s.items && Live(c.ttl, s.items[key].item, s.now)
    ensures var e := s.items[key];
      && e.at <= s.now && Young(c.ttl, e.at, s.now) && IsDone(s, e.maker)
      && KeyOf(c, s.threads[e.maker].incoming) == key && Produced(c, s.threads[e.maker], e.item.body)
  {
    assert EntryHonest(c, s, key);
  }

  lemma StoreKeepsAsked(c: Config, policy: Policy, steps: seq<Step>, id: nat, j: nat)
    requires FinishedBy(c, policy, steps, id, j) && steps[j].Store?
    ensures Exec(c, policy, steps[..j]).threads[id].asked == Exec(c, policy, steps).threads[id].asked
  {
    ExecNext(c, policy, steps, j);
    StepKeepsCalls(c, Exec(c, policy, steps[..j]), steps[j], id);
  }

  lemma StepRecordsPolicy(c: Config, s: State, step: Step, id: nat, k: nat)
    requires Enabled(c, s, step)
    requires id in Apply(c, s, step).threads && k < |Apply(c, s, step).threads[id].asked|
    ensures var calls := Apply(c, s, step).threads[id].asked;
      || (id in s.threads && k < |s.threads[id].asked| && calls[k] == s.threads[id].asked[k])
      || (step == Ask(id) && k == |s.threads[id].asked| && calls[k] == LastAsked(s, s.threads[id]))
  {
  }

  /** The k-th reply that a request received came from the policy in force at that moment of the run, in
      answer to the call that was next there. */
  lemma {:induction false} AskedPolicyWasInForce(c: Config, policy: Policy, steps: seq<Step>, id: nat, k: nat)
    returns (j: nat)
    requires id in Exec(c, policy, steps).threads && k < |Exec(c, policy, steps).threads[id].asked|
    ensures j < |steps| && steps[j] == Ask(id)
    ensures var s := Exec(c, policy, steps[..j]);
      && Enabled(c, s, Ask(id)) && |s.threads[id].asked| == k
      && Exec(c, policy, steps).threads[id].asked[k] == LastAsked(s, s.threads[id])
  {
    var before := steps[..|steps| - 1];
    var s := Exec(c, policy, before);
    var last := steps[|steps| - 1];
    if Enabled(c, s, last) { StepRecordsPolicy(c, s, last, id, k); }
    if id in s.threads && k < |s.threads[id].asked| {
      j := AskedPolicyWasInForce(c, policy, before, id, k);
      assert steps[..j] == before[..j];
    } else {
      j := |steps| - 1;
    }
  }

  /** The same bound in the flag's seconds: the 64-bit duration is exact for every positive setting. */
  lemma {:induction false} StalenessInSeconds(c: Config, policy: Policy, steps: seq<Step>, id: nat, expire: int)
    returns (maker: nat, stored: nat, served: nat)
    requires IsInt32(expire) && expire > 0 && c.ttl.nanos == Wrap64(expire * NANOS_PER_SECOND)
    requires Answered(Exec(c, policy, steps), id)
    ensures FinishedBy(c, policy, steps, id, served)
    ensures FinishedBy(c, policy, steps, maker, stored) && steps[stored].Store? && stored <= served
    ensures var t := Exec(c, policy, steps).threads[id];
      var m := Exec(c, policy, steps).threads[maker];
      OwnDecision(c, m).Ok? && t.phase.answer.value == BodyFor(c, m.incoming, OwnDecision(c, m).value)
    ensures var age := Clock(c, policy, steps, served) - Clock(c, policy, steps, stored);
      0 <= age <= expire * NANOS_PER_SECOND && (!c.ttl.edge ==> age < expire * NANOS_PER_SECOND)
  {
    maker, stored, served := BoundedStaleness(c, policy, steps, id);
    DurationNeverWraps(expire);
  }

  /** Only successful evaluations are in the cache: one step of the run stored the entry under the key of
      its own request, after that request's last call, with the expiry that follows from that moment. */
  lemma {:induction false} OnlySuccessesAreStored(c: Config, policy: Policy, steps: seq<Step>, key: string)
    returns (maker: nat, stored: nat)
    requires key in Exec(c, policy, steps).items
    ensures FinishedBy(c, policy, steps, maker, stored) && steps[stored] == Store(maker, false)
    ensures var s := Exec(c, policy, steps);
      var m := s.threads[maker];
      && KeyOf(c, m.incoming) == key && OwnDecision(c, m).Ok?
      && s.items[key].item ==
           ItemAt(c.ttl, BodyFor(c, m.incoming, OwnDecision(c, m).value), Clock(c, policy, steps, stored))
      && m.asked == Exec(c, policy, steps[..stored]).threads[maker].asked
  {
    EveryRunKeeps(c, policy, steps);
    var s := Exec(c, policy, steps);
    assert EntryHonest(c, s, key);
    maker := s.items[key].maker;
    FinishedIsOwnDecision(c, s.threads[maker]);
    stored := StoringStep(c, policy, steps, key);
    StoringFinishes(c, policy, steps, key, s.items[key], stored);
  }

  // ---- The calls ----

  /** In every run, what a request has asked the API server is a beginning of the calls of its evaluation,
      and all of them once that is finished. */
  lemma {:induction false} CallsAreOfTheEvaluation(c: Config, policy: Policy, steps: seq<Step>, id: nat)
    requires id in Exec(c, policy, steps).threads
    ensures var t := Exec(c, policy, steps).threads[id];
      && CallsOf(t) <= AllCalls(c, t)
      && (Progress(c, t).Finished? ==> CallsOf(t) == AllCalls(c, t))
  {
    EveryRunKeeps(c, policy, steps);
    var t := Exec(c, policy, steps).threads[id];
    assert Logged(c, t);
    RecordedCalls(Experience(t), Canonical(t.incoming.q), IsBare(c, t.incoming), c.compiles, CallsOf(t));
  }

  /** In every run, whatever a request has the API server review is the access that it asks for itself, with
      its groups sorted. */
  lemma {:induction false} EveryReviewIsOfItsRequest(c: Config, policy: Policy, steps: seq<Step>, id: nat)
    requires id in Exec(c, policy, steps).threads
    ensures var t := Exec(c, policy, steps).threads[id];
      var q := t.incoming.q;
      forall k :: 0 <= k < |CallsOf(t)| ==>
        Concerns(CallsOf(t)[k], q.user, Sorted(q.groups), q.verb, q.resource, q.resourceName, q.apiGroup)
  {
    CallsAreOfTheEvaluation(c, policy, steps, id);
    var t := Exec(c, policy, steps).threads[id];
    QuestionsAreOfTheRequest(Experience(t), 0, Canonical(t.incoming.q), IsBare(c, t.incoming));
  }

  /** All calls of the request's evaluation, against the policies that in fact answered them. */
  ghost function AllCalls(c: Config, t: Thread): seq<Call> {
    Calls(Experience(t), 0, Canonical(t.incoming.q), IsBare(c, t.incoming))
  }

  /** A finished request made no call if its lookup finished it, which happens without a known verb, on a
      failing cache and on a live entry; otherwise it made exactly the calls of its evaluation. */
  lemma {:induction false} CallsOfFinished(c: Config, policy: Policy, steps: seq<Step>, id: nat) returns (j: nat)
    requires IsDone(Exec(c, policy, steps), id)
    ensures FinishedBy(c, policy, steps, id, j)
    ensures var s, t := Exec(c, policy, steps[..j]), Exec(c, policy, steps).threads[id];
      var key := KeyOf(c, t.incoming);
      if steps[j].LookUp? then
        && CallsOf(t) == []
        && (|| !KnownVerb(t.incoming.q.verb) || steps[j].fault
            || (key in s.items && Live(c.ttl, s.items[key].item, s.now)))
      else CallsOf(t) == AllCalls(c, t)
  {
    j := FinishingStep(c, policy, steps, id);
    CallsAreOfTheEvaluation(c, policy, steps, id);
  }

  // ---- No bare grant ----

  lemma MatcherOfShape(c: Config, i: Incoming)
    ensures MatcherOf(c, i).keys != [] ==> MatcherOf(c, i).op == c.matcher.op
  {
  }

  lemma ScopedDecision(c: Config, t: Thread)
    requires OwnDecision(c, t).Ok? && t.incoming.q.verb == GET && !IsBare(c, t.incoming)
    ensures OwnDecision(c, t).value != Flag(true)
  {
  }

  /** A read that needs a matcher is never answered by a bare `true`, even from the cache and whatever the
      strings in any request hold. */
  lemma {:induction false} NoBareGrant(c: Config, policy: Policy, steps: seq<Step>, id: nat)
    requires HexDigest(c.hash) && Answered(Exec(c, policy, steps), id)
    requires var i := Exec(c, policy, steps).threads[id].incoming; i.q.verb == GET && !IsBare(c, i)
    ensures !BareGrant(Exec(c, policy, steps).threads[id].phase.answer.value)
  {
    var g := MakerOfAnswer(c, policy, steps, id);
  }

  /** The request behind such an answer was a read that needed a matcher with the same hash. */
  lemma {:induction false} MakerOfAnswer(c: Config, policy: Policy, steps: seq<Step>, id: nat) returns (g: Grant)
    requires HexDigest(c.hash) && Answered(Exec(c, policy, steps), id)
    requires var i := Exec(c, policy, steps).threads[id].incoming; i.q.verb == GET && !IsBare(c, i)
    ensures g != Flag(true) && !BareGrant(Exec(c, policy, steps).threads[id].phase.answer.value)
    ensures var s := Exec(c, policy, steps);
      var maker := s.threads[id].phase.source.maker;
      && maker in s.threads && !IsBare(c, s.threads[maker].incoming)
      && KeyOf(c, s.threads[maker].incoming) == KeyOf(c, s.threads[id].incoming)
      && s.threads[id].phase.answer.value == BodyFor(c, s.threads[maker].incoming, g)
      && MatcherHash(c.hash, MatcherOf(c, s.threads[maker].incoming).keys) ==
           MatcherHash(c.hash, MatcherOf(c, s.threads[id].incoming).keys)
  {
    EveryRunKeeps(c, policy, steps);
    var s := Exec(c, policy, steps);
    assert AnswerHonest(c, s, id);
    var t := s.threads[id];
    var maker := s.threads[t.phase.source.maker];
    FinishedIsOwnDecision(c, maker);
    KeyRevealsVerbAndMatcher(c.hash, maker.incoming.q, MatcherOf(c, maker.incoming).keys, t.incoming.q,
        MatcherOf(c, t.incoming).keys);
    ScopedDecision(c, maker);
    g := OwnDecision(c, maker).value;
    BodyMeaning(g, MatcherOf(c, maker.incoming).keys, MatcherOf(c, maker.incoming).op);
  }

  /** A positive answer to such a read carries one label matcher for each of the request's own keys, in key
      order, all naming the same non-empty list of namespaces. */
  lemma {:induction false} PositiveAnswersAreScoped(c: Config, policy: Policy, steps: seq<Step>, id: nat)
    returns (names: seq<string>)
    requires HexDigest(c.hash) && Answered(Exec(c, policy, steps), id)
    requires var i := Exec(c, policy, steps).threads[id].incoming; i.q.verb == GET && !IsBare(c, i)
    requires Positive(Exec(c, policy, steps).threads[id].phase.answer.value)
    requires var s := Exec(c, policy, steps);
      forall x :: x in s.threads && KeyOf(c, s.threads[x].incoming) == KeyOf(c, s.threads[id].incoming) ==>
        NoCollision(c.hash, MatcherInput(MatcherOf(c, s.threads[x].incoming).keys),
                    MatcherInput(MatcherOf(c, s.threads[id].incoming).keys))
    ensures names != []
    ensures var s := Exec(c, policy, steps);
      var m := MatcherOf(c, s.threads[id].incoming);
      ScopedGrant(s.threads[id].phase.answer.value, MatchersFor(m.keys, names), m.op)
  {
    var s := Exec(c, policy, steps);
    var g := MakerOfAnswer(c, policy, steps, id);
    var i := s.threads[id].incoming;
    var j := s.threads[s.threads[id].phase.source.maker].incoming;
    MatcherHashInjective(c.hash, c.matcher, c.migrate, j.q.resource, j.q.groups, j.selectors, i.q.resource,
        i.q.groups, i.selectors);
    MatcherOfShape(c, i);
    MatcherOfShape(c, j);
    BodyMeaning(g, MatcherOf(c, j).keys, MatcherOf(c, j).op);
    names := Names(g);
  }

  // ---- Transparency ----

  predicate PolicyStands(steps: seq<Step>) {
    forall k :: 0 <= k < |steps| ==> !steps[k].ChangePolicy?
  }

  ghost predicate OnlyPolicy(s: State, policy: Policy) {
    && s.policy == policy
    && forall id :: id in s.threads ==> MetOnly(s.threads[id], policy)
  }

  ghost predicate MetOnly(t: Thread, policy: Policy) {
    forall k :: 0 <= k < |t.asked| ==> t.asked[k].policy == policy
  }

  lemma StepKeepsOnlyPolicy(c: Config, s: State, step: Step, policy: Policy)
    requires Enabled(c, s, step) && !step.ChangePolicy? && OnlyPolicy(s, policy)
    ensures OnlyPolicy(Apply(c, s, step), policy)
  {
  }

  lemma {:induction false} RunMeetsOnlyPolicy(c: Config, policy: Policy, steps: seq<Step>)
    requires PolicyStands(steps)
    ensures OnlyPolicy(Exec(c, policy, steps), policy)
  {
    if steps != [] {
      var before := steps[..|steps| - 1];
      RunMeetsOnlyPolicy(c, policy, before);
      var s, step := Exec(c, policy, before), steps[|steps| - 1];
      if Enabled(c, s, step) { StepKeepsOnlyPolicy(c, s, step, policy); }
    }
  }

  /** The evaluation of a request on its own, with no cache. */
  ghost function Alone(c: Config, policy: Policy, i: Incoming): Result<Grant> {
    Evaluate(policy, Canonical(i.q), IsBare(c, i), c.compiles)
  }

  lemma FinishedIsAlone(c: Config, policy: Policy, t: Thread)
    requires MetOnly(t, policy) && Progress(c, t).Finished?
    ensures Progress(c, t).outcome == Alone(c, policy, t.incoming)
  {
    var fixed := Fixed(policy, t.incoming.q.token);
    forall k | 0 <= k < |t.asked| ensures AgreeAt(Experience(t), fixed, k) { assert PoliciesMet(t)[k] == policy; }
    assert AgreeBelow(Experience(t), fixed, |t.asked|);
    FinishedRunDecides(Experience(t), fixed, Canonical(t.incoming.q), IsBare(c, t.incoming), c.compiles, |t.asked|);
  }

  /** The body or the error that a request gets from its evaluation on its own. */
  ghost function AnswerAlone(c: Config, policy: Policy, i: Incoming): Result<Json> {
    match Alone(c, policy, i)
    case Ok(g) => Ok(BodyFor(c, i, g))
    case Err(e) => Err(e)
  }

  /** Requests that share the cache only where they may: if they have one key, their matchers' digests do not
      collide and they ask alike. */
  ghost predicate FaithfulPair(c: Config, i: Incoming, j: Incoming) {
    KeyOf(c, i) == KeyOf(c, j) ==>
      && NoCollision(c.hash, MatcherInput(MatcherOf(c, i).keys), MatcherInput(MatcherOf(c, j).keys))
      && AskAlike(Canonical(i.q), Canonical(j.q), IsBare(c, i), c.compiles)
  }

  lemma SameKeySameMatcher(c: Config, i: Incoming, j: Incoming)
    requires HexDigest(c.hash) && KnownVerb(i.q.verb) && KnownVerb(j.q.verb) && KeyOf(c, i) == KeyOf(c, j)
    requires NoCollision(c.hash, MatcherInput(MatcherOf(c, i).keys), MatcherInput(MatcherOf(c, j).keys))
    ensures i.q.verb == j.q.verb && i.q.metadataOnly == j.q.metadataOnly
    ensures MatcherOf(c, i).keys == MatcherOf(c, j).keys
    ensures !IsBare(c, i) ==> MatcherOf(c, i).op == MatcherOf(c, j).op
  {
    KeyRevealsVerbAndMatcher(c.hash, i.q, MatcherOf(c, i).keys, j.q, MatcherOf(c, j).keys);
    MatcherHashInjective(c.hash, c.matcher, c.migrate, i.q.resource, i.q.groups, i.selectors, j.q.resource,
        j.q.groups, j.selectors);
    MatcherOfShape(c, i);
    MatcherOfShape(c, j);
  }

  /** Two requests with one key get the same body if and only if their evaluations look alike. */
  lemma SameAnswerSameResult(c: Config, policy: Policy, i: Incoming, j: Incoming)
    requires HexDigest(c.hash) && KnownVerb(i.q.verb) && KnownVerb(j.q.verb) && KeyOf(c, i) == KeyOf(c, j)
    requires NoCollision(c.hash, MatcherInput(MatcherOf(c, i).keys), MatcherInput(MatcherOf(c, j).keys))
    ensures AnswerAlone(c, policy, i) == AnswerAlone(c, policy, j) <==>
      SameResult(Alone(c, policy, i), Alone(c, policy, j))
  {
    SameKeySameMatcher(c, i, j);
    if Alone(c, policy, i).Ok? && Alone(c, policy, j).Ok? {
      var a, b, m := Alone(c, policy, i).value, Alone(c, policy, j).value, MatcherOf(c, i);
      if IsBare(c, i) {
        BareGrantsAreFlags(policy, Canonical(i.q), c.compiles);
        BareGrantsAreFlags(policy, Canonical(j.q), c.compiles);
      }
      assert BodyFor(c, j, b) == Body(b, m.keys, m.op);
      SameShowSameBody(a, b, m.keys, m.op);
    }
  }

  /** One key means one answer. */
  lemma SameKeySameAnswer(c: Config, policy: Policy, i: Incoming, j: Incoming)
    requires HexDigest(c.hash) && KnownVerb(i.q.verb) && KnownVerb(j.q.verb)
    requires FaithfulPair(c, i, j) && KeyOf(c, i) == KeyOf(c, j)
    ensures AnswerAlone(c, policy, i) == AnswerAlone(c, policy, j)
  {
    SameKeySameMatcher(c, i, j);
    AlikeSameResult(policy, Canonical(i.q), Canonical(j.q), IsBare(c, i), c.compiles);
    SameAnswerSameResult(c, policy, i, j);
  }

  /** The first request's answer under its key would be right for the second as well. */
  ghost predicate Interchangeable(c: Config, policy: Policy, i: Incoming, j: Incoming) {
    KnownVerb(i.q.verb) && KnownVerb(j.q.verb) && KeyOf(c, i) == KeyOf(c, j) && Alone(c, policy, i).Ok? ==>
      AnswerAlone(c, policy, i) == AnswerAlone(c, policy, j)
  }

  /** What the schedule makes of a request whose key is shared only by interchangeable ones. */
  lemma {:induction false} OwnAnswer(c: Config, policy: Policy, steps: seq<Step>, id: nat) returns (j: nat)
    requires PolicyStands(steps)
    requires var s := Exec(c, policy, steps);
      && IsDone(s, id) && KnownVerb(s.threads[id].incoming.q.verb)
      && forall x :: x in s.threads ==> Interchangeable(c, policy, s.threads[x].incoming, s.threads[id].incoming)
    ensures FinishedBy(c, policy, steps, id, j)
    ensures var t := Exec(c, policy, steps).threads[id];
      t.phase.answer ==
        if steps[j] == LookUp(id, true) then Err(CacheGet) else AnswerAlone(c, policy, t.incoming)
  {
    j := FinishingStep(c, policy, steps, id);
    EveryRunKeeps(c, policy, steps);
    RunMeetsOnlyPolicy(c, policy, steps);
    var s := Exec(c, policy, steps);
    var t := s.threads[id];
    assert AnswerHonest(c, s, id) && MetOnly(t, policy);
    match t.phase.answer {
      case Ok(body) =>
        var maker := s.threads[t.phase.source.maker];
        assert MetOnly(maker, policy);
        FinishedIsAlone(c, policy, maker);
        assert Interchangeable(c, policy, maker.incoming, t.incoming);
      case Err(e) =>
        if e != CacheGet { FinishedIsAlone(c, policy, t); }
    }
  }

  /** Cache transparency: while the policy stands, any interleaving answers a request exactly as its
      evaluation alone would, unless its own lookup failed, and then it gets the cache's error. */
  lemma {:induction false} CacheTransparent(c: Config, policy: Policy, steps: seq<Step>, id: nat) returns (j: nat)
    requires HexDigest(c.hash) && PolicyStands(steps)
    requires var s := Exec(c, policy, steps);
      && IsDone(s, id) && KnownVerb(s.threads[id].incoming.q.verb)
      && forall x :: x in s.threads && KnownVerb(s.threads[x].incoming.q.verb) ==>
           FaithfulPair(c, s.threads[x].incoming, s.threads[id].incoming)
    ensures FinishedBy(c, policy, steps, id, j)
    ensures var t := Exec(c, policy, steps).threads[id];
      t.phase.answer ==
        if steps[j] == LookUp(id, true) then Err(CacheGet) else AnswerAlone(c, policy, t.incoming)
  {
    var s := Exec(c, policy, steps);
    forall x | x in s.threads
      ensures Interchangeable(c, policy, s.threads[x].incoming, s.threads[id].incoming)
    {
      var i := s.threads[x].incoming;
      if KnownVerb(i.q.verb) && KeyOf(c, i) == KeyOf(c, s.threads[id].incoming) {
        SameKeySameAnswer(c, policy, i, s.threads[id].incoming);
      }
    }
    j := OwnAnswer(c, policy, steps, id);
  }

  /** Requests that miss on one key at the same time are about to store equal answers. */
  lemma {:induction false} ConcurrentMissesAgree(c: Config, policy: Policy, steps: seq<Step>, a: nat, b: nat)
    requires HexDigest(c.hash) && PolicyStands(steps)
    requires var s := Exec(c, policy, steps);
      && a in s.threads && s.threads[a].phase.Storing? && b in s.threads && s.threads[b].phase.Storing?
      && s.threads[a].phase.key == s.threads[b].phase.key
      && FaithfulPair(c, s.threads[a].incoming, s.threads[b].incoming)
    ensures var s := Exec(c, policy, steps);
      s.threads[a].phase.body == s.threads[b].phase.body
  {
    EveryRunKeeps(c, policy, steps);
    RunMeetsOnlyPolicy(c, policy, steps);
    var s := Exec(c, policy, steps);
    assert OnCourse(c, s.now, s.threads[a]) && MetOnly(s.threads[a], policy);
    assert OnCourse(c, s.now, s.threads[b]) && MetOnly(s.threads[b], policy);
    FinishedIsAlone(c, policy, s.threads[a]);
    FinishedIsAlone(c, policy, s.threads[b]);
    SameKeySameAnswer(c, policy, s.threads[a].incoming, s.threads[b].incoming);
  }

  // ---- What answers mean ----

  /** End to end: while the policy stands, a read that needs a matcher is answered in any interleaving with
      one matcher per key of its own, each accepting exactly the namespaces that the policy permits it, or
      with a denial exactly when the policy permits it none. What it asks for may be any strings, as long
      as the permitted ones are plain names: no read can smuggle a pattern into its matcher. */
  lemma {:induction false} AnswersMeanThePolicy(c: Config, policy: Policy, steps: seq<Step>, id: nat)
    returns (names: seq<string>)
    requires HexDigest(c.hash) && PolicyStands(steps) && Answered(Exec(c, policy, steps), id)
    requires var s := Exec(c, policy, steps);
      var i := s.threads[id].incoming;
      && i.q.verb == GET && !IsBare(c, i)
      && (forall ns :: Permitted(policy, Canonical(i.q), ns) ==> PlainName(ns))
      && forall x :: x in s.threads && KnownVerb(s.threads[x].incoming.q.verb) ==>
           FaithfulPair(c, s.threads[x].incoming, i)
    ensures var t := Exec(c, policy, steps).threads[id];
      var body, m, q := t.phase.answer.value, MatcherOf(c, t.incoming), Canonical(t.incoming.q);
      if Positive(body) then
        && ScopedGrant(body, MatchersFor(m.keys, names), m.op)
        && forall k, ns :: 0 <= k < |m.keys| ==>
             && MatchersFor(m.keys, names)[k].name == m.keys[k]
             && (FullMatch(Parse(MatchersFor(m.keys, names)[k].value), ns) <==> Permitted(policy, q, ns))
      else forall ns :: !Permitted(policy, q, ns)
  {
    var j := CacheTransparent(c, policy, steps, id);
    var i := Exec(c, policy, steps).threads[id].incoming;
    var m, q := MatcherOf(c, i), Canonical(i.q);
    var g := Alone(c, policy, i).value;
    names := Names(g);
    BodyMeaning(g, m.keys, m.op);
    GrantedArePermitted(policy, q, c.compiles);
    if names != [] {
      forall k | 0 <= k < |names| ensures PlainName(names[k]) { assert names[k] in names; }
      forall k, ns | 0 <= k < |m.keys|
        ensures MatchersFor(m.keys, names)[k].name == m.keys[k]
        ensures FullMatch(Parse(MatchersFor(m.keys, names)[k].value), ns) <==> Permitted(policy, q, ns)
      {
        MatchersAcceptExactly(m.keys, names, k, ns);
      }
    }
  }
}
