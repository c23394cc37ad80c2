/** When two requests may share the cache: exactly when, wherever they have one key, each would have got the
    other's answer on its own. */
module Sharing {
  import opened Text
  import opened Regexps
  import opened Responses
  import opened Matchers
  import opened CacheKeys
  import opened TtlCache
  import opened Decisions
  import opened Policies
  import opened Alike
  import opened Authorizers
  import opened Gateways
  import opened Moments
  import opened Runs
  import opened Solo
  import opened Handlers

  /** A step that brings in no other request, keeps the policy and fails no lookup. */
  predicate Calm(step: Step, i: Incoming, j: Incoming) {
    && !step.ChangePolicy?
    && (step.Arrive? ==> step.incoming == i || step.incoming == j)
    && (step.LookUp? ==> !step.fault)
  }

  predicate CalmSchedule(steps: seq<Step>, i: Incoming, j: Incoming) {
    forall k :: 0 <= k < |steps| ==> Calm(steps[k], i, j)
  }

  /** However the two requests are scheduled, as often as one likes and under whatever policy, each is
      answered as it would be on its own. */
  ghost predicate AlwaysTransparent(c: Config, i: Incoming, j: Incoming) {
    forall policy, steps, id :: CalmSchedule(steps, i, j) && IsDone(Exec(c, policy, steps), id) ==>
      var t := Exec(c, policy, steps).threads[id];
      t.phase.answer == AnswerAlone(c, policy, t.incoming)
  }

  ghost predicate OnlyThese(s: State, i: Incoming, j: Incoming) {
    forall id :: id in s.threads ==> s.threads[id].incoming == i || s.threads[id].incoming == j
  }

  lemma {:induction false} OnlyTheseArrive(c: Config, policy: Policy, steps: seq<Step>, i: Incoming, j: Incoming)
    requires CalmSchedule(steps, i, j)
    ensures OnlyThese(Exec(c, policy, steps), i, j)
  {
    if steps != [] {
      var before := steps[..|steps| - 1];
      OnlyTheseArrive(c, policy, before, i, j);
      var s, step := Exec(c, policy, before), steps[|steps| - 1];
      if Enabled(c, s, step) {
        assert Calm(step, i, j);
        NewcomerArrives(c, s, step);
        forall id | id in Apply(c, s, step).threads && id in s.threads
          ensures Apply(c, s, step).threads[id].incoming == s.threads[id].incoming
        {
          KeepsIncoming(c, s, step, id);
        }
      }
    }
  }

  lemma NewcomerArrives(c: Config, s: State, step: Step)
    requires Enabled(c, s, step)
    ensures forall id :: id in Apply(c, s, step).threads && id !in s.threads ==>
      step.Arrive? && Apply(c, s, step).threads[id].incoming == step.incoming
  {
  }

  // ---- A schedule in which the first request decides for both ----

  lemma Follow(c: Config, policy: Policy, steps: seq<Step>, step: Step)
    requires Enabled(c, Exec(c, policy, steps), step)
    ensures Exec(c, policy, steps + [step]) == Apply(c, Exec(c, policy, steps), step)
  {
    assert (steps + [step])[..|steps|] == steps;
  }

  /** Driving a request to its end is a run. */
  lemma {:induction false} DriveIsRun(c: Config, policy: Policy, steps: seq<Step>, id: nat, i: Incoming, j: Incoming)
    returns (all: seq<Step>)
    requires CalmSchedule(steps, i, j) && Ready(Exec(c, policy, steps), id)
    ensures CalmSchedule(all, i, j)
    ensures Exec(c, policy, all) == Drive(c, Exec(c, policy, steps), id, false)
    decreases PcRank(Exec(c, policy, steps).threads[id].phase), Left(Exec(c, policy, steps).threads[id].phase)
  {
    var s := Exec(c, policy, steps);
    var p := s.threads[id].phase;
    if p.Asking? && !p.pc.Finished? {
      AskGoesDown(c, s, id);
      Follow(c, policy, steps, Ask(id));
      all := DriveIsRun(c, policy, steps + [Ask(id)], id, i, j);
    } else if p.Storing? {
      Follow(c, policy, steps, Store(id, false));
      all := steps + [Store(id, false)];
    } else {
      all := steps;
    }
  }

  lemma {:induction false} Fresh(taken: set<nat>) returns (n: nat)
    ensures forall x :: x in taken ==> x < n
  {
    if taken == {} {
      n := 0;
    } else {
      var x :| x in taken;
      var m := Fresh(taken - {x});
      n := if m <= x then x + 1 else m;
      assert forall y :: y in taken ==> y == x || y in taken - {x};
    }
  }

  /** The request has got as far as this phase, and the cache, the clock and the policy are as before. */
  ghost predicate Prepared(s: State, s': State, id: nat, i: Incoming) {
    && id in s'.threads && s'.threads[id].incoming == i && s'.threads[id].asked == []
    && s'.items == s.items && s'.now == s.now && s'.policy == s.policy
  }

  lemma ArrivePrepares(c: Config, s: State, id: nat, i: Incoming)
    requires Enabled(c, s, Arrive(id, i))
    ensures var s' := Apply(c, s, Arrive(id, i));
      && Prepared(s, s', id, i) && s'.threads[id].phase.Arrived?
      && s'.objects == s.objects && s'.arrays == s.arrays
  {
  }

  lemma DerivePrepares(c: Config, s: State, id: nat, spare: nat)
    requires Enabled(c, s, Derive(id, spare)) && s.threads[id].asked == []
    ensures var s' := Apply(c, s, Derive(id, spare));
      Prepared(s, s', id, s.threads[id].incoming) && s'.threads[id].phase.Derived?
  {
  }

  lemma MigratePrepares(c: Config, s: State, id: nat)
    requires Enabled(c, s, Migrate(id)) && s.threads[id].asked == []
    ensures var s' := Apply(c, s, Migrate(id));
      Prepared(s, s', id, s.threads[id].incoming) && s'.threads[id].phase.Migrated?
  {
  }

  /** A request that comes in, takes its matcher and is about to look up, with all else as it was. */
  lemma Admit(c: Config, policy: Policy, steps: seq<Step>, i: Incoming, j: Incoming, which: Incoming)
    returns (all: seq<Step>, id: nat)
    requires CalmSchedule(steps, i, j) && (which == i || which == j)
    ensures CalmSchedule(all, i, j)
    ensures Prepared(Exec(c, policy, steps), Exec(c, policy, all), id, which)
    ensures Enabled(c, Exec(c, policy, all), LookUp(id, false))
  {
    var s, spare;
    all, id, spare := Come(c, policy, steps, i, j, which);
    s := Exec(c, policy, all);
    Follow(c, policy, all, Derive(id, spare));
    DerivePrepares(c, s, id, spare);
    all := all + [Derive(id, spare)];
    CanGoOn(c, policy, all, id);
    s := Exec(c, policy, all);
    Follow(c, policy, all, Migrate(id));
    MigratePrepares(c, s, id);
    all := all + [Migrate(id)];
    CanGoOn(c, policy, all, id);
  }

  lemma CanGoOn(c: Config, policy: Policy, steps: seq<Step>, id: nat)
    requires id in Exec(c, policy, steps).threads && HasRef(Exec(c, policy, steps).threads[id].phase)
    ensures HasObject(Exec(c, policy, steps), Exec(c, policy, steps).threads[id].phase.ref)
  {
    EveryRunKeeps(c, policy, steps);
    assert Placed(c, Exec(c, policy, steps), id);
  }

  lemma Come(c: Config, policy: Policy, steps: seq<Step>, i: Incoming, j: Incoming, which: Incoming)
    returns (all: seq<Step>, id: nat, spare: nat)
    requires CalmSchedule(steps, i, j) && (which == i || which == j)
    ensures CalmSchedule(all, i, j)
    ensures Prepared(Exec(c, policy, steps), Exec(c, policy, all), id, which)
    ensures Enabled(c, Exec(c, policy, all), Derive(id, spare))
  {
    EveryRunKeeps(c, policy, steps);
    var s := Exec(c, policy, steps);
    id := Fresh(s.threads.Keys);
    spare := Fresh(s.objects.Keys + s.arrays.Keys);
    assert spare !in s.objects.Keys + s.arrays.Keys && id !in s.threads.Keys;
    Follow(c, policy, steps, Arrive(id, which));
    ArrivePrepares(c, s, id, which);
    all := steps + [Arrive(id, which)];
  }

  /** On an empty cache, a request that succeeds leaves its body under its key. */
  lemma FirstIsStored(c: Config, policy: Policy, i: Incoming, j: Incoming) returns (all: seq<Step>)
    requires KnownVerb(i.q.verb) && Alone(c, policy, i).Ok?
    ensures CalmSchedule(all, i, j)
    ensures var s := Exec(c, policy, all);
      var key := KeyOf(c, i);
      && key in s.items && Live(c.ttl, s.items[key].item, s.now)
      && Ok(s.items[key].item.body) == AnswerAlone(c, policy, i)
  {
    var steps, id := Admit(c, policy, [], i, j, i);
    CalmKeepsPolicy(steps, i, j);
    RunMeetsOnlyPolicy(c, policy, steps);
    all := LookUpAndDrive(c, policy, steps, id, i, j);
    var res := MissInRun(c, policy, steps, id);
    assert KeyOf(c, i) in Plainly(Exec(c, policy, all).items);
  }

  lemma MissInRun(c: Config, policy: Policy, steps: seq<Step>, id: nat) returns (res: Result<DataResponse>)
    requires var s := Exec(c, policy, steps);
      Enabled(c, s, LookUp(id, false)) && Misses(c, s, s.threads[id].incoming, false)
    ensures var s := Exec(c, policy, steps);
      EvaluatedAndStored(c, s, Uninterrupted(c, s, id, false, false), id, s.threads[id].incoming, false, res)
  {
    EveryRunKeeps(c, policy, steps);
    var s := Exec(c, policy, steps);
    assert Placed(c, s, id) && OnCourse(c, s.now, s.threads[id]);
    res := MissIsEvaluated(c, s, id, false);
  }

  lemma CalmKeepsPolicy(steps: seq<Step>, i: Incoming, j: Incoming)
    requires CalmSchedule(steps, i, j)
    ensures PolicyStands(steps)
  {
    forall k | 0 <= k < |steps| ensures !steps[k].ChangePolicy? { assert Calm(steps[k], i, j); }
  }

  lemma LookUpAndDrive(c: Config, policy: Policy, steps: seq<Step>, id: nat, i: Incoming, j: Incoming)
    returns (all: seq<Step>)
    requires CalmSchedule(steps, i, j) && Enabled(c, Exec(c, policy, steps), LookUp(id, false))
    ensures CalmSchedule(all, i, j)
    ensures Exec(c, policy, all) == Uninterrupted(c, Exec(c, policy, steps), id, false, false)
  {
    Follow(c, policy, steps, LookUp(id, false));
    all := DriveIsRun(c, policy, steps + [LookUp(id, false)], id, i, j);
  }

  /** The first of two requests with one key decides for both: the second gets the first one's body, whatever
      its own evaluation would have been. */
  lemma FirstDecidesBoth(c: Config, policy: Policy, i: Incoming, j: Incoming) returns (all: seq<Step>, id: nat)
    requires KnownVerb(i.q.verb) && KnownVerb(j.q.verb) && KeyOf(c, i) == KeyOf(c, j) && Alone(c, policy, i).Ok?
    ensures CalmSchedule(all, i, j)
    ensures var s := Exec(c, policy, all);
      IsDone(s, id) && s.threads[id].incoming == j && s.threads[id].phase.answer == AnswerAlone(c, policy, i)
  {
    var stored := FirstIsStored(c, policy, i, j);
    var steps;
    steps, id := Admit(c, policy, stored, i, j, j);
    all := HitInRun(c, policy, steps, id, i, j);
  }

  lemma HitInRun(c: Config, policy: Policy, steps: seq<Step>, id: nat, i: Incoming, j: Incoming)
    returns (all: seq<Step>)
    requires CalmSchedule(steps, i, j) && Enabled(c, Exec(c, policy, steps), LookUp(id, false))
    requires var s := Exec(c, policy, steps);
      var key := KeyOf(c, s.threads[id].incoming);
      && KnownVerb(s.threads[id].incoming.q.verb)
      && key in s.items && Live(c.ttl, s.items[key].item, s.now)
    ensures CalmSchedule(all, i, j)
    ensures var s, s' := Exec(c, policy, steps), Exec(c, policy, all);
      && IsDone(s', id) && s'.threads[id].incoming == s.threads[id].incoming
      && s'.threads[id].phase.answer == Ok(s.items[KeyOf(c, s.threads[id].incoming)].item.body)
  {
    var s := Exec(c, policy, steps);
    Follow(c, policy, steps, LookUp(id, false));
    all := steps + [LookUp(id, false)];
    KeepsIncoming(c, s, LookUp(id, false), id);
    OwnKeyAtLookUp(c, policy, steps, id);
    AnsweredByHit(c, s, id, s.threads[id].phase.ref, s.threads[id].incoming.q, KeyOf(c, s.threads[id].incoming));
    LookUpEndsInRun(c, policy, steps, id);
  }

  // ---- Exactly when the cache is transparent ----

  /** For any two requests, whatever their strings and whatever the digest: every schedule of them is
      transparent if and only if no policy answers them differently under one key. */
  lemma TransparentExactly(c: Config, i: Incoming, j: Incoming)
    requires KnownVerb(i.q.verb) && KnownVerb(j.q.verb)
    ensures AlwaysTransparent(c, i, j) <==>
      forall policy :: Interchangeable(c, policy, i, j) && Interchangeable(c, policy, j, i)
  {
    if AlwaysTransparent(c, i, j) {
      forall policy ensures Interchangeable(c, policy, i, j) && Interchangeable(c, policy, j, i) {
        TransparentPairAgrees(c, policy, i, j);
        forall policy', steps, id | CalmSchedule(steps, j, i) && IsDone(Exec(c, policy', steps), id)
          ensures var t := Exec(c, policy', steps).threads[id];
            t.phase.answer == AnswerAlone(c, policy', t.incoming)
        {
          assert CalmSchedule(steps, i, j);
        }
        TransparentPairAgrees(c, policy, j, i);
      }
    }
    if forall policy :: Interchangeable(c, policy, i, j) && Interchangeable(c, policy, j, i) {
      AgreeingPairIsTransparent(c, i, j);
    }
  }

  lemma TransparentPairAgrees(c: Config, policy: Policy, i: Incoming, j: Incoming)
    requires AlwaysTransparent(c, i, j)
    ensures Interchangeable(c, policy, i, j)
  {
    if KnownVerb(i.q.verb) && KnownVerb(j.q.verb) && KeyOf(c, i) == KeyOf(c, j) && Alone(c, policy, i).Ok? {
      var steps, id := FirstDecidesBoth(c, policy, i, j);
    }
  }

  lemma AgreeingPairIsTransparent(c: Config, i: Incoming, j: Incoming)
    requires KnownVerb(i.q.verb) && KnownVerb(j.q.verb)
    requires forall policy :: Interchangeable(c, policy, i, j) && Interchangeable(c, policy, j, i)
    ensures AlwaysTransparent(c, i, j)
  {
    forall policy, steps, id | CalmSchedule(steps, i, j) && IsDone(Exec(c, policy, steps), id)
      ensures var t := Exec(c, policy, steps).threads[id];
        t.phase.answer == AnswerAlone(c, policy, t.incoming)
    {
      CalmKeepsPolicy(steps, i, j);
      OnlyTheseArrive(c, policy, steps, i, j);
      assert Interchangeable(c, policy, i, j) && Interchangeable(c, policy, j, i);
      var last := OwnAnswer(c, policy, steps, id);
      assert Calm(steps[last], i, j);
    }
  }

  /** For any two requests, whatever their strings: every schedule of them is transparent under every policy
      if and only if they ask alike wherever they have one key, which can be decided from the two requests
      before either is served. */
  lemma TransparentIfAlike(c: Config, i: Incoming, j: Incoming)
    requires HexDigest(c.hash) && c.compiles("") && KnownVerb(i.q.verb) && KnownVerb(j.q.verb)
    requires KeyOf(c, i) == KeyOf(c, j) ==>
      NoCollision(c.hash, MatcherInput(MatcherOf(c, i).keys), MatcherInput(MatcherOf(c, j).keys))
    ensures AlwaysTransparent(c, i, j) <==> FaithfulPair(c, i, j)
  {
    TransparentExactly(c, i, j);
    if FaithfulPair(c, i, j) {
      forall policy ensures Interchangeable(c, policy, i, j) && Interchangeable(c, policy, j, i) {
        if KeyOf(c, i) == KeyOf(c, j) { SameKeySameAnswer(c, policy, i, j); }
      }
    } else {
      var policy := UnlikeAreServedWrong(c, i, j);
    }
  }

  /** Requests that share a key but do not ask alike: under some policy one is right to get an answer that
      would be wrong for the other. */
  lemma UnlikeAreServedWrong(c: Config, i: Incoming, j: Incoming) returns (policy: Policy)
    requires HexDigest(c.hash) && c.compiles("") && KnownVerb(i.q.verb) && KnownVerb(j.q.verb)
    requires NoCollision(c.hash, MatcherInput(MatcherOf(c, i).keys), MatcherInput(MatcherOf(c, j).keys))
    requires !FaithfulPair(c, i, j)
    ensures !Interchangeable(c, policy, i, j) || !Interchangeable(c, policy, j, i)
  {
    SameKeySameMatcher(c, i, j);
    policy := DifferentAreTold(Canonical(i.q), Canonical(j.q), IsBare(c, i), c.compiles);
    SameAnswerSameResult(c, policy, i, j);
  }

  /** With tokens of one length that determine the groups, and no collisions, requests with one key can fail
      to ask alike only in the fields that the key joins without escaping. */
  lemma ComparableAreFaithful(c: Config, i: Incoming, j: Incoming)
    requires HexDigest(c.hash) && KnownVerb(i.q.verb) && KnownVerb(j.q.verb)
    requires KeyOf(c, i) == KeyOf(c, j) ==>
      && Comparable(c.hash, i.q, j.q)
      && NoCollision(c.hash, MatcherInput(MatcherOf(c, i).keys), MatcherInput(MatcherOf(c, j).keys))
    ensures FaithfulPair(c, i, j) <==>
      (KeyOf(c, i) == KeyOf(c, j) ==>
        && i.q.apiGroup == j.q.apiGroup && i.q.resourceName == j.q.resourceName && i.q.resource == j.q.resource
        && NamespacesAlike(i.q, j.q.namespaces, IsBare(c, i), c.compiles))
  {
    if KeyOf(c, i) == KeyOf(c, j) {
      KeyDetermines(c.hash, i.q, MatcherOf(c, i).keys, j.q, MatcherOf(c, j).keys);
    }
  }

  // ---- Well-formed requests ----

  /** The requests that the key confuses among the well-formed ones: reads that differ only in naming no
      namespace or the empty one, where that makes a difference. */
  predicate Confusable(c: Config, i: Incoming, j: Incoming) {
    && KeyOf(c, i) == KeyOf(c, j) && i.q.namespaces != j.q.namespaces
    && i.q.verb == GET && (i.q.metadataOnly || !IsBare(c, i))
  }

  /** The two requests are well-formed and, if they share a key, comparable and hashed without collision. */
  ghost predicate Ordinary(c: Config, i: Incoming, j: Incoming) {
    && KnownVerb(i.q.verb) && KnownVerb(j.q.verb) && WellFormed(i.q) && WellFormed(j.q)
    && (KeyOf(c, i) == KeyOf(c, j) ==>
          && Comparable(c.hash, i.q, j.q)
          && NoCollision(c.hash, MatcherInput(MatcherOf(c, i).keys), MatcherInput(MatcherOf(c, j).keys)))
  }

  lemma OrdinaryAreFaithful(c: Config, i: Incoming, j: Incoming)
    requires HexDigest(c.hash) && Ordinary(c, i, j)
    ensures FaithfulPair(c, i, j) <==> !Confusable(c, i, j)
  {
    ComparableAreFaithful(c, i, j);
    if KeyOf(c, i) == KeyOf(c, j) {
      KeyFaithful(c.hash, i.q, MatcherOf(c, i).keys, j.q, MatcherOf(c, j).keys);
      assert Named([""]) == {};
    }
  }

  /** Well-formed requests share the cache without harm if and only if they are not confusable. */
  lemma TransparentUnlessConfused(c: Config, i: Incoming, j: Incoming)
    requires HexDigest(c.hash) && c.compiles("") && Ordinary(c, i, j)
    ensures AlwaysTransparent(c, i, j) <==> !Confusable(c, i, j)
  {
    TransparentIfAlike(c, i, j);
    OrdinaryAreFaithful(c, i, j);
  }

  /** The two requests do not share a key, or are well-formed and not confusable. */
  ghost predicate HarmlessPair(c: Config, i: Incoming, j: Incoming) {
    KeyOf(c, i) == KeyOf(c, j) ==> Ordinary(c, i, j) && !Confusable(c, i, j)
  }

  /** In a run under an unchanging policy, a well-formed request is answered as on its own, if all that share
      its key are well-formed, comparable and not confusable with it. */
  lemma {:induction false} OrdinaryRunIsTransparent(c: Config, policy: Policy, steps: seq<Step>, id: nat)
    returns (j: nat)
    requires HexDigest(c.hash) && PolicyStands(steps)
    requires var s := Exec(c, policy, steps);
      && IsDone(s, id) && KnownVerb(s.threads[id].incoming.q.verb)
      && forall x :: x in s.threads && KnownVerb(s.threads[x].incoming.q.verb) ==>
           HarmlessPair(c, s.threads[x].incoming, s.threads[id].incoming)
    ensures FinishedBy(c, policy, steps, id, j)
    ensures var t := Exec(c, policy, steps).threads[id];
      t.phase.answer ==
        if steps[j] == LookUp(id, true) then Err(CacheGet) else AnswerAlone(c, policy, t.incoming)
  {
    var s := Exec(c, policy, steps);
    forall x | x in s.threads && KnownVerb(s.threads[x].incoming.q.verb)
      ensures FaithfulPair(c, s.threads[x].incoming, s.threads[id].incoming)
    {
      if KeyOf(c, s.threads[x].incoming) == KeyOf(c, s.threads[id].incoming) {
        OrdinaryAreFaithful(c, s.threads[x].incoming, s.threads[id].incoming);
      }
    }
    j := CacheTransparent(c, policy, steps, id);
  }

  // ---- Two inputs ----

  function Sample(namespaces: seq<string>, selectors: Selectors): Incoming {
    Incoming(Request("token", "user", [], GET, "application", "logs", "loki.grafana.com", namespaces, true), selectors)
  }

  /** No selector but that of the one label. */
  predicate SelectsOnly(selectors: Selectors) {
    selectors.Keys <= {KUBERNETES_NAME}
  }

  lemma OneSelector(values: seq<string>)
    ensures Selected(map[KUBERNETES_NAME := values]) == set v | v in values
  {
    var selectors := map[KUBERNETES_NAME := values];
    assert selectors[KUBERNETES_NAME] == values;
  }

  lemma SamplesShareKey(c: Config, a: seq<string>, b: seq<string>, selectors1: Selectors, selectors2: Selectors)
    requires SelectsOnly(selectors1) && SelectsOnly(selectors2) && Join(a, ":") == Join(b, ":")
    ensures var i, j := Sample(a, selectors1), Sample(b, selectors2);
      MatcherOf(c, i) == MatcherOf(c, j) && KeyOf(c, i) == KeyOf(c, j)
  {
    assert |KUBERNETES_NAME| != |K8S_NAME|;
    assert K8S_NAME !in selectors1.Keys && K8S_NAME !in selectors2.Keys;
  }

  /** In the schedule, a request is granted something that its own evaluation denies it. */
  ghost predicate ServedWrong(c: Config, policy: Policy, steps: seq<Step>, id: nat, i: Incoming) {
    && IsDone(Exec(c, policy, steps), id)
    && (var t := Exec(c, policy, steps).threads[id];
        t.incoming == i && t.phase.answer.Ok? && Positive(t.phase.answer.value))
    && AnswerAlone(c, policy, i).Ok? && !Positive(AnswerAlone(c, policy, i).value)
  }

  lemma FirstGrantIsShared(c: Config, policy: Policy, i: Incoming, j: Incoming)
    returns (steps: seq<Step>, id: nat)
    requires KnownVerb(i.q.verb) && KnownVerb(j.q.verb) && KeyOf(c, i) == KeyOf(c, j)
    requires Alone(c, policy, i).Ok? && Verdict(Alone(c, policy, i).value)
    requires Alone(c, policy, j).Ok? && !Verdict(Alone(c, policy, j).value)
    ensures CalmSchedule(steps, i, j) && ServedWrong(c, policy, steps, id, j)
  {
    BodyMeaning(Alone(c, policy, i).value, MatcherOf(c, i).keys, MatcherOf(c, i).op);
    BodyMeaning(Alone(c, policy, j).value, MatcherOf(c, j).keys, MatcherOf(c, j).op);
    steps, id := FirstDecidesBoth(c, policy, i, j);
  }

  /** An input for which the cache is not transparent, under every configuration: a selector with one empty
      value. The request without selectors comes first, and its grant is given to the other. */
  lemma EmptyValueIsConfused(c: Config) returns (policy: Policy, steps: seq<Step>, id: nat)
    requires CompilesPlain(c.compiles)
    ensures var none, empty := Sample([], map[]), Sample([""], map[KUBERNETES_NAME := [""]]);
      && Selected(none.selectors) == {} && Selected(empty.selectors) == {""}
      && KeyOf(c, none) == KeyOf(c, empty)
      && CalmSchedule(steps, none, empty) && ServedWrong(c, policy, steps, id, empty)
  {
    var none, empty := Sample([], map[]), Sample([""], map[KUBERNETES_NAME := [""]]);
    OneSelector([""]);
    assert Join([], ":") == Join([""], ":");
    SamplesShareKey(c, [], [""], none.selectors, empty.selectors);
    var q, bare := Canonical(none.q), IsBare(c, none);
    policy := AllowsOnly(q.token, At(q, "a"), ["a"]);
    MetadataGrant(q, bare, c.compiles);
    assert Canonical(empty.q) == q.(namespaces := [""]);
    DeniedEach(Fixed(policy, q.token), 1, Canonical(empty.q), [""], bare, c.compiles);
    steps, id := FirstGrantIsShared(c, policy, none, empty);
  }

  lemma MetadataGrant(q: Request, bare: bool, compiles: string -> bool)
    requires q.verb == GET && q.metadataOnly && q.namespaces == [] && CompilesPlain(compiles)
    ensures Evaluate(AllowsOnly(q.token, At(q, "a"), ["a"]), q, bare, compiles) ==
      Ok(if bare then Flag(true) else Scope(["a"]))
  {
    assert PlainPattern(Join(["a"], "|"));
    assert ReviewFlags(Fixed(AllowsOnly(q.token, At(q, "a"), ["a"]), q.token), 2, q, ["a"]) == [true];
    PickAll(["a"], [true]);
  }

  /** Another such input: a selector with the one value `a:b` is given the grant of one with the values `a`
      and `b`. */
  lemma ColonValueIsConfused(c: Config) returns (policy: Policy, steps: seq<Step>, id: nat)
    requires CompilesPlain(c.compiles)
    ensures var two := Sample(["a", "b"], map[KUBERNETES_NAME := ["a", "b"]]);
      var one := Sample(["a:b"], map[KUBERNETES_NAME := ["a:b"]]);
      && Selected(two.selectors) == {"a", "b"} && Selected(one.selectors) == {"a:b"}
      && KeyOf(c, two) == KeyOf(c, one)
      && CalmSchedule(steps, two, one) && ServedWrong(c, policy, steps, id, one)
  {
    OneSelector(["a", "b"]);
    OneSelector(["a:b"]);
    policy, steps, id := ColonGrantIsShared(c, map[KUBERNETES_NAME := ["a", "b"]], map[KUBERNETES_NAME := ["a:b"]]);
  }

  lemma ColonGrantIsShared(c: Config, selectors1: Selectors, selectors2: Selectors)
    returns (policy: Policy, steps: seq<Step>, id: nat)
    requires CompilesPlain(c.compiles) && SelectsOnly(selectors1) && SelectsOnly(selectors2)
    ensures var two, one := Sample(["a", "b"], selectors1), Sample(["a:b"], selectors2);
      KeyOf(c, two) == KeyOf(c, one) && CalmSchedule(steps, two, one) && ServedWrong(c, policy, steps, id, one)
  {
    var two, one := Sample(["a", "b"], selectors1), Sample(["a:b"], selectors2);
    assert Join(["a", "b"], ":") == "a:b" == Join(["a:b"], ":");
    SamplesShareKey(c, ["a", "b"], ["a:b"], selectors1, selectors2);
    var q := Canonical(two.q);
    policy := AllowsOnly(q.token, At(q, "a"), []);
    assert Canonical(one.q) == q.(namespaces := ["a:b"]);
    ColonGrant(q, IsBare(c, two), c.compiles);
    steps, id := FirstGrantIsShared(c, policy, two, one);
  }

  lemma ColonGrant(q: Request, bare: bool, compiles: string -> bool)
    requires q.verb == GET && q.namespaces == ["a", "b"] && CompilesPlain(compiles)
    ensures var policy := AllowsOnly(q.token, At(q, "a"), []);
      && Evaluate(policy, q, bare, compiles) == Ok(if bare then Flag(true) else Scope(["a"]))
      && Evaluate(policy, q.(namespaces := ["a:b"]), bare, compiles) == Ok(Flag(false))
  {
    var api := Fixed(AllowsOnly(q.token, At(q, "a"), []), q.token);
    assert PlainPattern(Join(["a"], "|"));
    assert ReviewFlags(api, 1, q, ["a", "b"]) == [true, false];
    assert Pick(["a", "b"], [true, false]) == ["a"] by { assert Pick(["a"], [true]) == ["a"]; }
    DeniedEach(api, 1, q.(namespaces := ["a:b"]), ["a:b"], bare, compiles);
  }
}
