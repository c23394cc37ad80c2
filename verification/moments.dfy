/** At which step of a run a request finished and an entry was stored, read off the run itself. */
module Moments {
  import opened Responses
  import opened CacheKeys
  import opened TtlCache
  import opened Decisions
  import opened Policies
  import opened Authorizers
  import opened Gateways

  predicate IsDone(s: State, id: nat) {
    id in s.threads && s.threads[id].phase.Done?
  }

  /** The time at which a step of the run happens. */
  function Clock(c: Config, policy: Policy, steps: seq<Step>, j: nat): int
    requires j <= |steps|
  {
    Exec(c, policy, steps[..j]).now
  }

  /** Step j took the request from running to the answer that it has now. */
  ghost predicate FinishedBy(c: Config, policy: Policy, steps: seq<Step>, id: nat, j: nat) {
    && j < |steps|
    && (var s := Exec(c, policy, steps[..j]); Enabled(c, s, steps[j]) && id in s.threads && !IsDone(s, id))
    && IsDone(Exec(c, policy, steps), id) && IsDone(Exec(c, policy, steps[..j + 1]), id)
    && Exec(c, policy, steps[..j + 1]).threads[id] == Exec(c, policy, steps).threads[id]
  }

  /** Step j stored the entry under the key. */
  ghost predicate StoredBy(c: Config, policy: Policy, steps: seq<Step>, key: string, e: Entry, j: nat) {
    && j < |steps| && steps[j] == Store(e.maker, false)
    && (var s := Exec(c, policy, steps[..j]);
        && Enabled(c, s, steps[j]) && s.threads[e.maker].phase.key == key
        && e == Entry(ItemAt(c.ttl, s.threads[e.maker].phase.body, s.now), e.maker, s.now))
  }

  // ---- Runs and their beginnings ----

  lemma ExecNext(c: Config, policy: Policy, steps: seq<Step>, j: nat)
    requires j < |steps|
    ensures var s := Exec(c, policy, steps[..j]);
      Exec(c, policy, steps[..j + 1]) == if Enabled(c, s, steps[j]) then Apply(c, s, steps[j]) else s
  {
    assert steps[..j + 1][..j] == steps[..j];
  }

  lemma StepKeepsDone(c: Config, s: State, step: Step, id: nat)
    requires Enabled(c, s, step) && IsDone(s, id)
    ensures IsDone(Apply(c, s, step), id) && Apply(c, s, step).threads[id] == s.threads[id]
    ensures s.now <= Apply(c, s, step).now
  {
  }

  /** A finished request stays as it is. */
  lemma {:induction false} DoneStays(c: Config, policy: Policy, steps: seq<Step>, id: nat, i: nat, j: nat)
    requires i <= j <= |steps| && IsDone(Exec(c, policy, steps[..i]), id)
    ensures IsDone(Exec(c, policy, steps[..j]), id)
    ensures Exec(c, policy, steps[..j]).threads[id] == Exec(c, policy, steps[..i]).threads[id]
  {
    if i < j {
      DoneStays(c, policy, steps, id, i, j - 1);
      ExecNext(c, policy, steps, j - 1);
      var s := Exec(c, policy, steps[..j - 1]);
      if Enabled(c, s, steps[j - 1]) { StepKeepsDone(c, s, steps[j - 1], id); }
    }
  }

  // ---- The step that finishes a request ----

  predicate EndedBy(step: Step, id: nat) {
    (step.LookUp? || step.Ask? || step.Store?) && step.id == id
  }

  /** Without a known verb, on a failing cache or on a hit a request is finished by its lookup. */
  ghost predicate EndedByLookUp(c: Config, s: State, t: Thread, fault: bool)
    requires t.phase.Done?
  {
    var key := KeyOf(c, t.incoming);
    && t.asked == []
    && if !KnownVerb(t.incoming.q.verb) then t.phase.answer == Err(UnexpectedVerb)
       else if fault then t.phase.answer == Err(CacheGet)
       else
         && key in s.items && Live(c.ttl, s.items[key].item, s.now)
         && t.phase == Done(Ok(s.items[key].item.body), Source(s.items[key].maker, s.items[key].at, s.now))
  }

  /** An evaluation that fails is finished by its last call. */
  ghost predicate EndedByAsk(c: Config, t: Thread)
    requires t.phase.Done?
  {
    && KnownVerb(t.incoming.q.verb) && t.phase.answer.Err? && t.phase.answer.error != CacheGet
    && Progress(c, t) == Finished(Err(t.phase.answer.error))
  }

  /** An evaluation that succeeds is finished by its store, whether that fails or not. */
  ghost predicate EndedByStore(c: Config, t: Thread, id: nat, now: int)
    requires t.phase.Done?
  {
    && t.phase.answer.Ok? && Produced(c, t, t.phase.answer.value)
    && t.phase.source == Source(id, now, now)
  }

  /** What a request is when this step, taken in this state, has finished it. */
  ghost predicate EndOf(c: Config, s: State, step: Step, t: Thread, id: nat)
    requires t.phase.Done?
  {
    && EndedBy(step, id)
    && match step
       case LookUp(_, fault) => EndedByLookUp(c, s, t, fault)
       case Ask(_) => EndedByAsk(c, t)
       case Store(_, _) => EndedByStore(c, t, id, s.now)
       case _ => false
  }

  lemma OnlyEndsFinish(c: Config, s: State, step: Step, id: nat)
    requires Enabled(c, s, step) && IsDone(Apply(c, s, step), id) && !IsDone(s, id)
    ensures id in s.threads && EndedBy(step, id)
  {
  }

  lemma AskErrors(api: Api, k: nat, q: Request, bare: bool, compiles: string -> bool, pc: Pc)
    requires Asks(pc)
    ensures var next := Advance(api, k, q, bare, compiles, pc);
      next.Finished? && next.outcome.Err? ==> next.outcome.error != CacheGet
  {
  }

  lemma LookUpEnds(c: Config, s: State, id: nat, fault: bool)
    requires MatchersIsolated(c, s) && CacheHonest(c, s) && Enabled(c, s, LookUp(id, fault))
    requires IsDone(LookUpKey(c, s, id, fault), id)
    ensures EndedByLookUp(c, s, LookUpKey(c, s, id, fault).threads[id], fault)
  {
    var t := s.threads[id];
    assert Placed(c, s, id) && OnCourse(c, s.now, t);
    var key := KeyOf(c, t.incoming);
    assert key == Key(c.hash, t.incoming.q, View(s, t.phase.ref).keys);
    if key in s.items {
      assert EntryHonest(c, s, key);
      StoredBodyReadsBack(c, s, key);
    }
  }

  lemma AskEnds(c: Config, s: State, id: nat)
    requires MatchersIsolated(c, s) && CacheHonest(c, s) && Enabled(c, s, Ask(id))
    requires IsDone(AskNext(c, s, id), id)
    ensures EndedByAsk(c, AskNext(c, s, id).threads[id])
  {
    var t := s.threads[id];
    assert Placed(c, s, id) && OnCourse(c, s.now, t);
    AskKeepsCourse(c, s, id);
    var api, bare := Experience(Replied(t, LastAsked(s, t))), View(s, t.phase.ref).keys == [];
    AskErrors(api, |t.asked|, Canonical(t.incoming.q), bare, c.compiles, t.phase.pc);
  }

  lemma StoreEnds(c: Config, s: State, id: nat, fault: bool)
    requires CacheHonest(c, s) && Enabled(c, s, Store(id, fault))
    ensures IsDone(Apply(c, s, Store(id, fault)), id)
    ensures EndedByStore(c, Apply(c, s, Store(id, fault)).threads[id], id, s.now)
  {
    assert OnCourse(c, s.now, s.threads[id]);
  }

  lemma EndsAsItShould(c: Config, s: State, step: Step, id: nat)
    requires MatchersIsolated(c, s) && CacheHonest(c, s) && Enabled(c, s, step)
    requires IsDone(Apply(c, s, step), id) && !IsDone(s, id)
    ensures id in s.threads && EndOf(c, s, step, Apply(c, s, step).threads[id], id)
  {
    OnlyEndsFinish(c, s, step, id);
    match step
    case LookUp(_, fault) => LookUpEnds(c, s, id, fault);
    case Ask(_) => AskEnds(c, s, id);
    case Store(_, fault) => StoreEnds(c, s, id, fault);
    case _ => assert false;
  }

  lemma {:induction false} StepThatFinished(c: Config, policy: Policy, steps: seq<Step>, id: nat) returns (j: nat)
    requires IsDone(Exec(c, policy, steps), id)
    ensures FinishedBy(c, policy, steps, id, j)
  {
    var n := |steps| - 1;
    var before := steps[..n];
    ExecNext(c, policy, steps, n);
    assert steps[..n + 1] == steps;
    var s := Exec(c, policy, before);
    if IsDone(s, id) {
      j := StepThatFinished(c, policy, before, id);
      assert before[..j] == steps[..j] && before[..j + 1] == steps[..j + 1];
      if Enabled(c, s, steps[n]) { StepKeepsDone(c, s, steps[n], id); }
    } else {
      OnlyEndsFinish(c, s, steps[n], id);
      j := n;
    }
  }

  /** Every finished request was finished by one step of the run: a lookup, a call or a store of its own,
      each with the answer that goes with it. */
  lemma {:induction false} FinishingStep(c: Config, policy: Policy, steps: seq<Step>, id: nat) returns (j: nat)
    requires IsDone(Exec(c, policy, steps), id)
    ensures FinishedBy(c, policy, steps, id, j)
    ensures EndOf(c, Exec(c, policy, steps[..j]), steps[j], Exec(c, policy, steps).threads[id], id)
    ensures Exec(c, policy, steps[..j]).threads[id].incoming == Exec(c, policy, steps).threads[id].incoming
  {
    j := StepThatFinished(c, policy, steps, id);
    ExecNext(c, policy, steps, j);
    EveryRunKeeps(c, policy, steps[..j]);
    var s := Exec(c, policy, steps[..j]);
    EndsAsItShould(c, s, steps[j], id);
    KeepsIncoming(c, s, steps[j], id);
  }

  lemma KeepsIncoming(c: Config, s: State, step: Step, id: nat)
    requires Enabled(c, s, step) && id in s.threads
    ensures id in Apply(c, s, step).threads && Apply(c, s, step).threads[id].incoming == s.threads[id].incoming
  {
  }

  // ---- A lookup that hits ----

  lemma OwnKeyAtLookUp(c: Config, policy: Policy, steps: seq<Step>, id: nat)
    requires Enabled(c, Exec(c, policy, steps), LookUp(id, false))
    ensures var s := Exec(c, policy, steps);
      View(s, s.threads[id].phase.ref) == MatcherOf(c, s.threads[id].incoming)
  {
    EveryRunKeeps(c, policy, steps);
    assert Placed(c, Exec(c, policy, steps), id);
  }

  lemma LookUpEndsInRun(c: Config, policy: Policy, steps: seq<Step>, id: nat)
    requires Enabled(c, Exec(c, policy, steps), LookUp(id, false))
    requires IsDone(LookUpKey(c, Exec(c, policy, steps), id, false), id)
    ensures var s := Exec(c, policy, steps);
      EndedByLookUp(c, s, LookUpKey(c, s, id, false).threads[id], false)
  {
    EveryRunKeeps(c, policy, steps);
    LookUpEnds(c, Exec(c, policy, steps), id, false);
  }

  lemma AnsweredByHit(c: Config, s: State, id: nat, ref: nat, q: Request, key: string)
    requires KnownVerb(q.verb) && key in s.items && Live(c.ttl, s.items[key].item, s.now)
    ensures AfterLookUp(c, s, id, ref, q, key, false).Done?
  {
  }

  // ---- The step that stored an entry ----

  lemma OnlyStoresAdd(c: Config, s: State, step: Step, key: string)
    requires Enabled(c, s, step) && key in Apply(c, s, step).items
    ensures var e := Apply(c, s, step).items[key];
      || (key in s.items && s.items[key] == e)
      || (step == Store(e.maker, false) && s.threads[e.maker].phase.key == key
          && e == Entry(ItemAt(c.ttl, s.threads[e.maker].phase.body, s.now), e.maker, s.now))
  {
  }

  lemma {:induction false} StoringStep(c: Config, policy: Policy, steps: seq<Step>, key: string) returns (j: nat)
    requires key in Exec(c, policy, steps).items
    ensures StoredBy(c, policy, steps, key, Exec(c, policy, steps).items[key], j)
  {
    var n := |steps| - 1;
    var before := steps[..n];
    ExecNext(c, policy, steps, n);
    assert steps[..n + 1] == steps;
    var s, e := Exec(c, policy, before), Exec(c, policy, steps).items[key];
    if Enabled(c, s, steps[n]) { OnlyStoresAdd(c, s, steps[n], key); }
    if key in s.items && s.items[key] == e {
      j := StoringStep(c, policy, before, key);
      assert before[..j] == steps[..j];
    } else {
      j := n;
    }
  }

  lemma StoringStepBefore(c: Config, policy: Policy, steps: seq<Step>, key: string, k: nat) returns (j: nat)
    requires k <= |steps| && key in Exec(c, policy, steps[..k]).items
    ensures j < k && StoredBy(c, policy, steps, key, Exec(c, policy, steps[..k]).items[key], j)
  {
    j := StoringStep(c, policy, steps[..k], key);
    assert steps[..k][..j] == steps[..j];
  }

  /** The step that stored an entry finished the request that computed it. */
  lemma StoringFinishes(c: Config, policy: Policy, steps: seq<Step>, key: string, e: Entry, j: nat)
    requires StoredBy(c, policy, steps, key, e, j)
    ensures FinishedBy(c, policy, steps, e.maker, j)
    ensures Exec(c, policy, steps[..j]).threads[e.maker].asked == Exec(c, policy, steps).threads[e.maker].asked
  {
    ExecNext(c, policy, steps, j);
    DoneStays(c, policy, steps, e.maker, j + 1, |steps|);
    assert steps[..|steps|] == steps;
  }

  /** The step takes the entry under the key away or puts another in its place. */
  predicate Replaces(c: Config, s: State, step: Step, key: string) {
    || step == Evict(key)
    || (step.Store? && !step.fault && Enabled(c, s, step) && s.threads[step.id].phase.key == key)
  }

  lemma StepKeepsEntry(c: Config, s: State, step: Step, key: string)
    requires Enabled(c, s, step) && !Replaces(c, s, step, key) && key in s.items
    ensures key in Apply(c, s, step).items && Apply(c, s, step).items[key] == s.items[key]
  {
  }

  /** An entry stays as it is until it is evicted or replaced. */
  lemma {:induction false} EntryStays(c: Config, policy: Policy, steps: seq<Step>, key: string, e: Entry, i: nat,
      k: nat)
    requires StoredBy(c, policy, steps, key, e, i) && i < k <= |steps|
    requires forall n :: i < n < k ==> !Replaces(c, Exec(c, policy, steps[..n]), steps[n], key)
    ensures key in Exec(c, policy, steps[..k]).items && Exec(c, policy, steps[..k]).items[key] == e
  {
    ExecNext(c, policy, steps, k - 1);
    if k - 1 > i {
      EntryStays(c, policy, steps, key, e, i, k - 1);
      var s := Exec(c, policy, steps[..k - 1]);
      if Enabled(c, s, steps[k - 1]) { StepKeepsEntry(c, s, steps[k - 1], key); }
    }
  }
}
