/** The state machine and the authorizer's method agree: a request that runs without interruption follows
    the cache protocol. */
module Solo {
  import opened Responses
  import opened CacheKeys
  import opened TtlCache
  import opened Decisions
  import opened Policies
  import opened Authorizers
  import opened Gateways

  /** Whether a request may go on asking or storing. */
  predicate Ready(s: State, id: nat) {
    && id in s.threads
    && (s.threads[id].phase.Asking? ==> HasObject(s, s.threads[id].phase.ref) && Sound(s.threads[id].phase.pc))
  }

  function PcRank(p: Phase): nat {
    if p.Asking? then 1 + Rank(p.pc) else if p.Storing? then 1 else 0
  }

  function Left(p: Phase): nat {
    if p.Asking? && Sound(p.pc) && p.pc.AskNamespace? then |p.pc.cands| - p.pc.i else 0
  }

  /** Lets one request ask and store until it is done, with nothing in between. */
  function Drive(c: Config, s: State, id: nat, storeFails: bool): State
    requires Ready(s, id)
    decreases PcRank(s.threads[id].phase), Left(s.threads[id].phase)
  {
    var p := s.threads[id].phase;
    if p.Asking? && !p.pc.Finished? then
      AskGoesDown(c, s, id);
      Drive(c, AskNext(c, s, id), id, storeFails)
    else if p.Storing? then Apply(c, s, Store(id, storeFails))
    else s
  }

  lemma AskGoesDown(c: Config, s: State, id: nat)
    requires Ready(s, id) && s.threads[id].phase.Asking? && !s.threads[id].phase.pc.Finished?
    ensures var s' := AskNext(c, s, id);
      && Ready(s', id)
      && (PcRank(s'.threads[id].phase) < PcRank(s.threads[id].phase)
          || (PcRank(s'.threads[id].phase) == PcRank(s.threads[id].phase)
              && Left(s'.threads[id].phase) < Left(s.threads[id].phase)))
  {
  }

  /** The cache's contents without the record of who stored what. */
  function Plainly(items: map<string, Entry>): map<string, Item> {
    map k | k in items :: items[k].item
  }

  /** What is left of an evaluation under the policy in force. */
  function Rest(c: Config, s: State, id: nat): Result<Grant>
    requires Ready(s, id) && s.threads[id].phase.Asking?
  {
    var t := s.threads[id];
    Finish(Fixed(s.policy, t.incoming.q.token), |t.asked|, Canonical(t.incoming.q), IsBare(c, t.incoming),
        c.compiles, t.phase.pc)
  }

  lemma AskKeepsRest(c: Config, s: State, id: nat)
    requires Ready(s, id) && s.threads[id].phase.Asking? && !s.threads[id].phase.pc.Finished?
    requires View(s, s.threads[id].phase.ref) == MatcherOf(c, s.threads[id].incoming)
    ensures var s' := AskNext(c, s, id);
      var t, t' := s.threads[id], s'.threads[id];
      && s' == s.(threads := s'.threads) && t'.incoming == t.incoming
      && match t'.phase
         case Asking(ref, key, pc) =>
           && Ready(s', id) && ref == t.phase.ref && key == t.phase.key && !pc.Finished?
           && Rest(c, s', id) == Rest(c, s, id)
         case Storing(ref, key, body) =>
           key == t.phase.key && Rest(c, s, id).Ok? && body == BodyFor(c, t.incoming, Rest(c, s, id).value)
         case Done(answer, _) => answer.Err? && Rest(c, s, id) == Err(answer.error)
         case _ => false
  {
    var t := s.threads[id];
    var q, bare := Canonical(t.incoming.q), IsBare(c, t.incoming);
    var after := Replied(t, LastAsked(s, t));
    var fixed := Fixed(s.policy, q.token);
    assert PoliciesMet(after)[|t.asked|] == s.policy;
    assert AgreeAt(Experience(after), fixed, |t.asked|);
    AdvanceAgrees(Experience(after), fixed, |t.asked|, q, bare, c.compiles, t.phase.pc);
    FinishStep(fixed, |t.asked|, q, bare, c.compiles, t.phase.pc);
  }

  /** Driven to its end, a request gives and stores what is left of its evaluation. */
  lemma {:induction false} DriveFinishes(c: Config, s: State, id: nat, storeFails: bool)
    requires Ready(s, id) && s.threads[id].phase.Asking? && !s.threads[id].phase.pc.Finished?
    requires View(s, s.threads[id].phase.ref) == MatcherOf(c, s.threads[id].incoming)
    ensures var s' := Drive(c, s, id, storeFails);
      var rest := Rest(c, s, id);
      var key := s.threads[id].phase.key;
      && id in s'.threads && s'.threads[id].phase.Done? && s'.threads[id].incoming == s.threads[id].incoming
      && s'.now == s.now
      && match rest
         case Err(e) => s'.threads[id].phase.answer == Err(e) && s'.items == s.items
         case Ok(g) =>
           var body := BodyFor(c, s.threads[id].incoming, g);
           && s'.threads[id].phase.answer == Ok(body)
           && s'.items == if storeFails then s.items else s.items[key := Entry(ItemAt(c.ttl, body, s.now), id, s.now)]
    decreases PcRank(s.threads[id].phase), Left(s.threads[id].phase)
  {
    AskGoesDown(c, s, id);
    AskKeepsRest(c, s, id);
    var next := AskNext(c, s, id);
    if next.threads[id].phase.Asking? {
      assert View(next, next.threads[id].phase.ref) == View(s, s.threads[id].phase.ref);
      DriveFinishes(c, next, id, storeFails);
    }
  }

  /** The calls that are left to a request under a policy. */
  function CallsToCome(c: Config, policy: Policy, t: Thread): seq<Call> {
    if t.phase.Asking? && Sound(t.phase.pc) then
      CallsFrom(Fixed(policy, t.incoming.q.token), |t.asked|, Canonical(t.incoming.q), IsBare(c, t.incoming),
                c.compiles, t.phase.pc)
    else []
  }

  lemma AskRecordsCall(c: Config, s: State, id: nat)
    requires Enabled(c, s, Ask(id))
    ensures CallsOf(AskNext(c, s, id).threads[id]) == CallsOf(s.threads[id]) + [LastAsked(s, s.threads[id]).call]
  {
  }

  lemma AskMakesCall(c: Config, s: State, id: nat)
    requires Enabled(c, s, Ask(id)) && View(s, s.threads[id].phase.ref) == MatcherOf(c, s.threads[id].incoming)
    ensures CallsToCome(c, s.policy, s.threads[id]) ==
      [LastAsked(s, s.threads[id]).call] + CallsToCome(c, s.policy, AskNext(c, s, id).threads[id])
  {
    var t, t' := s.threads[id], AskNext(c, s, id).threads[id];
    var fixed, after := Fixed(s.policy, t.incoming.q.token), Replied(t, LastAsked(s, t));
    var q, bare, k := Canonical(t.incoming.q), IsBare(c, t.incoming), |t.asked|;
    assert PoliciesMet(after)[k] == s.policy;
    assert AgreeAt(Experience(after), fixed, k);
    AdvanceAgrees(Experience(after), fixed, k, q, bare, c.compiles, t.phase.pc);
    var next := Advance(fixed, k, q, bare, c.compiles, t.phase.pc);
    AfterReplyLeaves(c, s, id, t, t', next);
  }

  lemma AfterReplyLeaves(c: Config, s: State, id: nat, t: Thread, t': Thread, next: Pc)
    requires t.phase.Asking? && Asks(t.phase.pc) && t'.incoming == t.incoming && |t'.asked| == |t.asked| + 1
    requires next == Advance(Fixed(s.policy, t.incoming.q.token), |t.asked|, Canonical(t.incoming.q),
                             IsBare(c, t.incoming), c.compiles, t.phase.pc)
    requires t'.phase == AfterReply(id, s.now, t.phase.ref, t.phase.key, MatcherOf(c, t.incoming), next)
    ensures CallsToCome(c, s.policy, t) == [LastAsked(s, t).call] + CallsToCome(c, s.policy, t')
  {
    var fixed, k := Fixed(s.policy, t.incoming.q.token), |t.asked|;
    var q, bare := Canonical(t.incoming.q), IsBare(c, t.incoming);
    AdvanceStaysSound(fixed, k, q, bare, c.compiles, t.phase.pc);
    var rest := CallsFrom(fixed, k + 1, q, bare, c.compiles, next);
    assert CallsToCome(c, s.policy, t) == [NextCall(q, t.phase.pc)] + rest;
    assert rest == CallsToCome(c, s.policy, t') by {
      if next.Finished? { assert rest == []; }
    }
  }

  lemma AskKeepsMatcher(c: Config, s: State, id: nat)
    requires Enabled(c, s, Ask(id)) && View(s, s.threads[id].phase.ref) == MatcherOf(c, s.threads[id].incoming)
    ensures var s' := AskNext(c, s, id);
      var t' := s'.threads[id];
      && s'.policy == s.policy && (t'.phase.Asking? || t'.phase.Storing? || t'.phase.Done?)
      && (t'.phase.Asking? ==>
            && !t'.phase.pc.Finished? && HasObject(s', t'.phase.ref)
            && View(s', t'.phase.ref) == MatcherOf(c, t'.incoming))
  {
  }

  lemma OneMoreCall(c: Config, s: State, id: nat, made: seq<Call>)
    requires Enabled(c, s, Ask(id)) && View(s, s.threads[id].phase.ref) == MatcherOf(c, s.threads[id].incoming)
    requires made == CallsOf(AskNext(c, s, id).threads[id]) + CallsToCome(c, s.policy, AskNext(c, s, id).threads[id])
    ensures made == CallsOf(s.threads[id]) + CallsToCome(c, s.policy, s.threads[id])
  {
    AskRecordsCall(c, s, id);
    AskMakesCall(c, s, id);
    var before, now := CallsOf(s.threads[id]), CallsOf(AskNext(c, s, id).threads[id]);
    assert now[..|before|] == before && now[..|before| + 1] == now;
    MoveOver(now, |before|, CallsToCome(c, s.policy, AskNext(c, s, id).threads[id]));
  }

  /** Driven to its end, a request makes the calls that are left. */
  lemma {:induction false} DriveMakesCalls(c: Config, s: State, id: nat, storeFails: bool)
    requires Ready(s, id) && s.threads[id].phase.Asking? && !s.threads[id].phase.pc.Finished?
    requires View(s, s.threads[id].phase.ref) == MatcherOf(c, s.threads[id].incoming)
    ensures var s' := Drive(c, s, id, storeFails);
      && id in s'.threads
      && CallsOf(s'.threads[id]) == CallsOf(s.threads[id]) + CallsToCome(c, s.policy, s.threads[id])
    decreases PcRank(s.threads[id].phase), Left(s.threads[id].phase)
  {
    AskGoesDown(c, s, id);
    AskKeepsMatcher(c, s, id);
    var next := AskNext(c, s, id);
    var end := Drive(c, next, id, storeFails);
    if next.threads[id].phase.Asking? {
      DriveMakesCalls(c, next, id, storeFails);
    } else {
      assert CallsToCome(c, s.policy, next.threads[id]) == [];
      assert CallsOf(end.threads[id]) == CallsOf(next.threads[id]);
    }
    OneMoreCall(c, s, id, CallsOf(end.threads[id]));
  }

  predicate Misses(c: Config, s: State, i: Incoming, lookupFails: bool) {
    KnownVerb(i.q.verb) && !lookupFails && Lookup(c.ttl, Plainly(s.items), KeyOf(c, i), s.now).None?
  }

  /** The request after its lookup, driven to its end. */
  function Uninterrupted(c: Config, s: State, id: nat, lookupFails: bool, storeFails: bool): State
    requires Enabled(c, s, LookUp(id, lookupFails))
  {
    Drive(c, LookUpKey(c, s, id, lookupFails), id, storeFails)
  }

  lemma MissStartsAsking(c: Config, s: State, id: nat)
    requires Enabled(c, s, LookUp(id, false)) && Placed(c, s, id)
    requires Misses(c, s, s.threads[id].incoming, false)
    ensures LookUpKey(c, s, id, false) ==
      Goto(s, id, Asking(s.threads[id].phase.ref, KeyOf(c, s.threads[id].incoming), AskCluster))
  {
  }

  /** From `s` to `s'` the request was evaluated under the policy in force, answered and stored, with
      exactly the calls of that evaluation. */
  ghost predicate EvaluatedAndStored(c: Config, s: State, s': State, id: nat, i: Incoming, storeFails: bool,
      res: Result<DataResponse>) {
    var m := MatcherOf(c, i);
    && id in s'.threads && s'.threads[id].phase.Done? && s'.now == s.now
    && CallsOf(s'.threads[id]) == Calls(Fixed(s.policy, i.q.token), 0, Canonical(i.q), m.keys == [])
    && res == Answer(Decide(Fixed(s.policy, i.q.token), 0, Canonical(i.q), m.keys == [], c.compiles), m)
    && s'.threads[id].phase.answer == (match res case Ok(r) => Ok(ToJson(r)) case Err(e) => Err(e))
    && Plainly(s'.items) ==
         if res.Ok? && !storeFails then Plainly(s.items)[KeyOf(c, i) := ItemAt(c.ttl, ToJson(res.value), s.now)]
         else Plainly(s.items)
  }

  lemma FreshRequestIsEvaluated(c: Config, s: State, id: nat, storeFails: bool) returns (res: Result<DataResponse>)
    requires Ready(s, id) && s.threads[id].asked == [] && s.threads[id].phase.Asking?
    requires s.threads[id].phase.pc == AskCluster && s.threads[id].phase.key == KeyOf(c, s.threads[id].incoming)
    requires View(s, s.threads[id].phase.ref) == MatcherOf(c, s.threads[id].incoming)
    ensures EvaluatedAndStored(c, s, Drive(c, s, id, storeFails), id, s.threads[id].incoming, storeFails, res)
  {
    var i := s.threads[id].incoming;
    var m := MatcherOf(c, i);
    StepsReachDecision(Fixed(s.policy, i.q.token), 0, Canonical(i.q), m.keys == [], c.compiles);
    StepsMakeCalls(Fixed(s.policy, i.q.token), 0, Canonical(i.q), m.keys == [], c.compiles);
    DriveFinishes(c, s, id, storeFails);
    DriveMakesCalls(c, s, id, storeFails);
    res := Answer(Rest(c, s, id), m);
  }

  lemma MissIsEvaluated(c: Config, s: State, id: nat, storeFails: bool) returns (res: Result<DataResponse>)
    requires Enabled(c, s, LookUp(id, false)) && Placed(c, s, id) && OnCourse(c, s.now, s.threads[id])
    requires Misses(c, s, s.threads[id].incoming, false)
    ensures EvaluatedAndStored(c, s, Uninterrupted(c, s, id, false, storeFails), id, s.threads[id].incoming,
        storeFails, res)
  {
    MissStartsAsking(c, s, id);
    var mid := LookUpKey(c, s, id, false);
    assert View(mid, mid.threads[id].phase.ref) == View(s, s.threads[id].phase.ref);
    res := FreshRequestIsEvaluated(c, mid, id, storeFails);
  }

  lemma HitIsServed(c: Config, s: State, id: nat, lookupFails: bool, storeFails: bool)
    returns (res: Result<DataResponse>)
    requires CacheHonest(c, s) && Enabled(c, s, LookUp(id, lookupFails)) && Placed(c, s, id)
    requires !Misses(c, s, s.threads[id].incoming, lookupFails)
    ensures var i := s.threads[id].incoming;
      var s' := Uninterrupted(c, s, id, lookupFails, storeFails);
      && id in s'.threads && s'.threads[id].phase.Done? && s'.items == s.items
      && s'.threads[id].phase.answer == (match res case Ok(r) => Ok(ToJson(r)) case Err(e) => Err(e))
      && (if !KnownVerb(i.q.verb) then res == Err(UnexpectedVerb)
          else if lookupFails then res == Err(CacheGet)
          else res.Ok? && Lookup(c.ttl, Plainly(s.items), KeyOf(c, i), s.now) == Some(ToJson(res.value)))
  {
    var i := s.threads[id].incoming;
    var key := KeyOf(c, i);
    if !KnownVerb(i.q.verb) {
      res := Err(UnexpectedVerb);
    } else if lookupFails {
      res := Err(CacheGet);
    } else {
      assert EntryHonest(c, s, key);
      StoredBodyReadsBack(c, s, key);
      res := Ok(FromJson(s.items[key].item.body).value);
    }
  }

  lemma HitMakesNoCall(c: Config, s: State, id: nat, lookupFails: bool, storeFails: bool)
    requires Enabled(c, s, LookUp(id, lookupFails)) && Placed(c, s, id) && OnCourse(c, s.now, s.threads[id])
    requires !Misses(c, s, s.threads[id].incoming, lookupFails)
    ensures var s' := Uninterrupted(c, s, id, lookupFails, storeFails);
      id in s'.threads && CallsOf(s'.threads[id]) == []
  {
  }

  /** A request that looks up, asks and stores with nothing in between is one call of the authorizer, as its
      contract describes it, with the calls that the machine has recorded of it. */
  lemma SoloRunFollowsProtocol(c: Config, s: State, id: nat, lookupFails: bool, storeFails: bool)
    returns (res: Result<DataResponse>)
    requires MatchersIsolated(c, s) && CacheHonest(c, s) && Enabled(c, s, LookUp(id, lookupFails))
    ensures var i := s.threads[id].incoming;
      var s' := Uninterrupted(c, s, id, lookupFails, storeFails);
      && id in s'.threads && s'.threads[id].phase.Done?
      && Protocol(c.hash, c.compiles, MatcherOf(c, i), Fixed(s.policy, i.q.token), 0, i.q, s.now, c.ttl,
                  lookupFails, storeFails, Plainly(s.items), Plainly(s'.items), CallsOf(s'.threads[id]), res)
      && s'.threads[id].phase.answer == match res case Ok(r) => Ok(ToJson(r)) case Err(e) => Err(e)
  {
    var i := s.threads[id].incoming;
    assert Placed(c, s, id) && OnCourse(c, s.now, s.threads[id]);
    if Misses(c, s, i, lookupFails) {
      res := MissIsEvaluated(c, s, id, storeFails);
    } else {
      res := HitIsServed(c, s, id, lookupFails, storeFails);
      HitMakesNoCall(c, s, id, lookupFails, storeFails);
    }
  }
}
