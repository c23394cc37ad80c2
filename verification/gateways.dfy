/** The whole service as a state machine: any number of requests interleaved over one shared matcher and
    one shared cache, while the clock moves, the policy changes, entries are lost and cache operations
    fail. Every step is one access to shared state or one call to the API server. */
module Gateways {
  import opened Responses
  import opened Matchers
  import opened CacheKeys
  import opened TtlCache
  import opened Decisions
  import opened Policies
  import opened Authorizers

  datatype Config = Config(matcher: Settings, migrate: bool, ttl: Ttl, hash: string -> string,
      compiles: string -> bool)

  /** A request as the handler passes it on; the tenant is the resource it asks for. */
  datatype Incoming = Incoming(q: Request, selectors: Selectors)

  /** A matcher object: its slice header and the fields that never change. */
  datatype Object = Object(buf: nat, len: nat, op: string, skipTenants: set<string>, adminGroups: set<string>)

  /** Which request computed an answer, when it was stored, and when it was given out. */
  datatype Source = Source(maker: nat, at: int, when: int)

  datatype Phase =
    | Arrived
    | Derived(ref: nat)
    | Migrated(ref: nat)
    | Asking(ref: nat, key: string, pc: Pc)
    | Storing(ref: nat, key: string, body: Json)
    | Done(answer: Result<Json>, source: Source)

  /** A call that was made, the policy that answered it, and when. */
  datatype Asked = Asked(call: Call, policy: Policy, at: int)

  datatype Thread = Thread(incoming: Incoming, phase: Phase, asked: seq<Asked>)

  datatype Entry = Entry(item: Item, maker: nat, at: int)

  datatype State = State(
    now: int, policy: Policy, objects: map<nat, Object>, arrays: map<nat, seq<string>>,
    items: map<string, Entry>, threads: map<nat, Thread>)

  const SHARED: nat := 0

  datatype Step =
    | Tick(nanos: nat)
    | ChangePolicy(policy: Policy)
    | Evict(lost: string)
    | Arrive(id: nat, incoming: Incoming)
    | Derive(id: nat, spare: nat)
    | Migrate(id: nat)
    | LookUp(id: nat, fault: bool)
    | Ask(id: nat)
    | Store(id: nat, fault: bool)

  // ---- The machine ----

  predicate HasObject(s: State, ref: nat) {
    && ref in s.objects && s.objects[ref].buf in s.arrays
    && s.objects[ref].len <= |s.arrays[s.objects[ref].buf]|
  }

  /** The matcher stored at a reference. */
  function View(s: State, ref: nat): Settings
    requires HasObject(s, ref)
  {
    var o := s.objects[ref];
    Settings(s.arrays[o.buf][..o.len], o.op, o.skipTenants, o.adminGroups)
  }

  predicate HasRef(p: Phase) {
    p.Derived? || p.Migrated? || p.Asking? || p.Storing?
  }

  predicate Enabled(c: Config, s: State, step: Step) {
    match step
    case Tick(_) => true
    case ChangePolicy(_) => true
    case Evict(_) => true
    case Arrive(id, _) => id !in s.threads
    case Derive(id, spare) =>
      && id in s.threads && s.threads[id].phase.Arrived?
      && HasObject(s, SHARED) && spare !in s.objects && spare !in s.arrays
    case Migrate(id) => id in s.threads && s.threads[id].phase.Derived? && HasObject(s, s.threads[id].phase.ref)
    case LookUp(id, _) => id in s.threads && s.threads[id].phase.Migrated? && HasObject(s, s.threads[id].phase.ref)
    case Ask(id) =>
      && id in s.threads && s.threads[id].phase.Asking?
      && HasObject(s, s.threads[id].phase.ref) && Asks(s.threads[id].phase.pc)
    case Store(id, _) => id in s.threads && s.threads[id].phase.Storing?
  }

  function Goto(s: State, id: nat, phase: Phase): State
    requires id in s.threads
  {
    s.(threads := s.threads[id := s.threads[id].(phase := phase)])
  }

  /** Taking a request's matcher: the shared object itself when it has no keys, else a fresh object on a
      fresh array. */
  function TakeMatcher(s: State, id: nat, spare: nat): State
    requires id in s.threads && HasObject(s, SHARED)
  {
    var m, q := View(s, SHARED), s.threads[id].incoming.q;
    if m.keys == [] then Goto(s, id, Derived(SHARED))
    else
      var d := Matchers.Derived(m, q.resource, q.groups);
      Goto(s.(objects := s.objects[spare := Object(spare, |d.keys|, d.op, d.skipTenants, d.adminGroups)],
              arrays := s.arrays[spare := d.keys]), id, Derived(spare))
  }

  /** Deleting from a matcher in place: the tail is shifted down in the same array, the freed cell is
      cleared, and the object's length drops; without a match nothing is written. */
  function DeleteInPlace(s: State, ref: nat, left: seq<string>): State
    requires HasObject(s, ref)
  {
    var o := s.objects[ref];
    if |left| + 1 == o.len
    then s.(objects := s.objects[ref := o.(len := |left|)],
            arrays := s.arrays[o.buf := left + [""] + s.arrays[o.buf][o.len..]])
    else s
  }

  function PoliciesMet(t: Thread): seq<Policy> {
    seq(|t.asked|, i requires 0 <= i < |t.asked| => t.asked[i].policy)
  }

  /** The calls a request has made to the API server. */
  function CallsOf(t: Thread): (calls: seq<Call>)
    ensures |calls| == |t.asked|
  {
    seq(|t.asked|, i requires 0 <= i < |t.asked| => t.asked[i].call)
  }

  /** The API server as one request experienced it. */
  function Experience(t: Thread): Api {
    Following(PoliciesMet(t), t.incoming.q.token)
  }

  /** What a request does after a reply: ask on, keep the answer, or fail. */
  function AfterReply(id: nat, now: int, ref: nat, key: string, m: Settings, next: Pc): Phase {
    if !next.Finished? then Asking(ref, key, next)
    else match next.outcome
      case Ok(g) => Storing(ref, key, Body(g, m.keys, m.op))
      case Err(e) => Done(Err(e), Source(id, now, now))
  }

  function Replied(t: Thread, last: Asked): Thread {
    t.(asked := t.asked + [last])
  }

  /** What is recorded of the next call of an asking request. */
  function LastAsked(s: State, t: Thread): Asked
    requires t.phase.Asking? && Asks(t.phase.pc)
  {
    Asked(NextCall(Canonical(t.incoming.q), t.phase.pc), s.policy, s.now)
  }

  function AskNext(c: Config, s: State, id: nat): State
    requires Enabled(c, s, Ask(id))
  {
    var t := s.threads[id];
    var m := View(s, t.phase.ref);
    var after := Replied(t, LastAsked(s, t));
    var next := Advance(Experience(after), |t.asked|, Canonical(t.incoming.q), m.keys == [], c.compiles, t.phase.pc);
    s.(threads := s.threads[id := after.(phase := AfterReply(id, s.now, t.phase.ref, t.phase.key, m, next))])
  }

  function AfterLookUp(c: Config, s: State, id: nat, ref: nat, q: Request, key: string, fault: bool): Phase {
    var here := Source(id, s.now, s.now);
    if !KnownVerb(q.verb) then Done(Err(UnexpectedVerb), here)
    else if fault then Done(Err(CacheGet), here)
    else if key in s.items && Live(c.ttl, s.items[key].item, s.now) then
      match FromJson(s.items[key].item.body)
      case None => Done(Err(CacheGet), here)
      case Some(response) => Done(Ok(ToJson(response)), Source(s.items[key].maker, s.items[key].at, s.now))
    else Asking(ref, key, AskCluster)
  }

  function LookUpKey(c: Config, s: State, id: nat, fault: bool): State
    requires id in s.threads && s.threads[id].phase.Migrated? && HasObject(s, s.threads[id].phase.ref)
  {
    var q, ref := s.threads[id].incoming.q, s.threads[id].phase.ref;
    Goto(s, id, AfterLookUp(c, s, id, ref, q, Key(c.hash, q, View(s, ref).keys), fault))
  }

  function Apply(c: Config, s: State, step: Step): State
    requires Enabled(c, s, step)
  {
    match step
    case Tick(nanos) => s.(now := s.now + nanos)
    case ChangePolicy(policy) => s.(policy := policy)
    case Evict(lost) => s.(items := s.items - {lost})
    case Arrive(id, incoming) => s.(threads := s.threads[id := Thread(incoming, Arrived, [])])
    case Derive(id, spare) => TakeMatcher(s, id, spare)
    case Migrate(id) =>
      var t := s.threads[id];
      var moved := Goto(s, id, Migrated(t.phase.ref));
      if c.migrate
      then DeleteInPlace(moved, t.phase.ref, MigratedKeys(View(s, t.phase.ref).keys, t.incoming.selectors))
      else moved
    case LookUp(id, fault) => LookUpKey(c, s, id, fault)
    case Ask(id) => AskNext(c, s, id)
    case Store(id, fault) =>
      var p := s.threads[id].phase;
      var done := Goto(s, id, Done(Ok(p.body), Source(id, s.now, s.now)));
      if fault then done
      else done.(items := s.items[p.key := Entry(ItemAt(c.ttl, p.body, s.now), id, s.now)])
  }

  function Start(c: Config, policy: Policy): State {
    var m := c.matcher;
    State(0, policy, map[SHARED := Object(SHARED, |m.keys|, m.op, m.skipTenants, m.adminGroups)],
          map[SHARED := m.keys], map[], map[])
  }

  /** The state after a schedule; a step that is not enabled does nothing. */
  function Exec(c: Config, policy: Policy, steps: seq<Step>): State {
    if steps == [] then Start(c, policy)
    else
      var s := Exec(c, policy, steps[..|steps| - 1]);
      var step := steps[|steps| - 1];
      if Enabled(c, s, step) then Apply(c, s, step) else s
  }

  // ---- What a request stands for ----

  function MatcherOf(c: Config, i: Incoming): Settings {
    ForQuery(c.matcher, c.migrate, i.q.resource, i.q.groups, i.selectors)
  }

  function KeyOf(c: Config, i: Incoming): string {
    Key(c.hash, i.q, MatcherOf(c, i).keys)
  }

  predicate IsBare(c: Config, i: Incoming) {
    MatcherOf(c, i).keys == []
  }

  function BodyFor(c: Config, i: Incoming, g: Grant): Json {
    Body(g, MatcherOf(c, i).keys, MatcherOf(c, i).op)
  }

  /** Where a request's evaluation stands after the calls it has made. */
  function Progress(c: Config, t: Thread): Pc {
    Run(Experience(t), Canonical(t.incoming.q), IsBare(c, t.incoming), c.compiles, |t.asked|)
  }

  /** The request's own evaluation succeeded with this body. */
  predicate Produced(c: Config, t: Thread, body: Json) {
    && KnownVerb(t.incoming.q.verb)
    && Progress(c, t).Finished? && Progress(c, t).outcome.Ok?
    && body == BodyFor(c, t.incoming, Progress(c, t).outcome.value)
  }

  // ---- Invariant 1: the matchers ----

  ghost predicate Placed(c: Config, s: State, id: nat)
    requires id in s.threads
  {
    var t := s.threads[id];
    HasRef(t.phase) ==>
      && HasObject(s, t.phase.ref)
      && (t.phase.ref == SHARED ==> c.matcher.keys == [])
      && View(s, t.phase.ref) ==
           if t.phase.Derived? then Matchers.Derived(c.matcher, t.incoming.q.resource, t.incoming.q.groups)
           else MatcherOf(c, t.incoming)
  }

  predicate Apart(p1: Phase, p2: Phase) {
    HasRef(p1) && HasRef(p2) && p1.ref == p2.ref ==> p1.ref == SHARED
  }

  /** The shared matcher is as configured, every object has its own array, no two requests write to one
      object, and each request's matcher is a function of the configuration and the request. */
  ghost predicate MatchersIsolated(c: Config, s: State) {
    && HasObject(s, SHARED) && View(s, SHARED) == c.matcher
    && (forall r :: r in s.objects ==> HasObject(s, r) && s.objects[r].buf == r)
    && (forall id :: id in s.threads ==> Placed(c, s, id))
    && (forall a, b :: a in s.threads && b in s.threads && a != b ==> Apart(s.threads[a].phase, s.threads[b].phase))
  }

  lemma DeleteInPlaceWrites(s: State, ref: nat, selectors: Selectors)
    requires HasObject(s, ref) && s.objects[ref].buf == ref
    ensures var left := MigratedKeys(View(s, ref).keys, selectors);
      var s' := DeleteInPlace(s, ref, left);
      && HasObject(s', ref) && View(s', ref) == View(s, ref).(keys := left)
      && s'.threads == s.threads && s'.objects.Keys == s.objects.Keys && s'.objects[ref].buf == ref
      && (View(s, ref).keys == [] ==> s' == s)
      && (forall r :: r != ref && HasObject(s, r) && s.objects[r].buf == r ==>
            HasObject(s', r) && View(s', r) == View(s, r) && s'.objects[r] == s.objects[r])
  {
    var keys := View(s, ref).keys;
    var gone := if HasValues(selectors, K8S_NAME) then KUBERNETES_NAME else K8S_NAME;
    DeleteFirstSize(keys, gone);
    if gone !in keys { DeleteAbsent(keys, gone); }
  }

  lemma {:induction false} DeleteFirstSize(keys: seq<string>, key: string)
    ensures |DeleteFirst(keys, key)| == |keys| - if key in keys then 1 else 0
  {
    if keys != [] { DeleteFirstSize(keys[1..], key); }
  }

  /** No matcher is written and every request that still holds one keeps it. */
  ghost predicate NoMatcherWritten(s: State, s': State) {
    && s'.objects == s.objects && s'.arrays == s.arrays
    && forall id :: id in s'.threads && HasRef(s'.threads[id].phase) ==>
         && id in s.threads && HasRef(s.threads[id].phase) && s'.threads[id].incoming == s.threads[id].incoming
         && s'.threads[id].phase.ref == s.threads[id].phase.ref
         && (s'.threads[id].phase.Derived? <==> s.threads[id].phase.Derived?)
  }

  lemma ViewsKept(c: Config, s: State, s': State)
    requires MatchersIsolated(c, s) && NoMatcherWritten(s, s')
    ensures MatchersIsolated(c, s')
  {
  }

  lemma AskWritesNoMatcher(c: Config, s: State, id: nat)
    requires Enabled(c, s, Ask(id))
    ensures NoMatcherWritten(s, AskNext(c, s, id))
  {
  }

  lemma LookUpWritesNoMatcher(c: Config, s: State, id: nat, fault: bool)
    requires Enabled(c, s, LookUp(id, fault))
    ensures NoMatcherWritten(s, LookUpKey(c, s, id, fault))
  {
  }

  lemma OthersWriteNoMatcher(c: Config, s: State, step: Step)
    requires Enabled(c, s, step) && !step.Derive? && !step.Migrate? && !step.LookUp? && !step.Ask?
    ensures NoMatcherWritten(s, Apply(c, s, step))
  {
  }

  lemma StepKeepsMatchers(c: Config, s: State, step: Step)
    requires MatchersIsolated(c, s) && Enabled(c, s, step)
    ensures MatchersIsolated(c, Apply(c, s, step))
  {
    match step {
      case Derive(id, spare) =>
        DeriveKeepsMatchers(c, s, id, spare);
      case Migrate(id) =>
        MigrateKeepsMatchers(c, s, id);
      case LookUp(id, fault) =>
        LookUpWritesNoMatcher(c, s, id, fault);
        ViewsKept(c, s, Apply(c, s, step));
      case Ask(id) =>
        AskWritesNoMatcher(c, s, id);
        ViewsKept(c, s, Apply(c, s, step));
      case _ =>
        OthersWriteNoMatcher(c, s, step);
        ViewsKept(c, s, Apply(c, s, step));
    }
  }

  lemma DeriveKeepsMatchers(c: Config, s: State, id: nat, spare: nat)
    requires MatchersIsolated(c, s) && Enabled(c, s, Derive(id, spare))
    ensures MatchersIsolated(c, TakeMatcher(s, id, spare))
  {
  }

  /** A migration writes one object, which only its own request holds. */
  lemma MigrateWritesOne(c: Config, s: State, id: nat)
    requires MatchersIsolated(c, s) && Enabled(c, s, Migrate(id))
    ensures var t := s.threads[id];
      var ref := t.phase.ref;
      var s' := Apply(c, s, Migrate(id));
      && s'.threads == s.threads[id := t.(phase := Migrated(ref))] && s'.objects.Keys == s.objects.Keys
      && HasObject(s', ref) && View(s', ref) == MatcherOf(c, t.incoming)
      && (forall r :: r in s.objects ==> HasObject(s', r) && s'.objects[r].buf == r)
      && (forall r :: r in s.objects && (r != ref || View(s, ref).keys == []) ==> View(s', r) == View(s, r))
  {
    var t := s.threads[id];
    var ref := t.phase.ref;
    var moved := Goto(s, id, Migrated(ref));
    assert Placed(c, s, id);
    assert forall r :: r in s.objects ==> HasObject(moved, r) && View(moved, r) == View(s, r);
    DeleteInPlaceWrites(moved, ref, t.incoming.selectors);
  }

  lemma MigrateKeepsMatchers(c: Config, s: State, id: nat)
    requires MatchersIsolated(c, s) && Enabled(c, s, Migrate(id))
    ensures MatchersIsolated(c, Apply(c, s, Migrate(id)))
  {
    var ref := s.threads[id].phase.ref;
    var s' := Apply(c, s, Migrate(id));
    assert Placed(c, s, id);
    MigrateWritesOne(c, s, id);
    forall x | x in s'.threads ensures Placed(c, s', x) {
      assert Placed(c, s, x);
      if x != id { assert Apart(s.threads[x].phase, s.threads[id].phase); }
    }
    forall a, b | a in s'.threads && b in s'.threads && a != b
      ensures Apart(s'.threads[a].phase, s'.threads[b].phase)
    {
      assert Apart(s.threads[a].phase, s.threads[b].phase);
    }
  }

  // ---- Invariant 2: the evaluations and the cache ----

  ghost predicate AskedBy(t: Thread, time: int) {
    forall i :: 0 <= i < |t.asked| ==> t.asked[i].at <= time
  }

  /** A running request has digested exactly the replies it has received, and one that is asking has a
      call left to make. */
  ghost predicate OnCourse(c: Config, now: int, t: Thread) {
    match t.phase
    case Asking(_, key, pc) =>
      && KnownVerb(t.incoming.q.verb) && key == KeyOf(c, t.incoming)
      && pc == Progress(c, t) && Asks(pc) && AskedBy(t, now)
    case Storing(_, key, body) =>
      key == KeyOf(c, t.incoming) && Produced(c, t, body) && AskedBy(t, now)
    case Done(_, _) => true
    case _ => t.asked == []
  }

  /** `body` is what the finished request `maker` evaluated under this key, with calls up to `at`. */
  ghost predicate Origin(c: Config, threads: map<nat, Thread>, maker: nat, key: string, at: int, body: Json) {
    && maker in threads && threads[maker].phase.Done?
    && KeyOf(c, threads[maker].incoming) == key
    && Produced(c, threads[maker], body) && AskedBy(threads[maker], at)
  }

  ghost predicate EntryHonest(c: Config, s: State, key: string)
    requires key in s.items
  {
    var e := s.items[key];
    && Origin(c, s.threads, e.maker, key, e.at, e.item.body)
    && e.item == ItemAt(c.ttl, e.item.body, e.at) && e.at <= s.now
  }

  /** A success is the request's own evaluation, or that of a request with the same key whose answer was
      still young; a failure is its own, or one of the cache. */
  ghost predicate AnswerHonest(c: Config, s: State, id: nat)
    requires id in s.threads && s.threads[id].phase.Done?
  {
    var t := s.threads[id];
    var source := t.phase.source;
    match t.phase.answer
    case Ok(body) =>
      && KnownVerb(t.incoming.q.verb)
      && Origin(c, s.threads, source.maker, KeyOf(c, t.incoming), source.at, body)
      && source.at <= source.when <= s.now
      && (source.maker == id || Young(c.ttl, source.at, source.when))
    case Err(e) =>
      || (e == UnexpectedVerb && !KnownVerb(t.incoming.q.verb))
      || (e == CacheGet && KnownVerb(t.incoming.q.verb))
      || (KnownVerb(t.incoming.q.verb) && Progress(c, t) == Finished(Err(e)))
  }

  ghost predicate CacheHonest(c: Config, s: State) {
    && (forall id :: id in s.threads ==> OnCourse(c, s.now, s.threads[id]))
    && (forall key :: key in s.items ==> EntryHonest(c, s, key))
    && (forall id :: id in s.threads && s.threads[id].phase.Done? ==> AnswerHonest(c, s, id))
  }

  /** Nothing is forgotten about finished requests and time does not run back. */
  ghost predicate Later(s: State, s': State) {
    && s.now <= s'.now
    && forall id :: id in s.threads && s.threads[id].phase.Done? ==>
        id in s'.threads && s'.threads[id] == s.threads[id]
  }

  /** Every fact about the other requests survives a step that moves only `id`. */
  ghost predicate OnlyMoves(s: State, s': State, id: nat) {
    && Later(s, s')
    && forall x :: x in s'.threads && x != id ==> x in s.threads && s'.threads[x] == s.threads[x]
  }

  lemma HonestyKept(c: Config, s: State, s': State, id: nat)
    requires CacheHonest(c, s) && OnlyMoves(s, s', id)
    ensures forall x :: x in s'.threads && x != id ==> OnCourse(c, s'.now, s'.threads[x])
    ensures forall x :: x in s'.threads && x != id && s'.threads[x].phase.Done? ==> AnswerHonest(c, s', x)
    ensures forall key :: key in s.items && key in s'.items && s'.items[key] == s.items[key] ==>
      EntryHonest(c, s', key)
  {
  }

  lemma SameProgress(c: Config, t: Thread, t': Thread)
    requires t'.incoming == t.incoming && t'.asked == t.asked
    ensures Progress(c, t') == Progress(c, t)
    ensures forall body :: Produced(c, t', body) <==> Produced(c, t, body)
  {
  }

  /** One more call moves the evaluation to where the replies so far put it. */
  lemma ProgressAdvances(c: Config, t: Thread, t': Thread, last: Asked)
    requires t'.incoming == t.incoming && t'.asked == t.asked + [last]
    ensures Progress(c, t') ==
      Advance(Experience(t'), |t.asked|, Canonical(t.incoming.q), IsBare(c, t.incoming), c.compiles, Progress(c, t))
  {
    assert PoliciesMet(t') == PoliciesMet(t) + [last.policy];
    RunAgrees(Experience(t), Experience(t'), Canonical(t.incoming.q), IsBare(c, t.incoming), c.compiles, |t.asked|);
  }

  lemma AdvanceStaysSound(api: Api, k: nat, q: Request, bare: bool, compiles: string -> bool, pc: Pc)
    requires Sound(pc)
    ensures Sound(Advance(api, k, q, bare, compiles, pc))
  {
  }

  lemma AfterReplyOnCourse(c: Config, id: nat, now: int, t: Thread, ref: nat, key: string)
    requires t.phase == AfterReply(id, now, ref, key, MatcherOf(c, t.incoming), Progress(c, t))
    requires KnownVerb(t.incoming.q.verb) && key == KeyOf(c, t.incoming) && AskedBy(t, now)
    requires Sound(Progress(c, t))
    ensures OnCourse(c, now, t)
    ensures t.phase.Done? ==> t.phase.answer.Err? && Progress(c, t) == Finished(Err(t.phase.answer.error))
  {
  }

  lemma AskKeepsCourse(c: Config, s: State, id: nat)
    requires Enabled(c, s, Ask(id)) && OnCourse(c, s.now, s.threads[id]) && Placed(c, s, id)
    ensures var t' := AskNext(c, s, id).threads[id];
      && OnCourse(c, s.now, t')
      && (t'.phase.Done? ==> t'.phase.answer.Err? && Progress(c, t') == Finished(Err(t'.phase.answer.error)))
  {
    var t, t' := s.threads[id], AskNext(c, s, id).threads[id];
    var last := LastAsked(s, t);
    var after := Replied(t, last);
    ProgressAdvances(c, t, after, last);
    var q, bare := Canonical(t.incoming.q), IsBare(c, t.incoming);
    AdvanceStaysSound(Experience(after), |t.asked|, q, bare, c.compiles, t.phase.pc);
    SameProgress(c, after, t');
    assert AskedBy(t', s.now);
    AfterReplyOnCourse(c, id, s.now, t', t.phase.ref, t.phase.key);
  }

  lemma AskKeepsHonesty(c: Config, s: State, id: nat)
    requires MatchersIsolated(c, s) && CacheHonest(c, s) && Enabled(c, s, Ask(id))
    ensures CacheHonest(c, AskNext(c, s, id))
  {
    var s' := AskNext(c, s, id);
    assert OnCourse(c, s.now, s.threads[id]) && Placed(c, s, id);
    AskKeepsCourse(c, s, id);
    QuietStepKeepsHonesty(c, s, s', id);
  }

  /** Reading a stored body back and writing it out again does not change it. */
  lemma StoredBodyReadsBack(c: Config, s: State, key: string)
    requires key in s.items && EntryHonest(c, s, key)
    ensures var body := s.items[key].item.body;
      FromJson(body).Some? && ToJson(FromJson(body).value) == body
  {
    var maker := s.threads[s.items[key].maker];
    var m := MatcherOf(c, maker.incoming);
    StoredBodyStable(Respond(Progress(c, maker).outcome.value, m.keys, m.op));
  }

  lemma HitIsHonest(c: Config, s: State, id: nat, t: Thread, key: string)
    requires CacheHonest(c, s) && id in s.threads && !s.threads[id].phase.Done?
    requires t.incoming == s.threads[id].incoming && KnownVerb(t.incoming.q.verb) && key == KeyOf(c, t.incoming)
    requires key in s.items && Live(c.ttl, s.items[key].item, s.now)
    requires t.phase == AfterLookUp(c, s, id, 0, t.incoming.q, key, false)
    ensures t.phase.Done? && AnswerHonest(c, s.(threads := s.threads[id := t]), id)
  {
    assert EntryHonest(c, s, key);
    StoredBodyReadsBack(c, s, key);
    var e, s' := s.items[key], s.(threads := s.threads[id := t]);
    assert t.phase == Done(Ok(e.item.body), Source(e.maker, e.at, s.now));
    assert s'.threads[e.maker] == s.threads[e.maker];
    assert Origin(c, s'.threads, e.maker, key, e.at, e.item.body);
  }

  lemma LookUpKeepsAnswer(c: Config, s: State, id: nat, fault: bool)
    requires CacheHonest(c, s) && id in s.threads && Enabled(c, s, LookUp(id, fault)) && Placed(c, s, id)
    ensures var s' := LookUpKey(c, s, id, fault);
      OnCourse(c, s.now, s'.threads[id]) && (s'.threads[id].phase.Done? ==> AnswerHonest(c, s', id))
  {
    var s', t := LookUpKey(c, s, id, fault), s.threads[id];
    var key := Key(c.hash, t.incoming.q, View(s, t.phase.ref).keys);
    assert key == KeyOf(c, t.incoming);
    assert OnCourse(c, s.now, t);
    var t' := s'.threads[id];
    assert t'.phase == AfterLookUp(c, s, id, t.phase.ref, t.incoming.q, key, fault);
    if KnownVerb(t.incoming.q.verb) && !fault {
      if key in s.items && Live(c.ttl, s.items[key].item, s.now) {
        HitIsHonest(c, s, id, t', key);
      } else {
        assert t'.asked == [] && Progress(c, t') == AskCluster;
      }
    }
  }

  lemma LookUpKeepsHonesty(c: Config, s: State, id: nat, fault: bool)
    requires MatchersIsolated(c, s) && CacheHonest(c, s) && Enabled(c, s, LookUp(id, fault))
    ensures CacheHonest(c, LookUpKey(c, s, id, fault))
  {
    assert Placed(c, s, id);
    LookUpKeepsAnswer(c, s, id, fault);
    QuietStepKeepsHonesty(c, s, LookUpKey(c, s, id, fault), id);
  }

  lemma StoreMakesOrigin(c: Config, s: State, id: nat, fault: bool)
    requires id in s.threads && Enabled(c, s, Store(id, fault)) && OnCourse(c, s.now, s.threads[id])
    ensures var s' := Apply(c, s, Store(id, fault));
      var p := s.threads[id].phase;
      && KeyOf(c, s.threads[id].incoming) == p.key && KnownVerb(s.threads[id].incoming.q.verb)
      && Origin(c, s'.threads, id, p.key, s.now, p.body)
  {
  }

  lemma StoreKeepsHonesty(c: Config, s: State, id: nat, fault: bool)
    requires CacheHonest(c, s) && Enabled(c, s, Store(id, fault))
    ensures CacheHonest(c, Apply(c, s, Store(id, fault)))
  {
    var p := s.threads[id].phase;
    assert OnCourse(c, s.now, s.threads[id]);
    StoreMakesOrigin(c, s, id, fault);
    var done := Goto(s, id, Done(Ok(p.body), Source(id, s.now, s.now)));
    assert AnswerHonest(c, done, id) by { assert done.threads == Apply(c, s, Store(id, fault)).threads; }
    QuietStepKeepsHonesty(c, s, done, id);
    if !fault { EntryAdded(c, done, p.key, Entry(ItemAt(c.ttl, p.body, s.now), id, s.now)); }
  }

  lemma EntryAdded(c: Config, s: State, key: string, e: Entry)
    requires CacheHonest(c, s)
    requires Origin(c, s.threads, e.maker, key, e.at, e.item.body)
    requires e.item == ItemAt(c.ttl, e.item.body, e.at) && e.at <= s.now
    ensures CacheHonest(c, s.(items := s.items[key := e]))
  {
    var s' := s.(items := s.items[key := e]);
    forall k | k in s'.items ensures EntryHonest(c, s', k) {
      if k != key { assert EntryHonest(c, s, k); }
    }
    forall id | id in s'.threads && s'.threads[id].phase.Done? ensures AnswerHonest(c, s', id) {
      assert AnswerHonest(c, s, id);
    }
  }

  lemma QuietStepKeepsHonesty(c: Config, s: State, s': State, id: nat)
    requires CacheHonest(c, s) && OnlyMoves(s, s', id)
    requires forall key :: key in s'.items ==> key in s.items && s'.items[key] == s.items[key]
    requires id in s'.threads ==>
      OnCourse(c, s'.now, s'.threads[id]) && (s'.threads[id].phase.Done? ==> AnswerHonest(c, s', id))
    ensures CacheHonest(c, s')
  {
    HonestyKept(c, s, s', id);
  }

  lemma ArriveKeepsHonesty(c: Config, s: State, id: nat, incoming: Incoming)
    requires CacheHonest(c, s) && id !in s.threads
    ensures CacheHonest(c, s.(threads := s.threads[id := Thread(incoming, Arrived, [])]))
  {
    QuietStepKeepsHonesty(c, s, s.(threads := s.threads[id := Thread(incoming, Arrived, [])]), id);
  }

  lemma DeriveKeepsHonesty(c: Config, s: State, id: nat, spare: nat)
    requires CacheHonest(c, s) && Enabled(c, s, Derive(id, spare))
    ensures CacheHonest(c, TakeMatcher(s, id, spare))
  {
    assert OnCourse(c, s.now, s.threads[id]);
    QuietStepKeepsHonesty(c, s, TakeMatcher(s, id, spare), id);
  }

  lemma MigrateKeepsHonesty(c: Config, s: State, id: nat)
    requires CacheHonest(c, s) && Enabled(c, s, Migrate(id))
    ensures CacheHonest(c, Apply(c, s, Migrate(id)))
  {
    assert OnCourse(c, s.now, s.threads[id]);
    QuietStepKeepsHonesty(c, s, Apply(c, s, Migrate(id)), id);
  }

  lemma StepKeepsHonesty(c: Config, s: State, step: Step)
    requires MatchersIsolated(c, s) && CacheHonest(c, s) && Enabled(c, s, step)
    ensures CacheHonest(c, Apply(c, s, step))
  {
    match step {
      case LookUp(id, fault) => LookUpKeepsHonesty(c, s, id, fault);
      case Ask(id) => AskKeepsHonesty(c, s, id);
      case Store(id, fault) => StoreKeepsHonesty(c, s, id, fault);
      case Arrive(id, incoming) => ArriveKeepsHonesty(c, s, id, incoming);
      case Derive(id, spare) => DeriveKeepsHonesty(c, s, id, spare);
      case Migrate(id) => MigrateKeepsHonesty(c, s, id);
      case _ => TimePasses(c, s, Apply(c, s, step));
    }
  }

  lemma TimePasses(c: Config, s: State, s': State)
    requires CacheHonest(c, s) && s'.threads == s.threads && s.now <= s'.now
    requires forall key :: key in s'.items ==> key in s.items && s'.items[key] == s.items[key]
    ensures CacheHonest(c, s')
  {
    forall id | id in s'.threads
      ensures OnCourse(c, s'.now, s'.threads[id]) && (s'.threads[id].phase.Done? ==> AnswerHonest(c, s', id))
    {
      assert OnCourse(c, s.now, s.threads[id]);
      if s.threads[id].phase.Done? { assert AnswerHonest(c, s, id); }
    }
    forall key | key in s'.items ensures EntryHonest(c, s', key) { assert EntryHonest(c, s, key); }
  }

  // ---- Invariant 3: the calls ----

  /** Each call that a request made was the next one of its evaluation. */
  ghost predicate Logged(c: Config, t: Thread) {
    Recorded(Experience(t), Canonical(t.incoming.q), IsBare(c, t.incoming), c.compiles, CallsOf(t))
  }

  ghost predicate CallsLogged(c: Config, s: State) {
    forall id :: id in s.threads ==> Logged(c, s.threads[id])
  }

  lemma LogGrows(c: Config, t: Thread, t': Thread, last: Asked)
    requires t'.incoming == t.incoming && t'.asked == t.asked + [last]
    requires Logged(c, t) && Asks(Progress(c, t)) && last.call == NextCall(Canonical(t.incoming.q), Progress(c, t))
    ensures Logged(c, t')
  {
    var q, bare := Canonical(t.incoming.q), IsBare(c, t.incoming);
    assert PoliciesMet(t') == PoliciesMet(t) + [last.policy];
    forall i: nat | i < |t'.asked| ensures RecordedAt(Experience(t'), q, bare, c.compiles, CallsOf(t'), i) {
      RunAgrees(Experience(t), Experience(t'), q, bare, c.compiles, i);
      if i < |t.asked| { assert RecordedAt(Experience(t), q, bare, c.compiles, CallsOf(t), i); }
    }
  }

  lemma LogStays(c: Config, t: Thread, t': Thread)
    requires t'.incoming == t.incoming && t'.asked == t.asked && Logged(c, t)
    ensures Logged(c, t')
  {
  }

  lemma AskIsLogged(c: Config, s: State, id: nat)
    requires Enabled(c, s, Ask(id)) && Logged(c, s.threads[id]) && OnCourse(c, s.now, s.threads[id])
    ensures Logged(c, AskNext(c, s, id).threads[id])
  {
    LogGrows(c, s.threads[id], AskNext(c, s, id).threads[id], LastAsked(s, s.threads[id]));
  }

  /** A step keeps every request's calls, except that asking adds one to those of its own request. */
  lemma StepKeepsCalls(c: Config, s: State, step: Step, id: nat)
    requires Enabled(c, s, step) && id in Apply(c, s, step).threads && step != Ask(id)
    ensures var t' := Apply(c, s, step).threads[id];
      if id in s.threads then t'.incoming == s.threads[id].incoming && t'.asked == s.threads[id].asked
      else t'.asked == []
  {
  }

  lemma StepKeepsLog(c: Config, s: State, step: Step)
    requires CacheHonest(c, s) && CallsLogged(c, s) && Enabled(c, s, step)
    ensures CallsLogged(c, Apply(c, s, step))
  {
    var s' := Apply(c, s, step);
    forall id | id in s'.threads ensures Logged(c, s'.threads[id]) {
      if step == Ask(id) {
        assert OnCourse(c, s.now, s.threads[id]);
        AskIsLogged(c, s, id);
      } else {
        StepKeepsCalls(c, s, step, id);
        if id in s.threads { LogStays(c, s.threads[id], s'.threads[id]); }
      }
    }
  }

  // ---- Every run ----

  lemma {:induction false} EveryRunKeeps(c: Config, policy: Policy, steps: seq<Step>)
    ensures var s := Exec(c, policy, steps);
      MatchersIsolated(c, s) && CacheHonest(c, s) && CallsLogged(c, s)
  {
    if steps == [] {
      assert c.matcher.keys[..|c.matcher.keys|] == c.matcher.keys;
    } else {
      var before := steps[..|steps| - 1];
      EveryRunKeeps(c, policy, before);
      var s, step := Exec(c, policy, before), steps[|steps| - 1];
      if Enabled(c, s, step) {
        StepKeepsMatchers(c, s, step);
        StepKeepsHonesty(c, s, step);
        StepKeepsLog(c, s, step);
      }
    }
  }
}
