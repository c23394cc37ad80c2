/** internal/authorizer/authorizer.go: the cache protocol, the evaluation and the response builder. */
module Authorizers {
  import opened Text
  import opened Responses
  import opened Matchers
  import opened CacheKeys
  import opened TtlCache
  import opened Decisions

  /** The API server as one request sees it, with the calls made so far. */
  class Client {
    const api: Api
    var calls: seq<Call>

    constructor (api: Api)
      ensures this.api == api && calls == []
    {
      this.api := api;
      this.calls := [];
    }

    method AccessReview(
      user: string, groups: array<string>, verb: string, resource: string, resourceName: string, apiGroup: string,
      namespace: string) returns (reply: Reply<bool>)
      modifies this
      ensures var review := Review(user, groups[..], verb, resource, resourceName, apiGroup, namespace);
        calls == old(calls) + [ReviewCall(review)] && reply == api.review(|old(calls)|, review)
    {
      var review := Review(user, groups[..], verb, resource, resourceName, apiGroup, namespace);
      reply := api.review(|calls|, review);
      calls := calls + [ReviewCall(review)];
    }

    method NamespaceList() returns (reply: Reply<seq<string>>)
      modifies this
      ensures calls == old(calls) + [ListCall] && reply == api.list(|old(calls)|)
    {
      reply := api.list(|calls|);
      calls := calls + [ListCall];
    }
  }

  /** What the caller gets for an outcome, given the request's matcher. */
  function Answer(outcome: Result<Grant>, m: Settings): Result<DataResponse> {
    match outcome
    case Err(e) => Err(e)
    case Ok(g) => Ok(Respond(g, m.keys, m.op))
  }

  /** The request as it is sent to the API server: with sorted groups. */
  function Canonical(q: Request): Request {
    q.(groups := Sorted(q.groups))
  }

  /** One call to the authorizer, from the cache's contents before and after it, the calls it made, the
      first being call p, and its result. An unknown verb, a failed lookup and a hit make no call and store
      nothing; a miss evaluates, with sorted groups, and stores an answer that succeeded; a failed store
      changes no answer. */
  ghost predicate Protocol(
    hash: string -> string, compiles: string -> bool, m: Settings, api: Api, p: nat, q: Request, now: int,
    ttl: Ttl, lookupFails: bool, storeFails: bool,
    before: map<string, Item>, after: map<string, Item>, calls: seq<Call>, res: Result<DataResponse>)
  {
    var key := Key(hash, q, m.keys);
    var found := Lookup(ttl, before, key, now);
    if !KnownVerb(q.verb) || lookupFails || found.Some? then
      && calls == [] && after == before
      && if !KnownVerb(q.verb) then res == Err(UnexpectedVerb)
         else if lookupFails then res == Err(CacheGet)
         else res.Ok? && ToJson(res.value) == found.value
    else
      && calls == Calls(api, p, Canonical(q), m.keys == [])
      && res == Answer(Decide(api, p, Canonical(q), m.keys == [], compiles), m)
      && after == if res.Ok? && !storeFails then before[key := ItemAt(ttl, ToJson(res.value), now)] else before
  }

  /** What one call to the authorizer comes to, in the request's own words: every review is of the access
      requested, with sorted groups; an unknown verb is an error and asks nothing; a write that is not in
      the cache is answered with the bare verdict of its one review. */
  lemma ProtocolMeaning(
    hash: string -> string, compiles: string -> bool, m: Settings, api: Api, p: nat, q: Request, now: int,
    ttl: Ttl, lookupFails: bool, storeFails: bool,
    before: map<string, Item>, after: map<string, Item>, calls: seq<Call>, res: Result<DataResponse>)
    requires Protocol(hash, compiles, m, api, p, q, now, ttl, lookupFails, storeFails, before, after, calls, res)
    ensures forall k :: 0 <= k < |calls| ==>
      Concerns(calls[k], q.user, Sorted(q.groups), q.verb, q.resource, q.resourceName, q.apiGroup)
    ensures q.verb != "get" && q.verb != "create" ==> res == Err(UnexpectedVerb) && calls == []
    ensures q.verb == "create" && calls != [] ==>
      var review := Review(q.user, Sorted(q.groups), "create", q.resource, q.resourceName, q.apiGroup, "");
      && calls == [ReviewCall(review)]
      && match api.review(p, review)
         case Failed => res == Err(ClusterReview)
         case Got(allowed) => res.Ok? && ToJson(res.value) == JObject(map["result" := JBool(allowed)])
  {
    QuestionsAreOfTheRequest(api, p, Canonical(q), m.keys == []);
    if q.verb == "create" { WriteDecidedExactly(api, p, Canonical(q), m.keys == [], compiles); }
  }

  /** A failure is the error of the last call to the API server exactly when that failed, and that of the cache
      exactly when it could not be read. */
  predicate FailsAsItShould(api: Api, p: nat, calls: seq<Call>, lookupFails: bool, res: Result<DataResponse>) {
    && ((res.Err? && CallError(res.error)) <==>
          calls != [] && CallFails(api, p + |calls| - 1, calls[|calls| - 1]))
    && (res == Err(CacheGet) <==> lookupFails)
    && res != Err(UnexpectedVerb)
  }

  lemma ProtocolFailures(
    hash: string -> string, compiles: string -> bool, m: Settings, api: Api, p: nat, q: Request, now: int,
    ttl: Ttl, lookupFails: bool, storeFails: bool,
    before: map<string, Item>, after: map<string, Item>, calls: seq<Call>, res: Result<DataResponse>)
    requires Protocol(hash, compiles, m, api, p, q, now, ttl, lookupFails, storeFails, before, after, calls, res)
    requires q.verb in {"get", "create"}
    ensures FailsAsItShould(api, p, calls, lookupFails, res)
  {
    EvaluationFails(api, p, Canonical(q), m, compiles);
  }

  lemma EvaluationFails(api: Api, p: nat, q: Request, m: Settings, compiles: string -> bool)
    ensures FailsAsItShould(api, p, Calls(api, p, q, m.keys == []), false,
                            Answer(Decide(api, p, q, m.keys == [], compiles), m))
  {
    LastCallDecides(api, p, q, m.keys == [], compiles);
  }

  predicate BareVerdict(body: Json) {
    body == JObject(map["result" := JBool(true)]) || body == JObject(map["result" := JBool(false)])
  }

  /** Under the key of a read that needs a matcher the body is not the bare grant, and under the key of a
      write it is a bare verdict. */
  predicate SoundBody(key: string, body: Json) {
    |key| > 0 ==>
      && (key[0] == 'g' && key[|key| - 1] != 'y' ==> !BareGrant(body))
      && (key[0] == 'c' ==> BareVerdict(body))
  }

  ghost predicate SoundItems(items: map<string, Item>) {
    forall key :: key in items ==> SoundBody(key, items[key].body)
  }

  lemma SoundKey(hash: string -> string, q: Request, keys: seq<string>, body: Json)
    requires HexDigest(hash) && KnownVerb(q.verb)
    ensures SoundBody(Key(hash, q, keys), body) <==>
      (q.verb == "get" && keys != [] ==> !BareGrant(body)) && (q.verb == "create" ==> BareVerdict(body))
  {
    KeyEnds(hash, q, keys);
    KeyUnfolds(hash, q, keys);
    assert Key(hash, q, keys)[0] == q.verb[0];
  }

  lemma EvaluationIsSound(hash: string -> string, api: Api, p: nat, q: Request, m: Settings, compiles: string -> bool)
    requires HexDigest(hash) && KnownVerb(q.verb) && Decide(api, p, q, m.keys == [], compiles).Ok?
    ensures SoundBody(Key(hash, q, m.keys), Body(Decide(api, p, q, m.keys == [], compiles).value, m.keys, m.op))
  {
    var g := Decide(api, p, q, m.keys == [], compiles).value;
    SoundKey(hash, q, m.keys, Body(g, m.keys, m.op));
    BodyMeaning(g, m.keys, m.op);
    if q.verb == "get" {
      var cluster, names := ReadDecidedExactly(api, p, q, m.keys == [], compiles);
    } else {
      WriteDecidedExactly(api, p, q, m.keys == [], compiles);
    }
  }

  /** On a sound cache, and so from an empty one on, a read that needs a matcher never gets the bare grant, a
      write gets nothing but a bare verdict, and the cache stays sound. */
  lemma ProtocolIsSound(
    hash: string -> string, compiles: string -> bool, m: Settings, api: Api, p: nat, q: Request, now: int,
    ttl: Ttl, lookupFails: bool, storeFails: bool,
    before: map<string, Item>, after: map<string, Item>, calls: seq<Call>, res: Result<DataResponse>)
    requires Protocol(hash, compiles, m, api, p, q, now, ttl, lookupFails, storeFails, before, after, calls, res)
    requires HexDigest(hash) && SoundItems(before)
    ensures SoundItems(after)
    ensures q.verb == "get" && m.keys != [] && res.Ok? ==> !BareGrant(ToJson(res.value))
    ensures q.verb == "create" && res.Ok? ==> BareVerdict(ToJson(res.value))
  {
    if KnownVerb(q.verb) && res.Ok? {
      var key := Key(hash, q, m.keys);
      KeyIgnoresGroupOrder(hash, q, Sorted(q.groups), m.keys) by { SortedIsOrderedPermutation(q.groups); }
      SoundKey(hash, q, m.keys, ToJson(res.value));
      if Decide(api, p, Canonical(q), m.keys == [], compiles).Ok? {
        EvaluationIsSound(hash, api, p, Canonical(q), m, compiles);
      }
    }
  }

  class Authorizer {
    const client: Client
    const cacher: Cacher
    const matcher: Matcher
    const hash: string -> string
    const compiles: string -> bool

    ghost predicate Valid()
      reads matcher, cacher, cacher.store
    {
      matcher.Valid() && cacher.Valid()
    }

    constructor (client: Client, cacher: Cacher, matcher: Matcher, hash: string -> string, compiles: string -> bool)
      requires matcher.Valid() && cacher.Valid()
      ensures Valid() && this.client == client && this.cacher == cacher && this.matcher == matcher
      ensures this.hash == hash && this.compiles == compiles
    {
      this.client := client;
      this.cacher := cacher;
      this.matcher := matcher;
      this.hash := hash;
      this.compiles := compiles;
    }

    ghost predicate Bare()
      requires matcher.Valid()
      reads matcher, matcher.buf
    {
      matcher.View().keys == []
    }

    /** One label matcher per key, in key order, all with the joined names as their pattern. */
    method NewDataResponse(names: seq<string>) returns (res: Result<DataResponse>)
      requires matcher.Valid()
      ensures res == Answer(Conclude(names, Bare(), compiles), matcher.View())
    {
      if matcher.IsEmpty() && |names| > 0 {
        return Ok(Minimal(true));
      }
      ghost var expected := MatchersFor(matcher.View().keys, names);
      var matchers := [];
      for i := 0 to matcher.len
        invariant matchers == expected[..i]
        invariant i > 0 ==> compiles(Join(names, "|"))
      {
        var value := Join(names, "|");
        if !compiles(value) {
          return Err(BadPattern);
        }
        matchers := matchers + [LabelMatcher(matcher.buf[i], value)];
      }
      assert expected[..matcher.len] == expected;
      var allowed := "true";
      if |names| == 0 {
        allowed := "false";
      }
      res := Ok(DataResponse(Some(StringMap(map[
        "allowed" := Plain(allowed),
        "data" := Rendered(AuthzData(matchers, matcher.op))]))));
    }

    /** The outcome when the cluster-wide review allowed the request. */
    method AuthorizeClusterWide(q: Request) returns (res: Result<DataResponse>)
      requires matcher.Valid()
      modifies client
      ensures client.calls == old(client.calls) + if Bare() then [] else [ListCall]
      ensures res == Answer(DecideClusterWide(client.api, |old(client.calls)|, q, Bare(), compiles), matcher.View())
    {
      if matcher.IsEmpty() {
        return Ok(Minimal(true));
      }
      var reply := client.NamespaceList();
      if reply.Failed? {
        return Err(Error.ListNamespaces);
      }
      var listing := reply.value;
      var namespaces := q.namespaces;
      if |namespaces| == 0 {
        res := NewDataResponse(listing);
        return;
      }
      var known: map<string, bool> := map[];
      for i := 0 to |listing|
        invariant forall ns :: ns in known <==> ns in listing[..i]
        invariant forall ns :: ns in known ==> known[ns]
      {
        known := known[listing[i] := true];
      }
      assert listing[..|listing|] == listing;
      ghost var flags := ListedFlags(namespaces, listing);
      var filtered := [];
      for i := 0 to |namespaces|
        invariant filtered == Pick(namespaces[..i], flags[..i])
      {
        if namespaces[i] in known && known[namespaces[i]] {
          filtered := filtered + [namespaces[i]];
        }
        assert namespaces[..i + 1][..i] == namespaces[..i] && flags[..i + 1][..i] == flags[..i];
      }
      assert namespaces[..|namespaces|] == namespaces && flags[..|namespaces|] == flags;
      res := NewDataResponse(filtered);
    }

    /** The evaluation without a cache: its outcome and the calls it makes, for every API server. */
    method AuthorizeInner(q: Request, groups: array<string>) returns (res: Result<DataResponse>)
      requires matcher.Valid() && q.groups == groups[..]
      modifies client
      ensures client.calls == old(client.calls) + Calls(client.api, |old(client.calls)|, q, Bare())
      ensures res == Answer(Decide(client.api, |old(client.calls)|, q, Bare(), compiles), matcher.View())
      ensures forall k :: |old(client.calls)| <= k < |client.calls| ==>
        Concerns(client.calls[k], q.user, q.groups, q.verb, q.resource, q.resourceName, q.apiGroup)
      ensures q.verb == "create" ==>
        var review := Review(q.user, q.groups, "create", q.resource, q.resourceName, q.apiGroup, "");
        match client.api.review(|old(client.calls)|, review)
        case Failed => res == Err(ClusterReview)
        case Got(allowed) => res.Ok? && ToJson(res.value) == JObject(map["result" := JBool(allowed)])
    {
      QuestionsAreOfTheRequest(client.api, |client.calls|, q, Bare());
      ghost var calls := Calls(client.api, |client.calls|, q, Bare());
      if q.verb == "create" {
        WriteDecidedExactly(client.api, |client.calls|, q, Bare(), compiles);
      }
      var cluster := client.AccessReview(q.user, groups, q.verb, q.resource, q.resourceName, q.apiGroup, "");
      assert cluster == client.api.review(|old(client.calls)|, At(q, ""));
      assert matcher.View() == old(matcher.View());
      if cluster.Failed? {
        res := Err(ClusterReview);
      } else if q.verb == CREATE {
        res := Ok(Minimal(cluster.value));
      } else if cluster.value {
        res := AuthorizeClusterWide(q);
      } else {
        res := AuthorizeNamespaced(q, groups);
      }
      Appended(old(client.calls), ReviewCall(At(q, "")), client.calls, calls);
    }

    /** The outcome when the cluster-wide review denied the request. */
    method AuthorizeNamespaced(q: Request, groups: array<string>) returns (res: Result<DataResponse>)
      requires matcher.Valid() && q.groups == groups[..]
      modifies client
      ensures client.calls == old(client.calls) + NamespacedCalls(client.api, |old(client.calls)|, q)
      ensures res == Answer(DecideNamespaced(client.api, |old(client.calls)|, q, Bare(), compiles), matcher.View())
    {
      var namespaces := q.namespaces;
      if q.metadataOnly && |namespaces| == 0 {
        var listed := client.NamespaceList();
        if listed.Failed? {
          return Err(Error.ListNamespaces);
        }
        if |listed.value| == 0 {
          return Ok(Minimal(false));
        }
        namespaces := listed.value;
      }
      res := AuthorizeEach(q, groups, namespaces);
    }

    /** The loop of namespaced reviews, ending at the first failure. */
    method AuthorizeEach(q: Request, groups: array<string>, namespaces: seq<string>)
      returns (res: Result<DataResponse>)
      requires matcher.Valid() && q.groups == groups[..]
      modifies client
      ensures client.calls == old(client.calls) + LoopCalls(client.api, |old(client.calls)|, q, namespaces)
      ensures res == Answer(DecideEach(client.api, |old(client.calls)|, q, namespaces, Bare(), compiles),
                            matcher.View())
    {
      ghost var p := |client.calls|;
      ghost var n := Reached(client.api, p, q, namespaces, 0);
      AllowedAtEnds(client.api, p, q, namespaces);
      var allowed := [];
      for i := 0 to |namespaces|
        invariant client.calls == old(client.calls) + ReviewCalls(q, namespaces[..i])
        invariant AllAnswered(client.api, p, q, namespaces[..i])
        invariant allowed == AllowedUpTo(client.api, p, q, namespaces, i)
        invariant n == Reached(client.api, p, q, namespaces, i)
      {
        var reply :=
          client.AccessReview(q.user, groups, q.verb, q.resource, q.resourceName, q.apiGroup, namespaces[i]);
        assert reply == ReplyTo(client.api, p, q, namespaces, i);
        ReviewCallsNext(q, namespaces, i);
        if reply.Failed? {
          return Err(NamespaceReview);
        }
        if reply.value {
          allowed := allowed + [namespaces[i]];
        }
        AllowedNext(client.api, p, q, namespaces, i);
        AnsweredNext(client.api, p, q, namespaces, i);
      }
      assert namespaces[..|namespaces|] == namespaces;
      if |allowed| == 0 {
        return Ok(Minimal(false));
      }
      res := NewDataResponse(allowed);
    }

    method Authorize(q: Request, groups: array<string>, now: int) returns (res: Result<DataResponse>)
      requires Valid() && q.groups == groups[..] && groups != matcher.buf
      modifies client, cacher, cacher.store, groups
      ensures Valid()
      ensures groups[..] == if KnownVerb(q.verb) then Sorted(q.groups) else q.groups
      ensures old(client.calls) <= client.calls
      ensures
        var k := old(cacher.operations);
        Protocol(hash, compiles, matcher.View(), client.api, |old(client.calls)|, q, now,
                 cacher.store.ttl, cacher.fails(k), cacher.fails(k + 1),
                 old(cacher.store.items), cacher.store.items, client.calls[|old(client.calls)|..], res)
    {
      assert client.calls[|client.calls|..] == [];
      if !KnownVerb(q.verb) {
        return Err(UnexpectedVerb);
      }
      var key := GenerateCacheKey(hash, q.token, q.user, groups, q.verb, q.resource, q.resourceName, q.apiGroup,
                                  q.namespaces, q.metadataOnly, matcher);
      assert matcher.View() == old(matcher.View()) && key == Key(hash, q, matcher.View().keys);
      assert q.(groups := groups[..]) == Canonical(q);
      var fetched := cacher.Get(key, now);
      match fetched {
        case Fault =>
          res := Err(CacheGet);
        case Hit(response) =>
          res := Ok(response);
        case Miss =>
          res := EvaluateAndStore(q.(groups := groups[..]), groups, key, now);
      }
    }

    /** After a miss: what succeeds is stored, and what the store says is ignored. */
    method EvaluateAndStore(q: Request, groups: array<string>, key: string, now: int)
      returns (res: Result<DataResponse>)
      requires Valid() && q.groups == groups[..]
      modifies client, cacher, cacher.store
      ensures Valid() && old(client.calls) <= client.calls
      ensures client.calls[|old(client.calls)|..] == Calls(client.api, |old(client.calls)|, q, Bare())
      ensures res == Answer(Decide(client.api, |old(client.calls)|, q, Bare(), compiles), matcher.View())
      ensures cacher.store.items ==
        if res.Ok? && !cacher.fails(old(cacher.operations))
        then old(cacher.store.items)[key := ItemAt(cacher.store.ttl, ToJson(res.value), now)]
        else old(cacher.store.items)
    {
      res := AuthorizeInner(q, groups);
      if res.Ok? {
        var saved := cacher.Set(key, res.value, now);
      }
    }
  }

  lemma ReviewCallsNext(q: Request, cands: seq<string>, i: nat)
    requires i < |cands|
    ensures ReviewCalls(q, cands[..i + 1]) == ReviewCalls(q, cands[..i]) + [ReviewCall(At(q, cands[i]))]
  {
  }

  lemma Appended<T>(before: seq<T>, first: T, after: seq<T>, all: seq<T>)
    requires |all| > 0 && all[0] == first && after == before + [first] + all[1..]
    ensures after == before + all
  {
    assert all == [first] + all[1..];
  }

  /** Two requests that differ only in the order of their groups have the same key, decision and calls,
      whatever the API server makes of the order. */
  lemma GroupOrderIsCanonical(hash: string -> string, api: Api, p: nat, q: Request, groups: seq<string>,
      m: Settings, compiles: string -> bool)
    requires multiset(groups) == multiset(q.groups)
    ensures var r := q.(groups := groups);
      && Key(hash, r, m.keys) == Key(hash, q, m.keys)
      && Calls(api, p, Canonical(r), m.keys == []) == Calls(api, p, Canonical(q), m.keys == [])
      && Decide(api, p, Canonical(r), m.keys == [], compiles) == Decide(api, p, Canonical(q), m.keys == [], compiles)
      && Ordered(Canonical(r).groups) && multiset(Canonical(r).groups) == multiset(groups)
  {
    SortedIsCanonical(groups, q.groups);
    SortedIsOrderedPermutation(groups);
    KeyIgnoresGroupOrder(hash, q, groups, m.keys);
  }
}
