/** internal/handler/handler.go: what happens to a decoded request before and after the authorizer. Reading
    and writing HTTP and JSON text are not part of this model. */
module Handlers {
  import opened Text
  import opened Responses
  import opened Matchers
  import opened CacheKeys
  import opened TtlCache
  import opened Decisions
  import opened Authorizers

  datatype Input = Input(
    permission: string, resource: string, subject: string, tenant: string,
    selectors: Selectors, wildcardSelectors: bool, metadataOnly: bool)

  datatype Reaction = Reply(body: Json) | Reject(status: nat)

  /** What the handler closes over, besides the shared matcher and cache. `connect` gives the API server
      for a token, or fails. */
  datatype Setup = Setup(
    mappings: map<string, string>, debugToken: string, migrate: bool,
    hash: string -> string, compiles: string -> bool, connect: string -> Option<Api>)

  function Status(e: Error): nat {
    match e
    case UnexpectedVerb => 400
    case CacheGet => 500
    case ClusterReview => 401
    case ListNamespaces => 401
    case NamespaceReview => 401
    case BadPattern => 500
  }

  function TokenFor(setup: Setup, header: string): string {
    if header == "" then setup.debugToken else header
  }

  predicate BothSelected(selectors: Selectors) {
    HasValues(selectors, KUBERNETES_NAME) && HasValues(selectors, K8S_NAME)
  }

  /** The request says what it wants and comes with a token, in its header or from the debug flag. */
  predicate WellAsked(setup: Setup, input: Input, header: string) {
    input.resource != "" && input.permission in {"read", "write"} && TokenFor(setup, header) != ""
  }

  /** Everything that the authorization of the request needs is there. */
  predicate Admissible(setup: Setup, input: Input, header: string) {
    && input.tenant in setup.mappings && WellAsked(setup, input, header)
    && setup.connect(TokenFor(setup, header)).Some?
  }

  /** Wildcards are refused to everyone who needs a matcher, and a query on both namespace labels to
      everyone while the migration is on. */
  predicate Refused(setup: Setup, input: Input, derived: Settings) {
    (input.wildcardSelectors && derived.keys != []) || (setup.migrate && BothSelected(input.selectors))
  }

  /** Stated in terms of the configured matcher: a wildcard query is refused to whoever is not exempt from a
      matcher with keys, and a query with values for both namespace labels while the migration is on. */
  lemma RefusedMeaning(setup: Setup, input: Input, m: Settings, groups: seq<string>)
    ensures Refused(setup, input, Matchers.Derived(m, input.tenant, groups)) <==>
      || (input.wildcardSelectors && m.keys != [] && !Exempt(m, input.tenant, groups))
      || (setup.migrate
          && "kubernetes_namespace_name" in input.selectors && |input.selectors["kubernetes_namespace_name"]| > 0
          && "k8s_namespace_name" in input.selectors && |input.selectors["k8s_namespace_name"]| > 0)
  {
  }

  function SelectedIn(selectors: Selectors, names: set<string>): set<string> {
    set k, v | k in names && k in selectors && v in selectors[k] :: v
  }

  /** All values that any selector mentions. */
  function Selected(selectors: Selectors): set<string> {
    SelectedIn(selectors, selectors.Keys)
  }

  method CollectNamespaces(selectors: Selectors) returns (namespaces: set<string>)
    ensures namespaces == Selected(selectors)
    ensures forall v :: v in namespaces <==> exists k :: k in selectors && v in selectors[k]
  {
    namespaces := {};
    var pending := selectors.Keys;
    while pending != {}
      invariant pending <= selectors.Keys
      invariant namespaces == SelectedIn(selectors, selectors.Keys - pending)
      decreases pending
    {
      var name :| name in pending;
      var values := selectors[name];
      for i := 0 to |values|
        invariant namespaces == SelectedIn(selectors, selectors.Keys - pending) + set v | v in values[..i]
      {
        namespaces := namespaces + {values[i]};
      }
      assert values[..|values|] == values;
      ghost var done := selectors.Keys - pending;
      pending := pending - {name};
      assert selectors.Keys - pending == done + {name};
    }
    assert selectors.Keys - pending == selectors.Keys;
  }

  /** A list of a set's elements, each once, in whatever order they come. */
  method UnsortedList(s: set<string>) returns (list: seq<string>)
    ensures Distinct(list) && (set x | x in list) == s
  {
    list := [];
    var rest := s;
    while rest != {}
      invariant rest <= s && Distinct(list) && (set x | x in list) == s - rest
      decreases rest
    {
      var x :| x in rest;
      assert x !in (set y | y in list);
      assert (set y | y in list + [x]) == (set y | y in list) + {x};
      list := list + [x];
      rest := rest - {x};
    }
  }

  /** A request is let through if and only if all is there that its authorization needs. Whatever the order
      of the checks, what is wrong with the request itself is the client's error, and an unknown tenant or
      an API server out of reach is the service's. */
  method CheckForm(setup: Setup, input: Input, header: string)
    returns (malformed: Option<nat>, verb: string, token: string)
    ensures malformed.None? <==> Admissible(setup, input, header)
    ensures malformed == Some(400) <==> input.tenant in setup.mappings && !WellAsked(setup, input, header)
    ensures malformed.Some? ==> malformed.value in {400, 500}
    ensures malformed.None? ==>
      && input.permission in {"read", "write"} && verb == (if input.permission == "read" then "get" else "create")
      && token == (if header != "" then header else setup.debugToken)
      && token != "" && setup.connect(token).Some?
  {
    verb, token := "", header;
    if input.tenant !in setup.mappings {
      return Some(500), verb, token;
    }
    if input.resource == "" {
      return Some(400), verb, token;
    }
    if input.permission == "read" {
      verb := GET;
    } else if input.permission == "write" {
      verb := CREATE;
    } else {
      return Some(400), verb, token;
    }
    if token == "" {
      if setup.debugToken == "" {
        return Some(400), verb, token;
      }
      token := setup.debugToken;
    }
    malformed := if setup.connect(token).None? then Some(500) else None;
  }

  /** The request's own matcher. Nothing that existed before is written: the migration works on a fresh
      object, or on the shared one only when that has no keys and stays as it is. */
  method MatcherForRequest(setup: Setup, shared: Matcher, input: Input, groups: array<string>)
    returns (refused: bool, m: Matcher)
    requires shared.Valid()
    ensures m.Valid() && (m == shared || (fresh(m) && fresh(m.buf)))
    ensures refused == Refused(setup, input, Matchers.Derived(shared.View(), input.tenant, groups[..]))
    ensures !refused ==>
      m.View() == ForQuery(shared.View(), setup.migrate, input.tenant, groups[..], input.selectors)
  {
    m := shared.ForRequest(input.tenant, groups);
    if input.wildcardSelectors && !m.IsEmpty() {
      return true, m;
    }
    if setup.migrate {
      if BothSelected(input.selectors) {
        return true, m;
      }
      m.ViaQToOTELMigration(input.selectors);
    }
    refused := false;
  }

  /** The status of a request that is turned away: 500 without a mapping for its tenant or without the API
      server, 400 for anything else. */
  function StatusFor(setup: Setup, input: Input, header: string): nat {
    if input.tenant in setup.mappings && (Admissible(setup, input, header) || !WellAsked(setup, input, header))
    then 400
    else 500
  }

  /** All checks before a request is authorized, and the matcher it gets when it passes them. */
  method Screen(setup: Setup, shared: Matcher, input: Input, groups: array<string>, header: string)
    returns (rejected: Option<nat>, verb: string, token: string, m: Matcher)
    requires shared.Valid()
    ensures rejected.Some? <==>
      || !Admissible(setup, input, header)
      || Refused(setup, input, Matchers.Derived(shared.View(), input.tenant, groups[..]))
    ensures rejected.Some? ==> rejected.value == StatusFor(setup, input, header)
    ensures rejected.None? ==>
      && verb == (if input.permission == "read" then "get" else "create")
      && token == (if header != "" then header else setup.debugToken) && setup.connect(token).Some?
      && m.Valid() && (m == shared || (fresh(m) && fresh(m.buf)))
      && m.View() == ForQuery(shared.View(), setup.migrate, input.tenant, groups[..], input.selectors)
  {
    rejected, verb, token := CheckForm(setup, input, header);
    m := shared;
    if rejected.None? {
      var refused;
      refused, m := MatcherForRequest(setup, shared, input, groups);
      rejected := if refused then Some(400) else None;
    }
  }

  /** Authorizes a request with a client and an authorizer of its own. */
  method AuthorizeFor(setup: Setup, api: Api, cacher: Cacher, m: Matcher, q: Request, groups: array<string>, now: int)
    returns (res: Result<DataResponse>, ghost calls: seq<Call>)
    requires m.Valid() && cacher.Valid() && q.groups == groups[..] && groups != m.buf && KnownVerb(q.verb)
    modifies cacher, cacher.store, groups
    ensures cacher.Valid() && groups[..] == Sorted(q.groups)
    ensures
      var k := old(cacher.operations);
      Protocol(setup.hash, setup.compiles, m.View(), api, 0, q, now,
               cacher.store.ttl, cacher.fails(k), cacher.fails(k + 1),
               old(cacher.store.items), cacher.store.items, calls, res)
  {
    var client := new Client(api);
    ghost var made := client.calls;
    var authorizer := new Authorizer(client, cacher, m, setup.hash, setup.compiles);
    res := authorizer.Authorize(q, groups, now);
    calls := client.calls;
    assert client.calls[|made|..] == client.calls;
  }

  /** A read that needs a matcher is not given the bare grant, and anything but a read gets a bare verdict. */
  predicate SoundReply(input: Input, m: Settings, body: Json) {
    if input.permission == "read" then m.keys != [] ==> body != JObject(map["result" := JBool(true)])
    else body in {JObject(map["result" := JBool(true)]), JObject(map["result" := JBool(false)])}
  }

  /** What serving an admitted request comes to, from what was there before and after. */
  ghost predicate Served(
    setup: Setup, m: Settings, input: Input, verb: string, token: string, groups: seq<string>, now: int,
    ttl: Ttl, lookupFails: bool, storeFails: bool, before: map<string, Item>, after: map<string, Item>,
    order: seq<string>, calls: seq<Call>, res: Result<DataResponse>, reaction: Reaction)
    requires input.tenant in setup.mappings && setup.connect(token).Some?
  {
    var q := Request(token, input.subject, groups, verb, input.tenant, input.resource,
                     setup.mappings[input.tenant], order, input.metadataOnly);
    && Distinct(order) && (set x | x in order) == Selected(input.selectors)
    && Protocol(setup.hash, setup.compiles, ForQuery(m, setup.migrate, input.tenant, groups, input.selectors),
                setup.connect(token).value, 0, q, now, ttl, lookupFails, storeFails, before, after, calls, res)
    && reaction == match res case Ok(r) => Reply(ToJson(r)) case Err(e) => Reject(Status(e))
  }

  /** Serves a request that passed the checks, with its own matcher. */
  method ServeAdmitted(setup: Setup, m: Matcher, ghost config: Settings, cacher: Cacher, input: Input,
      verb: string, token: string, groups: array<string>, now: int)
    returns (reaction: Reaction, ghost order: seq<string>, ghost calls: seq<Call>, ghost res: Result<DataResponse>)
    requires m.Valid() && cacher.Valid() && groups != m.buf
    requires input.tenant in setup.mappings && setup.connect(token).Some? && KnownVerb(verb)
    requires m.View() == ForQuery(config, setup.migrate, input.tenant, groups[..], input.selectors)
    modifies cacher, cacher.store, groups
    ensures cacher.Valid() && groups[..] == Sorted(old(groups[..]))
    ensures
      var k := old(cacher.operations);
      Served(setup, config, input, verb, token, old(groups[..]), now,
             cacher.store.ttl, cacher.fails(k), cacher.fails(k + 1),
             old(cacher.store.items), cacher.store.items, order, calls, res, reaction)
    ensures forall k :: 0 <= k < |calls| ==>
      Concerns(calls[k], input.subject, Sorted(old(groups[..])), verb, input.tenant, input.resource,
               setup.mappings[input.tenant])
    ensures HexDigest(setup.hash) && SoundItems(old(cacher.store.items)) ==>
      && SoundItems(cacher.store.items)
      && (verb == (if input.permission == "read" then "get" else "create") && reaction.Reply? ==>
           SoundReply(input, m.View(), reaction.body))
  {
    ghost var before, items, k := groups[..], cacher.store.items, cacher.operations;
    var namespaces := CollectNamespaces(input.selectors);
    var listed := UnsortedList(namespaces);
    var q := Request(token, input.subject, groups[..], verb, input.tenant, input.resource,
                     setup.mappings[input.tenant], listed, input.metadataOnly);
    var answer;
    answer, calls := AuthorizeFor(setup, setup.connect(token).value, cacher, m, q, groups, now);
    order, res := listed, answer;
    reaction := match answer case Ok(r) => Reply(ToJson(r)) case Err(e) => Reject(Status(e));
    ServedMeaning(setup, config, input, verb, token, before, now, cacher.store.ttl, cacher.fails(k),
                  cacher.fails(k + 1), items, cacher.store.items, order, calls, res, reaction);
  }

  /** What a served request is asked about and answered: every review is of the access in the input, with the
      verb of its permission; on a sound cache, and so from an empty one on, a read that needs a matcher
      never gets the bare grant and a write gets nothing but a bare verdict. */
  lemma ServedMeaning(
    setup: Setup, m: Settings, input: Input, verb: string, token: string, groups: seq<string>, now: int,
    ttl: Ttl, lookupFails: bool, storeFails: bool, before: map<string, Item>, after: map<string, Item>,
    order: seq<string>, calls: seq<Call>, res: Result<DataResponse>, reaction: Reaction)
    requires input.tenant in setup.mappings && setup.connect(token).Some?
    requires Served(setup, m, input, verb, token, groups, now, ttl, lookupFails, storeFails, before, after, order,
                    calls, res, reaction)
    ensures forall k :: 0 <= k < |calls| ==>
      Concerns(calls[k], input.subject, Sorted(groups), verb, input.tenant, input.resource,
               setup.mappings[input.tenant])
    ensures HexDigest(setup.hash) && SoundItems(before) ==>
      && SoundItems(after)
      && (verb == "get" && reaction.Reply?
          && ForQuery(m, setup.migrate, input.tenant, groups, input.selectors).keys != [] ==>
            reaction.body != JObject(map["result" := JBool(true)]))
      && (verb == "create" && reaction.Reply? ==> BareVerdict(reaction.body))
  {
    var q := Request(token, input.subject, groups, verb, input.tenant, input.resource,
                     setup.mappings[input.tenant], order, input.metadataOnly);
    var own, api := ForQuery(m, setup.migrate, input.tenant, groups, input.selectors), setup.connect(token).value;
    ProtocolMeaning(setup.hash, setup.compiles, own, api, 0, q, now, ttl, lookupFails, storeFails, before, after,
                    calls, res);
    if HexDigest(setup.hash) && SoundItems(before) {
      ProtocolIsSound(setup.hash, setup.compiles, own, api, 0, q, now, ttl, lookupFails, storeFails, before, after,
                      calls, res);
    }
  }

  /** The reaction to what the authorizer gives for a known verb: 401 exactly when its last call to the API
      server failed, 500 exactly when the cache could not be read or the names make no pattern. */
  lemma StatusMeaning(api: Api, calls: seq<Call>, lookupFails: bool, res: Result<DataResponse>, reaction: Reaction)
    requires reaction == match res case Ok(r) => Reply(ToJson(r)) case Err(e) => Reject(Status(e))
    requires FailsAsItShould(api, 0, calls, lookupFails, res)
    ensures reaction == Reject(401) <==> calls != [] && CallFails(api, |calls| - 1, calls[|calls| - 1])
    ensures reaction == Reject(500) <==> lookupFails || res == Err(BadPattern)
    ensures reaction.Reject? ==> reaction.status in {401, 500}
  {
  }

  /** Why a served request is turned away: with 401 exactly when its last call to the API server failed, and
      with 500 exactly when the cache could not be read or the names make no pattern. */
  lemma RejectionMeaning(
    setup: Setup, m: Settings, input: Input, verb: string, token: string, groups: seq<string>, now: int,
    ttl: Ttl, lookupFails: bool, storeFails: bool, before: map<string, Item>, after: map<string, Item>,
    order: seq<string>, calls: seq<Call>, res: Result<DataResponse>, reaction: Reaction)
    requires input.tenant in setup.mappings && setup.connect(token).Some? && verb in {"get", "create"}
    requires Served(setup, m, input, verb, token, groups, now, ttl, lookupFails, storeFails, before, after, order,
                    calls, res, reaction)
    ensures reaction == Reject(401) <==>
      calls != [] && CallFails(setup.connect(token).value, |calls| - 1, calls[|calls| - 1])
    ensures reaction == Reject(500) <==> lookupFails || res == Err(BadPattern)
    ensures reaction.Reject? ==> reaction.status in {401, 500}
  {
    var q := Request(token, input.subject, groups, verb, input.tenant, input.resource,
                     setup.mappings[input.tenant], order, input.metadataOnly);
    var own, api := ForQuery(m, setup.migrate, input.tenant, groups, input.selectors), setup.connect(token).value;
    ProtocolFailures(setup.hash, setup.compiles, own, api, 0, q, now, ttl, lookupFails, storeFails, before, after,
                     calls, res);
    StatusMeaning(api, calls, lookupFails, res, reaction);
  }

  /** When a served read lists the namespaces, and that it reviews every selected one before it succeeds
      without cluster-wide permission. */
  lemma ServedCallsExactly(
    setup: Setup, m: Settings, input: Input, token: string, groups: seq<string>, now: int,
    ttl: Ttl, lookupFails: bool, storeFails: bool, before: map<string, Item>, after: map<string, Item>,
    order: seq<string>, calls: seq<Call>, res: Result<DataResponse>, reaction: Reaction)
    requires input.tenant in setup.mappings && setup.connect(token).Some? && calls != []
    requires Served(setup, m, input, "get", token, groups, now, ttl, lookupFails, storeFails, before, after, order,
                    calls, res, reaction)
    ensures var api := setup.connect(token).value;
      var needsMatcher := ForQuery(m, setup.migrate, input.tenant, groups, input.selectors).keys != [];
      var first := Review(input.subject, Sorted(groups), "get", input.tenant, input.resource,
                          setup.mappings[input.tenant], "");
      && calls[0] == ReviewCall(first)
      && (ListCall in calls <==>
           || (api.review(0, first) == Got(true) && needsMatcher)
           || (api.review(0, first) == Got(false) && input.metadataOnly && Selected(input.selectors) == {}))
      && (reaction.Reply? && api.review(0, first) == Got(false) ==>
           forall ns :: ns in Selected(input.selectors) ==> ReviewCall(first.(namespace := ns)) in calls)
  {
    var q := Canonical(Request(token, input.subject, groups, "get", input.tenant, input.resource,
                               setup.mappings[input.tenant], order, input.metadataOnly));
    var bare := ForQuery(m, setup.migrate, input.tenant, groups, input.selectors).keys == [];
    var api := setup.connect(token).value;
    assert order == [] <==> Selected(input.selectors) == {} by {
      if order != [] { assert order[0] in Selected(input.selectors); }
    }
    ListsExactly(api, 0, q, bare);
    if reaction.Reply? && api.review(0, At(q, "")) == Got(false) {
      forall ns | ns in Selected(input.selectors) ensures ReviewCall(At(q, ns)) in calls {
        var i :| 0 <= i < |order| && order[i] == ns;
        ReviewIsCalled(api, 0, q, bare, setup.compiles, i);
      }
    }
  }

  /** A served request with selected namespaces makes no call, or the cluster-wide review and then calls of
      which no two are equal: no selected namespace is reviewed twice, whatever the selectors repeat, and
      none is reviewed that was not selected. */
  lemma SelectedReviewedOnce(
    setup: Setup, m: Settings, input: Input, verb: string, token: string, groups: seq<string>, now: int,
    ttl: Ttl, lookupFails: bool, storeFails: bool, before: map<string, Item>, after: map<string, Item>,
    order: seq<string>, calls: seq<Call>, res: Result<DataResponse>, reaction: Reaction)
    requires input.tenant in setup.mappings && setup.connect(token).Some?
    requires Served(setup, m, input, verb, token, groups, now, ttl, lookupFails, storeFails, before, after, order,
                    calls, res, reaction)
    requires Selected(input.selectors) != {} && calls != []
    ensures calls[0].ReviewCall? && calls[0].review.namespace == ""
    ensures Distinct(calls[1..])
    ensures forall k :: 1 <= k < |calls| && calls[k].ReviewCall? ==>
      calls[k].review.namespace in Selected(input.selectors)
  {
    var q := Request(token, input.subject, groups, verb, input.tenant, input.resource,
                     setup.mappings[input.tenant], order, input.metadataOnly);
    var bare := ForQuery(m, setup.migrate, input.tenant, groups, input.selectors).keys == [];
    var api := setup.connect(token).value;
    assert order != [] by { assert (set x | x in order) != {}; }
    NoNamespaceReviewedTwice(api, 0, Canonical(q), bare);
    OnlyRequestedReviewed(api, 0, Canonical(q), bare);
  }

  /** Serves one request. The shared matcher is only read; `order` is the listing of the selected
      namespaces, `calls` are the calls made to the API server and `res` is what the authorizer gave. */
  method Serve(
    setup: Setup, shared: Matcher, cacher: Cacher, input: Input, groups: array<string>, header: string, now: int)
    returns (reaction: Reaction, ghost order: seq<string>, ghost calls: seq<Call>, ghost res: Result<DataResponse>)
    requires shared.Valid() && cacher.Valid() && groups != shared.buf
    modifies cacher, cacher.store, groups
    ensures cacher.Valid() && shared.Valid() && shared.View() == old(shared.View())
    ensures
      var config := old(shared.View());
      var before := old(groups[..]);
      var admissible := Admissible(setup, input, header);
      if !admissible || Refused(setup, input, Matchers.Derived(config, input.tenant, before)) then
        && reaction == Reject(StatusFor(setup, input, header))
        && cacher.store.items == old(cacher.store.items) && groups[..] == before
      else
        var k := old(cacher.operations);
        var verb := if input.permission == "read" then "get" else "create";
        var token := if header != "" then header else setup.debugToken;
        && groups[..] == Sorted(before)
        && Served(setup, config, input, verb, token, before, now,
                  cacher.store.ttl, cacher.fails(k), cacher.fails(k + 1),
                  old(cacher.store.items), cacher.store.items, order, calls, res, reaction)
        && forall k :: 0 <= k < |calls| ==>
             Concerns(calls[k], input.subject, Sorted(before), verb, input.tenant, input.resource,
                      setup.mappings[input.tenant])
    ensures HexDigest(setup.hash) && SoundItems(old(cacher.store.items)) ==>
      && SoundItems(cacher.store.items)
      && (reaction.Reply? ==>
           SoundReply(input, ForQuery(old(shared.View()), setup.migrate, input.tenant, old(groups[..]),
                                      input.selectors), reaction.body))
  {
    order, calls, res := [], [], Err(UnexpectedVerb);
    var rejected, verb, token, matcher := Screen(setup, shared, input, groups, header);
    if rejected.Some? {
      reaction := Reject(rejected.value);
      return;
    }
    reaction, order, calls, res :=
      ServeAdmitted(setup, matcher, shared.View(), cacher, input, verb, token, groups, now);
  }
}
