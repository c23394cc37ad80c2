/** What the service answers, as the values it builds, and what an answer becomes when it is written
    to the cache as JSON and read back. */
module Responses {
  import opened Text
  import opened Regexps

  datatype Option<+T> = None | Some(value: T)

  datatype Error = UnexpectedVerb | CacheGet | ClusterReview | ListNamespaces | NamespaceReview | BadPattern

  datatype Result<+T> = Ok(value: T) | Err(error: Error)

  datatype LabelMatcher = LabelMatcher(name: string, value: string)

  datatype AuthzData = AuthzData(matchers: seq<LabelMatcher>, op: string)

  /** A string is either plain characters or the JSON text of a matcher document. */
  datatype Chars = Plain(text: string) | Rendered(data: AuthzData)

  /** A dynamically typed value. The service builds string maps; reading JSON gives general maps. */
  datatype Value =
    | Bool(b: bool)
    | Str(s: Chars)
    | StringMap(strings: map<string, Chars>)
    | AnyMap(fields: map<string, Value>)

  datatype DataResponse = DataResponse(result: Option<Value>)

  datatype Json = JBool(b: bool) | JString(s: Chars) | JObject(members: map<string, Json>)

  function Encode(v: Value): Json {
    match v
    case Bool(b) => JBool(b)
    case Str(s) => JString(s)
    case StringMap(m) => JObject(map k | k in m :: JString(m[k]))
    case AnyMap(m) => JObject(map k | k in m :: Encode(m[k]))
  }

  function Decode(j: Json): Value {
    match j
    case JBool(b) => Bool(b)
    case JString(s) => Str(s)
    case JObject(m) => AnyMap(map k | k in m :: Decode(m[k]))
  }

  /** Marshalling: a missing result leaves the member out. */
  function ToJson(r: DataResponse): Json {
    JObject(if r.result.Some? then map["result" := Encode(r.result.value)] else map[])
  }

  /** Unmarshalling fails on anything but an object and ignores unknown members. */
  function FromJson(j: Json): Option<DataResponse> {
    if !j.JObject? then None
    else if "result" in j.members then Some(DataResponse(Some(Decode(j.members["result"]))))
    else Some(DataResponse(None))
  }

  /** No string map anywhere: the values that reading JSON can produce. */
  predicate Generic(v: Value) {
    match v
    case Bool(_) => true
    case Str(_) => true
    case StringMap(_) => false
    case AnyMap(m) => forall k :: k in m ==> Generic(m[k])
  }

  lemma {:induction false} EncodeStable(v: Value)
    ensures Encode(Decode(Encode(v))) == Encode(v)
    ensures Decode(Encode(v)) == v <==> Generic(v)
  {
    match v
    case Bool(_) =>
    case Str(_) =>
    case StringMap(m) =>
      var back := Decode(Encode(v)).fields;
      forall k | k in m ensures Encode(back[k]) == JString(m[k]) {
        assert back[k] == Decode(Encode(v).members[k]) == Str(m[k]);
      }
      assert Encode(v) == JObject(map k | k in back :: Encode(back[k]));
    case AnyMap(m) =>
      var back := Decode(Encode(v)).fields;
      forall k | k in m
        ensures Encode(back[k]) == Encode(m[k])
        ensures back[k] == m[k] <==> Generic(m[k])
      {
        EncodeStable(m[k]);
      }
      assert Encode(v) == JObject(map k | k in back :: Encode(back[k]));
      if Decode(Encode(v)) == v { assert back == m; }
      if Generic(v) { assert back == m; }
  }

  /** Whatever is stored can be read back and encodes to the same body again; the value itself comes
      back unchanged exactly when it holds no string map. */
  lemma StoredBodyStable(r: DataResponse)
    ensures FromJson(ToJson(r)).Some?
    ensures ToJson(FromJson(ToJson(r)).value) == ToJson(r)
    ensures FromJson(ToJson(r)).value == r <==> r.result.Some? ==> Generic(r.result.value)
  {
    if r.result.Some? { EncodeStable(r.result.value); }
  }

  /** What an evaluation grants: a bare verdict, or access limited to the named namespaces. */
  datatype Grant = Flag(allowed: bool) | Scope(names: seq<string>)

  function Minimal(allowed: bool): DataResponse {
    DataResponse(Some(Bool(allowed)))
  }

  function MatchersFor(keys: seq<string>, names: seq<string>): seq<LabelMatcher> {
    seq(|keys|, i requires 0 <= i < |keys| => LabelMatcher(keys[i], Join(names, "|")))
  }

  function Respond(g: Grant, keys: seq<string>, op: string): DataResponse {
    match g
    case Flag(b) => Minimal(b)
    case Scope(names) =>
      DataResponse(Some(StringMap(map[
        "allowed" := Plain(if names == [] then "false" else "true"),
        "data" := Rendered(AuthzData(MatchersFor(keys, names), op))])))
  }

  function Body(g: Grant, keys: seq<string>, op: string): Json {
    ToJson(Respond(g, keys, op))
  }

  /** The body is the boolean `true` without any matcher. */
  predicate BareGrant(body: Json) {
    body == JObject(map["result" := JBool(true)])
  }

  /** The body carries these matchers and says that they allow something. */
  predicate ScopedGrant(body: Json, matchers: seq<LabelMatcher>, op: string) {
    body == JObject(map["result" := JObject(map[
      "allowed" := JString(Plain("true")), "data" := JString(Rendered(AuthzData(matchers, op)))])])
  }

  /** Whether the reader of a body takes it as permission. */
  predicate Positive(body: Json) {
    && body.JObject? && "result" in body.members
    && (var r := body.members["result"];
        || r == JBool(true)
        || (r.JObject? && "allowed" in r.members && r.members["allowed"] == JString(Plain("true"))))
  }

  function Verdict(g: Grant): bool {
    match g
    case Flag(b) => b
    case Scope(names) => names != []
  }

  function Names(g: Grant): seq<string> {
    match g
    case Flag(_) => []
    case Scope(names) => names
  }

  /** The three kinds of body are told apart by the grant alone. */
  lemma BodyMeaning(g: Grant, keys: seq<string>, op: string)
    ensures Positive(Body(g, keys, op)) <==> Verdict(g)
    ensures BareGrant(Body(g, keys, op)) <==> g == Flag(true)
    ensures g.Scope? && g.names != [] ==> ScopedGrant(Body(g, keys, op), MatchersFor(keys, g.names), op)
    ensures g.Flag? ==> Body(g, keys, op) == JObject(map["result" := JBool(g.allowed)])
    ensures g.Scope? ==> Body(g, keys, op) == JObject(map["result" := JObject(map[
      "allowed" := JString(Plain(if g.names == [] then "false" else "true")),
      "data" := JString(Rendered(AuthzData(MatchersFor(keys, g.names), op)))])])
  {
    match g
    case Flag(b) =>
      assert Body(g, keys, op).members["result"] == JBool(b);
    case Scope(names) =>
      var body := Body(g, keys, op);
      var inner := body.members["result"];
      assert inner.members["allowed"] == JString(Plain(if names == [] then "false" else "true"));
      assert inner == JObject(map[
        "allowed" := JString(Plain(if names == [] then "false" else "true")),
        "data" := JString(Rendered(AuthzData(MatchersFor(keys, names), op)))]);
      assert inner.JObject?;
  }

  /** For plain names the matchers of a positive scoped answer accept exactly the granted namespaces. */
  lemma MatchersAcceptExactly(keys: seq<string>, names: seq<string>, i: nat, ns: string)
    requires i < |keys| && names != [] && PlainNames(names)
    ensures MatchersFor(keys, names)[i].name == keys[i]
    ensures FullMatch(Parse(MatchersFor(keys, names)[i].value), ns) <==> ns in names
    ensures Split(MatchersFor(keys, names)[i].value, '|') == names
  {
    AlternationMeaning(names);
  }
}
