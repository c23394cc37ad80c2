/** internal/authorizer/cache.go: the key under which an answer is cached, and how much of the request
    can be recovered from it. SHA-256 is a parameter: a function to 64 lower-case hex digits. No such
    function is injective, so results that need it ask only that the inputs at hand do not collide. */
module CacheKeys {
  import opened Text
  import opened Matchers

  const GET := "get"
  const CREATE := "create"

  /** One call to the authorizer. */
  datatype Request = Request(
    token: string, user: string, groups: seq<string>,
    verb: string, resource: string, resourceName: string, apiGroup: string,
    namespaces: seq<string>, metadataOnly: bool)

  predicate KnownVerb(verb: string) {
    verb == CREATE || verb == GET
  }

  predicate Hex(c: char) {
    '0' <= c <= '9' || 'a' <= c <= 'f'
  }

  ghost predicate HexDigest(hash: string -> string) {
    forall s :: |hash(s)| == 64 && forall i :: 0 <= i < 64 ==> Hex(hash(s)[i])
  }

  predicate NoCollision(hash: string -> string, a: string, b: string) {
    hash(a) == hash(b) ==> a == b
  }

  function BoolText(b: bool): string {
    if b then "true" else "false"
  }

  function UserInput(q: Request): string {
    q.token + q.user + Concat(Sorted(q.groups))
  }

  function UserHash(hash: string -> string, q: Request): string {
    q.user + ":" + hash(UserInput(q))
  }

  function MatcherInput(keys: seq<string>): string {
    Concat(Sorted(keys))
  }

  function MatcherHash(hash: string -> string, keys: seq<string>): string {
    if keys == [] then "m:empty" else "m:" + hash(MatcherInput(keys))
  }

  function Key(hash: string -> string, q: Request, keys: seq<string>): string {
    Join([q.verb, BoolText(q.metadataOnly), q.apiGroup, q.resourceName, q.resource, Join(q.namespaces, ":"),
          UserHash(hash, q), MatcherHash(hash, keys)], ",")
  }

  // ---- The shape of a key ----

  function Tail(hash: string -> string, q: Request, keys: seq<string>): string {
    UserHash(hash, q) + [','] + MatcherHash(hash, keys)
  }

  lemma KeyUnfolds(hash: string -> string, q: Request, keys: seq<string>)
    ensures Key(hash, q, keys) ==
      q.verb + [','] + (BoolText(q.metadataOnly) + [','] + (q.apiGroup + [','] + (q.resourceName + [','] +
      (q.resource + [','] + (Join(q.namespaces, ":") + [','] + Tail(hash, q, keys))))))
  {
    var a, b := UserHash(hash, q), MatcherHash(hash, keys);
    var n := Join(q.namespaces, ":");
    assert Join([a, b], ",") == a + "," + b;
    assert Join([n, a, b], ",") == n + "," + Join([a, b], ",") by { assert [n, a, b][1..] == [a, b]; }
    assert Join([q.resource, n, a, b], ",") == q.resource + "," + Join([n, a, b], ",") by {
      assert [q.resource, n, a, b][1..] == [n, a, b];
    }
    var s4 := [q.resourceName, q.resource, n, a, b];
    assert Join(s4, ",") == q.resourceName + "," + Join(s4[1..], ",");
    var s5 := [q.apiGroup] + s4;
    assert Join(s5, ",") == q.apiGroup + "," + Join(s4, ",") by { assert s5[1..] == s4; }
    var s6 := [BoolText(q.metadataOnly)] + s5;
    assert Join(s6, ",") == BoolText(q.metadataOnly) + "," + Join(s5, ",") by { assert s6[1..] == s5; }
    var s7 := [q.verb] + s6;
    assert Join(s7, ",") == q.verb + "," + Join(s6, ",") by { assert s7[1..] == s6; }
    assert s7 == [q.verb, BoolText(q.metadataOnly), q.apiGroup, q.resourceName, q.resource, n, a, b];
  }

  /** The text of a key, field by field. */
  lemma KeyText(hash: string -> string, q: Request, keys: seq<string>)
    ensures Key(hash, q, keys) ==
      q.verb + "," + ((if q.metadataOnly then "true" else "false") + "," + (q.apiGroup + "," + (q.resourceName + "," +
      (q.resource + "," + (Join(q.namespaces, ":") + "," +
      (q.user + ":" + hash(q.token + q.user + Concat(Sorted(q.groups))) + "," +
      if keys == [] then "m:empty" else "m:" + hash(Concat(Sorted(keys)))))))))
  {
    KeyUnfolds(hash, q, keys);
  }

  /** For arbitrary strings: the first character gives the verb away, the last whether the matcher is
      empty, and a suffix of known length is the matcher's hash. */
  lemma KeyEnds(hash: string -> string, q: Request, keys: seq<string>)
    requires HexDigest(hash) && KnownVerb(q.verb)
    ensures var k := Key(hash, q, keys);
      && |k| > 66
      && (k[0] == 'g' <==> q.verb == GET)
      && (k[|k| - 1] == 'y' <==> keys == [])
      && k[|k| - |MatcherHash(hash, keys)|..] == MatcherHash(hash, keys)
  {
    KeyUnfolds(hash, q, keys);
    var k, m := Key(hash, q, keys), MatcherHash(hash, keys);
    assert |hash(UserInput(q))| == 64;
    assert |m| == if keys == [] then 7 else 66;
    assert k[0] == q.verb[0];
    assert Tail(hash, q, keys)[|UserHash(hash, q)| + 1..] == m;
    assert k[|k| - |m|..] == m;
    if keys != [] { assert Hex(hash(MatcherInput(keys))[63]); }
    assert k[|k| - 1] == m[|m| - 1];
  }

  /** Two requests with one key agree on the verb, the metadata flag and the matcher hash, whatever their
      strings hold. */
  lemma KeyRevealsVerbAndMatcher(hash: string -> string, q1: Request, keys1: seq<string>, q2: Request,
      keys2: seq<string>)
    requires HexDigest(hash) && KnownVerb(q1.verb) && KnownVerb(q2.verb)
    requires Key(hash, q1, keys1) == Key(hash, q2, keys2)
    ensures q1.verb == q2.verb && q1.metadataOnly == q2.metadataOnly
    ensures keys1 == [] <==> keys2 == []
    ensures MatcherHash(hash, keys1) == MatcherHash(hash, keys2)
  {
    KeyEnds(hash, q1, keys1);
    KeyEnds(hash, q2, keys2);
    assert |hash(MatcherInput(keys1))| == |hash(MatcherInput(keys2))| == 64;
    FlagShows(hash, q1, keys1);
    FlagShows(hash, q2, keys2);
  }

  lemma FlagShows(hash: string -> string, q: Request, keys: seq<string>)
    ensures var k, n := Key(hash, q, keys), |q.verb| + 1;
      n < |k| && (k[n] == 't' <==> q.metadataOnly)
  {
    KeyUnfolds(hash, q, keys);
  }

  // ---- What a key stands for ----

  /** The fields that the key writes with nothing to tell a separator from a character of a field. */
  function Middle(q: Request): string {
    Join([q.apiGroup, q.resourceName, q.resource, Join(q.namespaces, ":")], ",")
  }

  /** The two requests ask the API server the same thing: all is equal but the order of the groups. */
  predicate SameQuestion(q1: Request, q2: Request) {
    q1.(groups := Sorted(q1.groups)) == q2.(groups := Sorted(q2.groups))
  }

  /** The same but for what only the text in the middle of the key tells, and that text is the same. */
  predicate SameText(q1: Request, q2: Request) {
    && q1.verb == q2.verb && q1.metadataOnly == q2.metadataOnly
    && q1.token == q2.token && q1.user == q2.user && Sorted(q1.groups) == Sorted(q2.groups)
    && Middle(q1) == Middle(q2)
  }

  /** Tokens of one length that determine the groups up to order, and no collision of the user's digests. */
  predicate Comparable(hash: string -> string, q1: Request, q2: Request) {
    && |q1.token| == |q2.token|
    && (q1.token == q2.token ==> multiset(q1.groups) == multiset(q2.groups))
    && NoCollision(hash, UserInput(q1), UserInput(q2))
  }

  lemma KeyAroundMiddle(hash: string -> string, q: Request, keys: seq<string>)
    ensures Key(hash, q, keys) ==
      q.verb + [','] + (BoolText(q.metadataOnly) + [','] + (Middle(q) + [','] + Tail(hash, q, keys)))
  {
    KeyUnfolds(hash, q, keys);
    MiddleUnfolds(q);
    var n, t := Join(q.namespaces, ":"), Tail(hash, q, keys);
    assert Middle(q) + [','] + t ==
      q.apiGroup + [','] + (q.resourceName + [','] + (q.resource + [','] + (n + [','] + t)));
  }

  lemma MiddleUnfolds(q: Request)
    ensures Middle(q) ==
      q.apiGroup + [','] + (q.resourceName + [','] + (q.resource + [','] + Join(q.namespaces, ":")))
  {
    var n := Join(q.namespaces, ":");
    var s2, s3 := [q.resource, n], [q.resourceName, q.resource, n];
    assert Join(s2, ",") == q.resource + "," + n;
    assert Join(s3, ",") == q.resourceName + "," + Join(s2, ",") by { assert s3[1..] == s2; }
    assert [q.apiGroup, q.resourceName, q.resource, n][1..] == s3;
  }

  /** The user's digest is found at a fixed distance from the end, and it determines the user. */
  lemma TailReadsBack(hash: string -> string, m1: string, q1: Request, keys1: seq<string>,
      m2: string, q2: Request, keys2: seq<string>)
    requires HexDigest(hash) && Comparable(hash, q1, q2) && MatcherHash(hash, keys1) == MatcherHash(hash, keys2)
    requires m1 + [','] + Tail(hash, q1, keys1) == m2 + [','] + Tail(hash, q2, keys2)
    ensures q1.token == q2.token && q1.user == q2.user && Sorted(q1.groups) == Sorted(q2.groups) && m1 == m2
  {
    var h1, h2, m := hash(UserInput(q1)), hash(UserInput(q2)), MatcherHash(hash, keys1);
    var a1, a2 := m1 + [','] + q1.user + [':'], m2 + [','] + q2.user + [':'];
    assert |h1| == |h2| == 64;
    assert m1 + [','] + Tail(hash, q1, keys1) == a1 + h1 + ([','] + m);
    assert m2 + [','] + Tail(hash, q2, keys2) == a2 + h2 + ([','] + m);
    SameEnd(a1 + h1, a2 + h2, [','] + m, [','] + m);
    SameEnd(a1, a2, h1, h2);
    UserReadsBack(q1, q2);
    SameEnd(m1, m2, [','] + q1.user + [':'], [','] + q2.user + [':']) by {
      assert a1 == m1 + ([','] + q1.user + [':']) && a2 == m2 + ([','] + q2.user + [':']);
    }
  }

  lemma SameEnd(a: string, b: string, x: string, y: string)
    requires a + x == b + y && |x| == |y|
    ensures a == b && x == y
  {
    assert a == (a + x)[..|a|] && b == (b + y)[..|b|];
    assert x == (a + x)[|a|..] && y == (b + y)[|b|..];
  }

  lemma UserReadsBack(q1: Request, q2: Request)
    requires UserInput(q1) == UserInput(q2) && |q1.token| == |q2.token|
    requires q1.token == q2.token ==> multiset(q1.groups) == multiset(q2.groups)
    ensures q1.token == q2.token && q1.user == q2.user && Sorted(q1.groups) == Sorted(q2.groups)
  {
    assert UserInput(q1)[..|q1.token|] == q1.token && UserInput(q2)[..|q2.token|] == q2.token;
    SortedIsCanonical(q1.groups, q2.groups);
    var g := Concat(Sorted(q1.groups));
    assert UserInput(q1) == q1.token + q1.user + g && UserInput(q2) == q2.token + q2.user + g;
    SameEnd(q1.token + q1.user, q2.token + q2.user, g, g);
    assert (q1.token + q1.user)[|q1.token|..] == q1.user && (q2.token + q2.user)[|q2.token|..] == q2.user;
  }

  /** For arbitrary strings: a key stands for the verb, the flag, the token, the user, the groups up to
      order, the matcher hash and the text in the middle, and for nothing more. */
  lemma KeyDetermines(hash: string -> string, q1: Request, keys1: seq<string>, q2: Request, keys2: seq<string>)
    requires HexDigest(hash) && KnownVerb(q1.verb) && KnownVerb(q2.verb) && Comparable(hash, q1, q2)
    ensures Key(hash, q1, keys1) == Key(hash, q2, keys2) <==>
      SameText(q1, q2) && MatcherHash(hash, keys1) == MatcherHash(hash, keys2)
  {
    KeyAroundMiddle(hash, q1, keys1);
    KeyAroundMiddle(hash, q2, keys2);
    if Key(hash, q1, keys1) == Key(hash, q2, keys2) {
      KeyRevealsVerbAndMatcher(hash, q1, keys1, q2, keys2);
      var r1, r2 := Middle(q1) + [','] + Tail(hash, q1, keys1), Middle(q2) + [','] + Tail(hash, q2, keys2);
      FirstField(q1.verb, q2.verb, ',', BoolText(q1.metadataOnly) + [','] + r1,
          BoolText(q2.metadataOnly) + [','] + r2);
      FirstField(BoolText(q1.metadataOnly), BoolText(q2.metadataOnly), ',', r1, r2);
      TailReadsBack(hash, Middle(q1), q1, keys1, Middle(q2), q2, keys2);
    }
  }

  // ---- Key faithfulness ----

  /** No field before the user's holds a comma, and no namespace holds a colon. */
  predicate WellFormed(q: Request) {
    && Free(',', q.apiGroup) && Free(',', q.resourceName) && Free(',', q.resource)
    && AllFree(',', q.namespaces) && AllFree(':', q.namespaces)
  }

  /** The middle of the key tells all fields apart, save no namespace and one empty one. */
  lemma MiddleReadsBack(q1: Request, q2: Request)
    requires WellFormed(q1) && WellFormed(q2)
    ensures Middle(q1) == Middle(q2) <==>
      && q1.apiGroup == q2.apiGroup && q1.resourceName == q2.resourceName && q1.resource == q2.resource
      && (q1.namespaces == q2.namespaces || (Blank(q1.namespaces) && Blank(q2.namespaces)))
  {
    MiddleUnfolds(q1);
    MiddleUnfolds(q2);
    JoinExactly(q1.namespaces, q2.namespaces, ':');
    if Middle(q1) == Middle(q2) {
      var r1, r2 := q1.resource + [','] + Join(q1.namespaces, ":"), q2.resource + [','] + Join(q2.namespaces, ":");
      FirstField(q1.apiGroup, q2.apiGroup, ',', q1.resourceName + [','] + r1, q2.resourceName + [','] + r2);
      FirstField(q1.resourceName, q2.resourceName, ',', r1, r2);
      FirstField(q1.resource, q2.resource, ',', Join(q1.namespaces, ":"), Join(q2.namespaces, ":"));
    }
  }

  /** On well-formed requests a key stands for one question and one matcher hash, although the user may hold
      commas and colons and the hashed parts are written without separators; the one exception is that no
      namespace and one empty namespace are written alike. */
  lemma KeyFaithful(hash: string -> string, q1: Request, keys1: seq<string>, q2: Request, keys2: seq<string>)
    requires HexDigest(hash) && KnownVerb(q1.verb) && KnownVerb(q2.verb)
    requires WellFormed(q1) && WellFormed(q2) && Comparable(hash, q1, q2)
    ensures Key(hash, q1, keys1) == Key(hash, q2, keys2) <==>
      && MatcherHash(hash, keys1) == MatcherHash(hash, keys2)
      && SameQuestion(q1, q2.(namespaces := q1.namespaces))
      && (q1.namespaces == q2.namespaces || (Blank(q1.namespaces) && Blank(q2.namespaces)))
    ensures Key(hash, q1, keys1) == Key(hash, q2, keys2) && "" !in q1.namespaces + q2.namespaces ==>
      SameQuestion(q1, q2)
  {
    KeyDetermines(hash, q1, keys1, q2, keys2);
    MiddleReadsBack(q1, q2);
    assert "" in [""];
  }

  /** Requests that differ only in the order of the groups share a key. */
  lemma KeyIgnoresGroupOrder(hash: string -> string, q: Request, groups: seq<string>, keys: seq<string>)
    requires multiset(groups) == multiset(q.groups)
    ensures Key(hash, q.(groups := groups), keys) == Key(hash, q, keys)
  {
    SortedIsCanonical(groups, q.groups);
  }

  // ---- The matcher hash within one process ----

  lemma MatcherInputLength(keys: seq<string>)
    ensures |MatcherInput(keys)| == TotalLength(keys)
  {
    ConcatLength(Sorted(keys));
    SortedTotalLength(keys);
  }

  /** Matchers derived from one configured matcher hash alike exactly when their keys are equal, for any
      configured keys: the two labels that the migration removes differ in length. */
  lemma MatcherHashInjective(
    hash: string -> string, m: Settings, migrate: bool,
    tenant1: string, groups1: seq<string>, selectors1: Selectors,
    tenant2: string, groups2: seq<string>, selectors2: Selectors)
    requires HexDigest(hash)
    requires NoCollision(hash, MatcherInput(ForQuery(m, migrate, tenant1, groups1, selectors1).keys),
                               MatcherInput(ForQuery(m, migrate, tenant2, groups2, selectors2).keys))
    ensures var keys1 := ForQuery(m, migrate, tenant1, groups1, selectors1).keys;
      var keys2 := ForQuery(m, migrate, tenant2, groups2, selectors2).keys;
      MatcherHash(hash, keys1) == MatcherHash(hash, keys2) <==> keys1 == keys2
  {
    var keys1 := ForQuery(m, migrate, tenant1, groups1, selectors1).keys;
    var keys2 := ForQuery(m, migrate, tenant2, groups2, selectors2).keys;
    assert |hash(MatcherInput(keys1))| == |hash(MatcherInput(keys2))| == 64;
    if MatcherHash(hash, keys1) == MatcherHash(hash, keys2) && keys1 != [] {
      assert MatcherHash(hash, keys1)[2..] == hash(MatcherInput(keys1));
      assert MatcherHash(hash, keys2)[2..] == hash(MatcherInput(keys2));
      MatcherInputLength(keys1);
      MatcherInputLength(keys2);
      DeleteFirstLength(m.keys, KUBERNETES_NAME);
      DeleteFirstLength(m.keys, K8S_NAME);
      assert |KUBERNETES_NAME| == 25 && |K8S_NAME| == 18;
      if KUBERNETES_NAME !in m.keys { DeleteAbsent(m.keys, KUBERNETES_NAME); }
      if K8S_NAME !in m.keys { DeleteAbsent(m.keys, K8S_NAME); }
      assert DeleteFirst([], KUBERNETES_NAME) == [] && DeleteFirst([], K8S_NAME) == [];
    }
  }

  // ---- The length of a key ----

  lemma {:induction false} JoinLength(parts: seq<string>, sep: string)
    requires |sep| == 1
    ensures |Join(parts, sep)| == TotalLength(parts) + if parts == [] then 0 else |parts| - 1
  {
    if |parts| > 0 {
      assert parts == [parts[0]] + parts[1..] && [parts[0]][..0] == [];
      TotalLengthAppend([parts[0]], parts[1..]);
      JoinLength(parts[1..], sep);
    }
  }

  /** The length does not depend on the token or the groups, and stays within the 250 bytes that
      memcached allows when the free fields have at most 101 characters. */
  lemma KeyLength(hash: string -> string, q: Request, keys: seq<string>)
    requires HexDigest(hash) && KnownVerb(q.verb)
    ensures var variable := |q.apiGroup| + |q.resourceName| + |q.resource| + |q.user| + |Join(q.namespaces, ":")|;
      && |Join(q.namespaces, ":")| == TotalLength(q.namespaces) +
           (if q.namespaces == [] then 0 else |q.namespaces| - 1)
      && |Key(hash, q, keys)| == variable + |q.verb| +
           (if q.metadataOnly then 4 else 5) + (if keys == [] then 79 else 138)
      && (variable <= 101 ==> |Key(hash, q, keys)| <= 250)
  {
    KeyUnfolds(hash, q, keys);
    JoinLength(q.namespaces, ":");
    assert |hash(UserInput(q))| == |hash(MatcherInput(keys))| == 64;
    var n := Join(q.namespaces, ":");
    var t := Tail(hash, q, keys);
    assert |t| == |q.user| + 66 + |MatcherHash(hash, keys)|;
    assert |n + [','] + t| == |n| + 1 + |t|;
  }

  // ---- The operations ----

  /** A running hash: writes accumulate, the sum is the digest of all of them. */
  class Digest {
    const hash: string -> string
    var written: string

    constructor (hash: string -> string)
      ensures this.hash == hash && written == ""
    {
      this.hash := hash;
      this.written := "";
    }

    method Write(s: string)
      modifies this
      ensures written == old(written) + s
    {
      written := written + s;
    }

    method Sum() returns (hex: string)
      ensures hex == hash(written)
    {
      hex := hash(written);
    }
  }

  method WriteAll(d: Digest, parts: array<string>)
    modifies d
    ensures d.written == old(d.written) + Concat(parts[..])
  {
    for i := 0 to parts.Length
      invariant d.written == old(d.written) + Concat(parts[..i])
    {
      d.Write(parts[i]);
      assert parts[..i + 1][..i] == parts[..i];
    }
    assert parts[..parts.Length] == parts[..];
  }

  /** Sorts the caller's groups in place and hashes them after the token and the user. */
  method HashUserinfo(hash: string -> string, token: string, user: string, groups: array<string>) returns (h: string)
    modifies groups
    ensures groups[..] == Sorted(old(groups[..]))
    ensures h == user + ":" + hash(token + user + Concat(Sorted(old(groups[..]))))
  {
    var d := new Digest(hash);
    d.Write(token);
    d.Write(user);
    SortStrings(groups);
    WriteAll(d, groups);
    assert d.written == token + user + Concat(groups[..]);
    var hex := d.Sum();
    h := user + ":" + hex;
  }

  /** Hashes a sorted copy of the keys; the matcher keeps its order. */
  method HashMatcher(hash: string -> string, m: Matcher) returns (h: string)
    requires m.Valid()
    ensures h == MatcherHash(hash, m.View().keys)
  {
    if m.len == 0 {
      return "m:empty";
    }
    var copy := new string[m.len](i requires 0 <= i < m.len <= m.buf.Length reads m, m.buf => m.buf[i]);
    assert copy[..] == m.View().keys;
    SortStrings(copy);
    var d := new Digest(hash);
    WriteAll(d, copy);
    assert d.written == Concat(copy[..]);
    var hex := d.Sum();
    h := "m:" + hex;
  }

  method GenerateCacheKey(
    hash: string -> string, token: string, user: string, groups: array<string>,
    verb: string, resource: string, resourceName: string, apiGroup: string,
    namespaces: seq<string>, metadataOnly: bool, m: Matcher) returns (key: string)
    requires m.Valid() && groups != m.buf
    modifies groups
    ensures groups[..] == Sorted(old(groups[..]))
    ensures key == Key(hash,
      Request(token, user, old(groups[..]), verb, resource, resourceName, apiGroup, namespaces, metadataOnly),
      m.View().keys)
  {
    var userHash := HashUserinfo(hash, token, user, groups);
    var matcherHash := HashMatcher(hash, m);
    key := Join([verb, BoolText(metadataOnly), apiGroup, resourceName, resource, Join(namespaces, ":"),
                 userHash, matcherHash], ",");
  }
}
