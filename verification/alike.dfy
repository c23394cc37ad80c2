/** Which requests ask alike: exactly those that no policy answers differently, decided from the requests
    themselves. */
module Alike {
  import opened Text
  import opened Responses
  import opened CacheKeys
  import opened Decisions
  import opened Policies

  // ---- Equal answers ----

  /** Two grants that no reader of a body can tell apart. */
  predicate SameShow(a: Grant, b: Grant) {
    a.Flag? == b.Flag? && Verdict(a) == Verdict(b) && Join(Names(a), "|") == Join(Names(b), "|")
  }

  /** Two failures of one kind, or two grants that look alike. */
  predicate SameResult(a: Result<Grant>, b: Result<Grant>) {
    if a.Ok? && b.Ok? then SameShow(a.value, b.value) else a == b
  }

  lemma SameShowSameBody(a: Grant, b: Grant, keys: seq<string>, op: string)
    requires keys != [] || (a.Flag? && b.Flag?)
    ensures SameShow(a, b) <==> Body(a, keys, op) == Body(b, keys, op)
  {
    BodyMeaning(a, keys, op);
    BodyMeaning(b, keys, op);
    if a.Scope? && b.Scope? {
      if SameShow(a, b) {
        assert MatchersFor(keys, a.names) == MatchersFor(keys, b.names);
      } else if Body(a, keys, op) == Body(b, keys, op) {
        ScopeShows(a, b, keys, op);
      }
    } else if a.Scope? != b.Scope? {
      assert Body(a, keys, op).members["result"] != Body(b, keys, op).members["result"];
    }
  }

  lemma ScopeShows(a: Grant, b: Grant, keys: seq<string>, op: string)
    requires keys != [] && a.Scope? && b.Scope? && Body(a, keys, op) == Body(b, keys, op)
    ensures SameShow(a, b)
  {
    BodyMeaning(a, keys, op);
    BodyMeaning(b, keys, op);
    var r1, r2 := Body(a, keys, op).members["result"], Body(b, keys, op).members["result"];
    assert r1.members["data"] == JString(Rendered(AuthzData(MatchersFor(keys, a.names), op)));
    assert r2.members["data"] == JString(Rendered(AuthzData(MatchersFor(keys, b.names), op)));
    assert MatchersFor(keys, a.names)[0].value == MatchersFor(keys, b.names)[0].value;
  }

  lemma BareGrantsAreFlags(policy: Policy, q: Request, compiles: string -> bool)
    requires Evaluate(policy, q, true, compiles).Ok?
    ensures Evaluate(policy, q, true, compiles).value.Flag?
  {
  }

  // ---- Asking alike ----

  /** The namespaces that a list names. */
  function Named(namespaces: seq<string>): set<string> {
    set ns | ns in namespaces && ns != ""
  }

  /** Those of the namespaces that are among the chosen ones, in order and with repetitions. */
  function Chosen(namespaces: seq<string>, chosen: set<string>): seq<string> {
    Pick(namespaces, seq(|namespaces|, i requires 0 <= i < |namespaces| => namespaces[i] in chosen))
  }

  /** Granting the chosen ones of either list makes one pattern, or none that compiles. */
  predicate SameSelection(a: seq<string>, b: seq<string>, chosen: set<string>, compiles: string -> bool) {
    SameResult(Conclude(Chosen(a, chosen), false, compiles), Conclude(Chosen(b, chosen), false, compiles))
  }

  /** One could check this by trying all subsets of the namespaces. */
  ghost predicate SameSelections(a: seq<string>, b: seq<string>, compiles: string -> bool) {
    forall chosen :: chosen <= (set ns | ns in a + b) ==> SameSelection(a, b, chosen, compiles)
  }

  /** The namespaces make no difference: for `create` none do; for a read that needs no matcher it matters
      which are named and, when it expands metadata, whether any is listed at all; for one that needs a
      matcher also what patterns they make. */
  ghost predicate NamespacesAlike(q: Request, namespaces: seq<string>, bare: bool, compiles: string -> bool) {
    || q.verb == CREATE || q.namespaces == namespaces
    || (&& Named(q.namespaces) == Named(namespaces)
        && ((bare && !q.metadataOnly) || (q.namespaces == [] <==> namespaces == []))
        && (bare || SameSelections(q.namespaces, namespaces, compiles)))
  }

  /** The same user asks for the same access to the same resource, with namespaces that make no difference. */
  ghost predicate AskAlike(q1: Request, q2: Request, bare: bool, compiles: string -> bool) {
    && q1.token == q2.token && q1.metadataOnly == q2.metadataOnly && At(q1, "") == At(q2, "")
    && NamespacesAlike(q1, q2.namespaces, bare, compiles)
  }

  // ---- Requests that ask alike are answered alike ----

  lemma ChosenMembers(namespaces: seq<string>, chosen: set<string>, ns: string)
    ensures ns in Chosen(namespaces, chosen) <==> ns in namespaces && ns in chosen
  {
    var good := (x: string) => x in chosen;
    PickFilters(namespaces, seq(|namespaces|, i requires 0 <= i < |namespaces| => namespaces[i] in chosen), good);
    FilterMembers(Chosen(namespaces, chosen), namespaces, good, ns);
  }

  /** What the listing leaves of the namespaces. */
  lemma ListedAreChosen(namespaces: seq<string>, others: seq<string>, listing: seq<string>)
    ensures var chosen := set ns | ns in namespaces + others && ns in listing;
      Pick(namespaces, ListedFlags(namespaces, listing)) == Chosen(namespaces, chosen)
  {
    var chosen := set ns | ns in namespaces + others && ns in listing;
    var flags := seq(|namespaces|, i requires 0 <= i < |namespaces| => namespaces[i] in chosen);
    assert ListedFlags(namespaces, listing) == flags by {
      forall i | 0 <= i < |namespaces| ensures flags[i] == (namespaces[i] in listing) {
        assert namespaces[i] in namespaces + others;
      }
    }
  }

  /** What the reviews leave of the namespaces. */
  lemma AllowedAreChosen(policy: Policy, p: nat, q: Request, namespaces: seq<string>, others: seq<string>)
    ensures var chosen := set ns | ns in namespaces + others && Allowing(policy, q)(ns);
      Pick(namespaces, ReviewFlags(Fixed(policy, q.token), p, q, namespaces)) == Chosen(namespaces, chosen)
  {
    var chosen := set ns | ns in namespaces + others && Allowing(policy, q)(ns);
    var flags := seq(|namespaces|, i requires 0 <= i < |namespaces| => namespaces[i] in chosen);
    assert ReviewFlags(Fixed(policy, q.token), p, q, namespaces) == flags by {
      forall i | 0 <= i < |namespaces| ensures flags[i] == Allowing(policy, q)(namespaces[i]) {
        assert namespaces[i] in namespaces + others;
      }
    }
  }

  /** With the cluster-wide review denied, the reviews all succeed or not depending on the names alone. */
  lemma AnsweredByNames(policy: Policy, p: nat, q: Request, a: seq<string>, b: seq<string>)
    requires policy.review(q.token, At(q, "")).Got? && Named(b) <= Named(a)
    ensures AllAnswered(Fixed(policy, q.token), p, q, a) ==> AllAnswered(Fixed(policy, q.token), p, q, b)
  {
    var api := Fixed(policy, q.token);
    forall i | AllAnswered(api, p, q, a) && 0 <= i < |b| ensures ReplyTo(api, p, q, b, i).Got? {
      if b[i] != "" {
        assert b[i] in Named(b);
        var j :| 0 <= j < |a| && a[j] == b[i];
        assert ReplyTo(api, p, q, a, j).Got?;
      }
    }
  }

  lemma EachAlike(policy: Policy, p: nat, q: Request, a: seq<string>, b: seq<string>, bare: bool,
      compiles: string -> bool)
    requires policy.review(q.token, At(q, "")) == Got(false)
    requires Named(a) == Named(b) && (bare || SameSelections(a, b, compiles))
    ensures SameResult(DecideEach(Fixed(policy, q.token), p, q, a, bare, compiles),
                       DecideEach(Fixed(policy, q.token), p, q, b, bare, compiles))
  {
    var chosen := set ns | ns in a + b && Allowing(policy, q)(ns);
    assert chosen == set ns | ns in b + a && Allowing(policy, q)(ns);
    AnsweredByNames(policy, p, q, a, b);
    AnsweredByNames(policy, p, q, b, a);
    AllowedAreChosen(policy, p, q, a, b);
    AllowedAreChosen(policy, p, q, b, a);
    assert bare || SameSelection(a, b, chosen, compiles);
    EmptyTogether(a, b, chosen);
    EmptyTogether(b, a, chosen);
  }

  lemma EmptyTogether(a: seq<string>, b: seq<string>, chosen: set<string>)
    requires Named(a) == Named(b) && "" !in chosen
    ensures Chosen(a, chosen) == [] ==> Chosen(b, chosen) == []
  {
    if Chosen(b, chosen) != [] {
      var ns := Chosen(b, chosen)[0];
      assert ns in Chosen(b, chosen);
      ChosenMembers(b, chosen, ns);
      assert ns in Named(b);
      ChosenMembers(a, chosen, ns);
    }
  }

  lemma ClusterWideAlike(policy: Policy, q: Request, namespaces: seq<string>, bare: bool, compiles: string -> bool)
    requires bare || (q.namespaces == [] <==> namespaces == [])
    requires bare || SameSelections(q.namespaces, namespaces, compiles)
    ensures SameResult(
      DecideClusterWide(Fixed(policy, q.token), 1, q, bare, compiles),
      DecideClusterWide(Fixed(policy, q.token), 1, q.(namespaces := namespaces), bare, compiles))
  {
    if !bare && q.namespaces != [] && policy.list(q.token).Got? {
      var listing, a := policy.list(q.token).value, q.namespaces;
      var chosen := set ns | ns in a + namespaces && ns in listing;
      assert chosen == set ns | ns in namespaces + a && ns in listing;
      ListedAreChosen(a, namespaces, listing);
      ListedAreChosen(namespaces, a, listing);
      assert SameSelection(a, namespaces, chosen, compiles);
    }
  }

  lemma AlikeSameResult(policy: Policy, q1: Request, q2: Request, bare: bool, compiles: string -> bool)
    requires KnownVerb(q1.verb) && AskAlike(q1, q2, bare, compiles)
    ensures SameResult(Evaluate(policy, q1, bare, compiles), Evaluate(policy, q2, bare, compiles))
  {
    var api, b := Fixed(policy, q1.token), q2.namespaces;
    assert q2 == q1.(namespaces := b);
    if q1.verb != CREATE && q1.namespaces != b && policy.review(q1.token, At(q1, "")).Got? {
      if policy.review(q1.token, At(q1, "")).value {
        ClusterWideAlike(policy, q1, b, bare, compiles);
      } else {
        EachAlike(policy, 1, q1, q1.namespaces, b, bare, compiles);
        forall ns ensures At(q1, ns) == At(q2, ns) {}
        EachIgnoresRest(api, 1, q1, q2, b, bare, compiles);
      }
    }
  }

  // ---- Requests that do not ask alike are told apart ----

  /** The results differ, and one of them is a success that a cache would keep. */
  ghost predicate ToldApart(policy: Policy, q1: Request, q2: Request, bare: bool, compiles: string -> bool) {
    var r1, r2 := Evaluate(policy, q1, bare, compiles), Evaluate(policy, q2, bare, compiles);
    !SameResult(r1, r2) && (r1.Ok? || r2.Ok?)
  }

  /** Lists what it is given, and allows exactly one review to one user. */
  function AllowsOnly(token: string, review: Review, listing: seq<string>): Policy {
    Policy((t: string, r: Review) => Got(t == token && r == review), (t: string) => Got(listing))
  }

  /** Denies everything and lists nothing, but fails on one review. */
  function FailsOn(review: Review): Policy {
    Policy((t: string, r: Review) => if r == review then Failed else Got(false), (t: string) => Got([]))
  }

  function Denies(): Policy {
    Policy((t: string, r: Review) => Got(false), (t: string) => Failed)
  }

  function Allows(listing: seq<string>): Policy {
    Policy((t: string, r: Review) => Got(true), (t: string) => Got(listing))
  }

  lemma DeniedEach(api: Api, p: nat, q: Request, cands: seq<string>, bare: bool, compiles: string -> bool)
    requires forall i :: 0 <= i < |cands| ==> ReplyTo(api, p, q, cands, i) == Got(false)
    ensures DecideEach(api, p, q, cands, bare, compiles) == Ok(Flag(false))
  {
    PickSelects(cands, ReviewFlags(api, p, q, cands));
  }

  lemma OtherAskerTold(q1: Request, q2: Request, bare: bool, compiles: string -> bool)
    requires KnownVerb(q1.verb) && q1.verb == q2.verb
    requires q1.token != q2.token || At(q1, "") != At(q2, "")
    ensures ToldApart(AllowsOnly(q2.token, At(q2, ""), []), q1, q2, bare, compiles)
  {
    var policy := AllowsOnly(q2.token, At(q2, ""), []);
    var api := Fixed(policy, q1.token);
    forall ns ensures policy.review(q1.token, At(q1, ns)) == Got(false) {
      assert At(q1, ns) == At(q2, "") ==> At(q1, "") == At(q2, "");
    }
    if q1.verb == GET {
      DeniedEach(api, 1, q1, q1.namespaces, bare, compiles);
      assert Evaluate(policy, q1, bare, compiles) == Ok(Flag(false));
      if !bare { NothingPicked(q2.namespaces, []); }
    }
  }

  lemma NothingPicked(cands: seq<string>, listing: seq<string>)
    requires forall ns :: ns in cands ==> ns !in listing
    ensures Pick(cands, ListedFlags(cands, listing)) == []
  {
    var names := Pick(cands, ListedFlags(cands, listing));
    ListedFilters(cands, listing);
    if names != [] { FilterMembers(names, cands, Containing(listing), names[0]); }
  }

  lemma OtherNameTold(q: Request, a: seq<string>, b: seq<string>, ns: string, bare: bool, compiles: string -> bool)
    requires q.verb == GET && ns in Named(a) && ns !in Named(b)
    ensures var policy := FailsOn(At(q, ns));
      && Evaluate(policy, q.(namespaces := a), bare, compiles) == Err(NamespaceReview)
      && Evaluate(policy, q.(namespaces := b), bare, compiles) == Ok(Flag(false))
  {
    var policy := FailsOn(At(q, ns));
    var qa, qb, api := q.(namespaces := a), q.(namespaces := b), Fixed(policy, q.token);
    var i :| 0 <= i < |a| && a[i] == ns;
    assert ReplyTo(api, 1, qa, a, i).Failed?;
    forall j | 0 <= j < |b| ensures ReplyTo(api, 1, qb, b, j) == Got(false) {
      assert b[j] != "" ==> b[j] in Named(b);
    }
    DeniedEach(api, 1, qb, b, bare, compiles);
  }

  lemma OtherExpansionTold(q: Request, namespaces: seq<string>, bare: bool, compiles: string -> bool)
    requires q.verb == GET && q.metadataOnly && q.namespaces == [] && namespaces != []
    ensures Evaluate(Denies(), q, bare, compiles) == Err(ListNamespaces)
    ensures Evaluate(Denies(), q.(namespaces := namespaces), bare, compiles) == Ok(Flag(false))
  {
    DeniedEach(Fixed(Denies(), q.token), 1, q.(namespaces := namespaces), namespaces, bare, compiles);
  }

  lemma NothingNamedTold(q: Request, namespaces: seq<string>, compiles: string -> bool)
    requires q.verb == GET && q.namespaces == [] && namespaces != [] && Named(namespaces) == {} && compiles("")
    ensures ToldApart(Allows(["a"]), q, q.(namespaces := namespaces), false, compiles)
  {
    forall ns | ns in namespaces ensures ns !in ["a"] { assert ns != "" ==> ns in Named(namespaces); }
    NothingPicked(namespaces, ["a"]);
  }

  lemma OtherSelectionTold(q: Request, a: seq<string>, b: seq<string>, chosen: set<string>, compiles: string -> bool)
    returns (listing: seq<string>)
    requires q.verb == GET && a != [] && b != [] && chosen <= (set ns | ns in a + b)
    requires !SameSelection(a, b, chosen, compiles)
    ensures ToldApart(Allows(listing), q.(namespaces := a), q.(namespaces := b), false, compiles)
  {
    listing := Chosen(a + b, chosen);
    forall ns ensures ns in listing <==> ns in chosen { ChosenMembers(a + b, chosen, ns); }
    assert chosen == set ns | ns in a + b && ns in listing;
    assert chosen == set ns | ns in b + a && ns in listing;
    ListedAreChosen(a, b, listing);
    ListedAreChosen(b, a, listing);
  }

  lemma NamespacesTold(q: Request, namespaces: seq<string>, bare: bool, compiles: string -> bool)
    returns (policy: Policy)
    requires KnownVerb(q.verb) && compiles("") && !NamespacesAlike(q, namespaces, bare, compiles)
    ensures ToldApart(policy, q, q.(namespaces := namespaces), bare, compiles)
  {
    var a, b := q.namespaces, namespaces;
    var qb := q.(namespaces := b);
    assert q == q.(namespaces := a) && q == qb.(namespaces := a);
    if Named(a) != Named(b) {
      var ns :| ns in Named(a) + Named(b) && (ns in Named(a) <==> ns !in Named(b));
      policy := FailsOn(At(q, ns));
      if ns in Named(a) {
        OtherNameTold(q, a, b, ns, bare, compiles);
      } else {
        OtherNameTold(q, b, a, ns, bare, compiles);
      }
    } else if (a == []) != (b == []) {
      if q.metadataOnly {
        policy := Denies();
        if a == [] { OtherExpansionTold(q, b, bare, compiles); } else { OtherExpansionTold(qb, a, bare, compiles); }
      } else {
        policy := Allows(["a"]);
        if a == [] { NothingNamedTold(q, b, compiles); } else { NothingNamedTold(qb, a, compiles); }
      }
    } else {
      var chosen :| chosen <= (set ns | ns in a + b) && !SameSelection(a, b, chosen, compiles);
      var listing := OtherSelectionTold(q, a, b, chosen, compiles);
      policy := Allows(listing);
    }
  }

  /** Requests that do not ask alike are told apart by some policy. */
  lemma DifferentAreTold(q1: Request, q2: Request, bare: bool, compiles: string -> bool) returns (policy: Policy)
    requires KnownVerb(q1.verb) && q1.verb == q2.verb && q1.metadataOnly == q2.metadataOnly && compiles("")
    requires !AskAlike(q1, q2, bare, compiles)
    ensures ToldApart(policy, q1, q2, bare, compiles)
  {
    if q1.token != q2.token || At(q1, "") != At(q2, "") {
      OtherAskerTold(q1, q2, bare, compiles);
      policy := AllowsOnly(q2.token, At(q2, ""), []);
    } else {
      assert q2 == q1.(namespaces := q2.namespaces);
      policy := NamespacesTold(q1, q2.namespaces, bare, compiles);
    }
  }

  /** Two requests for the same kind of access get the same from every policy if and only if they ask alike,
      whatever their strings. */
  lemma AlikeExactly(q1: Request, q2: Request, bare: bool, compiles: string -> bool)
    requires KnownVerb(q1.verb) && q1.verb == q2.verb && q1.metadataOnly == q2.metadataOnly && compiles("")
    ensures (forall policy ::
              SameResult(Evaluate(policy, q1, bare, compiles), Evaluate(policy, q2, bare, compiles)))
      <==> AskAlike(q1, q2, bare, compiles)
  {
    if AskAlike(q1, q2, bare, compiles) {
      forall policy
        ensures SameResult(Evaluate(policy, q1, bare, compiles), Evaluate(policy, q2, bare, compiles))
      {
        AlikeSameResult(policy, q1, q2, bare, compiles);
      }
    } else {
      var policy := DifferentAreTold(q1, q2, bare, compiles);
    }
  }

  /** Naming nothing and naming the empty namespace come to the same under every policy exactly for `create`
      and for a read that needs no matcher and expands nothing. */
  lemma EmptyNamespaceExactly(q: Request, bare: bool, compiles: string -> bool)
    requires KnownVerb(q.verb) && q.namespaces == [] && compiles("")
    ensures (forall policy ::
              Evaluate(policy, q, bare, compiles) == Evaluate(policy, q.(namespaces := [""]), bare, compiles))
      <==> q.verb == CREATE || (bare && !q.metadataOnly)
  {
    var other := q.(namespaces := [""]);
    assert At(q, "") == At(other, "") && Named([""]) == {};
    AlikeExactly(q, other, bare, compiles);
    if q.verb == CREATE || (bare && !q.metadataOnly) {
      forall policy ensures Evaluate(policy, q, bare, compiles) == Evaluate(policy, other, bare, compiles) {
        AlikeSameResult(policy, q, other, bare, compiles);
      }
    } else {
      var policy :| !SameResult(Evaluate(policy, q, bare, compiles), Evaluate(policy, other, bare, compiles));
      assert Evaluate(policy, q, bare, compiles) != Evaluate(policy, other, bare, compiles);
    }
  }
}
