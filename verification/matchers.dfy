/** internal/config/matcher.go: the configured label matcher, shared by all requests, and the matcher
    that one request derives from it. A Go slice is an array and a length. */
module Matchers {
  import opened Text

  const KUBERNETES_NAME := "kubernetes_namespace_name"
  const K8S_NAME := "k8s_namespace_name"

  type Selectors = map<string, seq<string>>

  /** The contents of a matcher, apart from where they are stored. */
  datatype Settings = Settings(keys: seq<string>, op: string, skipTenants: set<string>, adminGroups: set<string>)

  const EMPTY := Settings([], "", {}, {})

  // ---- The parsed configuration ----

  function ConfiguredKeys(csv: string): seq<string> {
    var keys := Split(csv, ',');
    if keys[0] != "" then keys else []
  }

  function ConfiguredNames(csv: string): set<string> {
    set t | t in Split(csv, ',') && t != ""
  }

  /** The configured key list is the flag's text cut at the commas, except that a text which starts
      with a comma configures no key at all. */
  lemma ConfiguredKeysMeaning(csv: string)
    ensures Join(ConfiguredKeys(csv), ",") == csv <==> !(csv != "" && csv[0] == ',')
    ensures AllFree(',', ConfiguredKeys(csv))
    ensures ConfiguredKeys(csv) == [] <==> csv == "" || csv[0] == ','
  {
    JoinUndoesSplit(csv, ',');
  }

  /** The names in a flag are the non-empty ones of the comma-free pieces that join to its text with commas. */
  lemma ConfiguredNamesMeaning(pieces: seq<string>, name: string)
    requires pieces != [] && AllFree(',', pieces)
    ensures name in ConfiguredNames(Join(pieces, ",")) <==> name in pieces && name != ""
  {
    SplitUndoesJoin(pieces, ',');
  }

  /** Fills the set of names from a comma-separated flag, skipping empty entries. */
  method PrepareMap(csv: string) returns (names: set<string>)
    ensures names == ConfiguredNames(csv)
  {
    names := {};
    if csv == "" { return; }
    var tokens := Split(csv, ',');
    for i := 0 to |tokens|
      invariant names == set t | t in tokens[..i] && t != ""
    {
      if tokens[i] != "" {
        names := names + {tokens[i]};
      }
    }
    assert tokens[..|tokens|] == tokens;
  }

  // ---- What one request derives ----

  function Derived(m: Settings, tenant: string, groups: seq<string>): Settings {
    if m.keys != [] && (tenant in m.skipTenants || exists i :: 0 <= i < |groups| && groups[i] in m.adminGroups)
    then EMPTY
    else m
  }

  function DeleteFirst(keys: seq<string>, key: string): seq<string> {
    if keys == [] then []
    else if keys[0] == key then keys[1..]
    else [keys[0]] + DeleteFirst(keys[1..], key)
  }

  predicate HasValues(selectors: Selectors, name: string) {
    name in selectors && selectors[name] != []
  }

  function MigratedKeys(keys: seq<string>, selectors: Selectors): seq<string> {
    DeleteFirst(keys, if HasValues(selectors, K8S_NAME) then KUBERNETES_NAME else K8S_NAME)
  }

  /** The matcher a request ends up with, when the migration is on or off. */
  function ForQuery(m: Settings, migrate: bool, tenant: string, groups: seq<string>, selectors: Selectors): Settings {
    var d := Derived(m, tenant, groups);
    if migrate then d.(keys := MigratedKeys(d.keys, selectors)) else d
  }

  lemma {:induction false} DeleteAt(keys: seq<string>, key: string, i: nat)
    requires i < |keys| && keys[i] == key && key !in keys[..i]
    ensures DeleteFirst(keys, key) == keys[..i] + keys[i + 1..]
  {
    if i > 0 {
      assert keys[..i][0] == keys[0];
      assert keys[1..][..i - 1] == keys[..i][1..];
      DeleteAt(keys[1..], key, i - 1);
    }
  }

  lemma {:induction false} DeleteAbsent(keys: seq<string>, key: string)
    requires key !in keys
    ensures DeleteFirst(keys, key) == keys
  {
    if keys != [] { DeleteAbsent(keys[1..], key); }
  }

  lemma {:induction false} DeleteFirstCounts(keys: seq<string>, key: string)
    ensures multiset(DeleteFirst(keys, key)) == multiset(keys) - multiset{key}
  {
    if keys != [] {
      assert keys == [keys[0]] + keys[1..];
      if keys[0] != key { DeleteFirstCounts(keys[1..], key); }
    }
  }

  lemma {:induction false} DeleteFirstLength(keys: seq<string>, key: string)
    ensures TotalLength(DeleteFirst(keys, key)) == TotalLength(keys) - if key in keys then |key| else 0
  {
    if keys != [] {
      assert keys == [keys[0]] + keys[1..] && [keys[0]][..0] == [];
      TotalLengthAppend([keys[0]], keys[1..]);
      if keys[0] != key {
        DeleteFirstLength(keys[1..], key);
        TotalLengthAppend([keys[0]], DeleteFirst(keys[1..], key));
      }
    }
  }

  // ---- What is derived ----

  /** The first occurrence of the key, if any, is gone, and nothing else. */
  ghost predicate FirstRemoved(before: seq<string>, key: string, after: seq<string>) {
    if key !in before then after == before
    else
      exists i ::
        0 <= i < |before| && before[i] == key && key !in before[..i] && after == before[..i] + before[i + 1..]
  }

  lemma {:induction false} DeleteFirstRemoves(keys: seq<string>, key: string)
    ensures FirstRemoved(keys, key, DeleteFirst(keys, key))
  {
    if key !in keys {
      DeleteAbsent(keys, key);
    } else {
      var i := FirstAt(keys, key);
      DeleteAt(keys, key, i);
    }
  }

  lemma {:induction false} FirstAt(keys: seq<string>, key: string) returns (i: nat)
    requires key in keys
    ensures i < |keys| && keys[i] == key && key !in keys[..i]
  {
    if keys[0] == key {
      i := 0;
    } else {
      i := FirstAt(keys[1..], key);
      i := i + 1;
      assert keys[..i] == [keys[0]] + keys[1..][..i - 1];
    }
  }

  /** A tenant to be skipped, or a member of an admin group, needs no matcher. */
  predicate Exempt(m: Settings, tenant: string, groups: seq<string>) {
    tenant in m.skipTenants || exists i :: 0 <= i < |groups| && groups[i] in m.adminGroups
  }

  /** Who is exempt gets no keys; everyone else keeps the configured matcher, less one namespace label while
      the migration is on. */
  lemma ForQueryMeaning(m: Settings, migrate: bool, tenant: string, groups: seq<string>, selectors: Selectors)
    ensures var d := ForQuery(m, migrate, tenant, groups, selectors);
      if Exempt(m, tenant, groups) then d.keys == []
      else
        && d == m.(keys := d.keys)
        && if !migrate then d.keys == m.keys
           else
             var modern := "k8s_namespace_name" in selectors && |selectors["k8s_namespace_name"]| > 0;
             FirstRemoved(m.keys, if modern then "kubernetes_namespace_name" else "k8s_namespace_name", d.keys)
  {
    DeleteFirstRemoves(m.keys, KUBERNETES_NAME);
    DeleteFirstRemoves(m.keys, K8S_NAME);
  }

  // ---- The migration agrees with the query ----

  /** The keys other than the two namespace labels, in order. */
  function Others(keys: seq<string>): seq<string> {
    if keys == [] then []
    else (if keys[0] == KUBERNETES_NAME || keys[0] == K8S_NAME then [] else [keys[0]]) + Others(keys[1..])
  }

  lemma {:induction false} DeleteKeepsOthers(keys: seq<string>, key: string)
    requires key == KUBERNETES_NAME || key == K8S_NAME
    ensures Others(DeleteFirst(keys, key)) == Others(keys)
  {
    if keys != [] && keys[0] != key {
      DeleteKeepsOthers(keys[1..], key);
      assert ([keys[0]] + DeleteFirst(keys[1..], key))[1..] == DeleteFirst(keys[1..], key);
    }
  }

  /** With both namespace labels configured once, exactly one of them is left; it is the one the query
      uses, every other key keeps its place, and migrating again changes nothing. */
  lemma MigrationAgreesWithQuery(keys: seq<string>, selectors: Selectors)
    requires multiset(keys)[KUBERNETES_NAME] == 1 && multiset(keys)[K8S_NAME] == 1
    requires !(HasValues(selectors, KUBERNETES_NAME) && HasValues(selectors, K8S_NAME))
    ensures var left := MigratedKeys(keys, selectors);
      && (K8S_NAME in left <==> "k8s_namespace_name" in selectors && |selectors["k8s_namespace_name"]| > 0)
      && (KUBERNETES_NAME in left <==> K8S_NAME !in left)
      && (forall name :: name in {KUBERNETES_NAME, K8S_NAME} && HasValues(selectors, name) ==> name in left)
      && Others(left) == Others(keys)
      && MigratedKeys(left, selectors) == left
  {
    var gone := if HasValues(selectors, K8S_NAME) then KUBERNETES_NAME else K8S_NAME;
    var left := MigratedKeys(keys, selectors);
    DeleteFirstCounts(keys, gone);
    DeleteKeepsOthers(keys, gone);
    assert |KUBERNETES_NAME| != |K8S_NAME|;
    assert multiset(left)[gone] == 0;
    DeleteAbsent(left, gone);
    assert forall k :: k in left <==> k in multiset(left);
  }

  // ---- The heap object ----

  class Matcher {
    var buf: array<string>
    var len: nat
    var op: string
    const skipTenants: set<string>
    const adminGroups: set<string>

    ghost predicate Valid()
      reads this
    {
      len <= buf.Length
    }

    ghost function View(): Settings
      requires Valid()
      reads this, buf
    {
      Settings(buf[..len], op, skipTenants, adminGroups)
    }

    constructor (keys: seq<string>, op: string, skipTenants: set<string>, adminGroups: set<string>)
      ensures Valid() && fresh(buf)
      ensures View() == Settings(keys, op, skipTenants, adminGroups)
    {
      this.buf := new string[|keys|](i requires 0 <= i < |keys| => keys[i]);
      this.len := |keys|;
      this.op := op;
      this.skipTenants := skipTenants;
      this.adminGroups := adminGroups;
      new;
      assert buf[..len] == keys;
    }

    predicate IsEmpty()
      reads this
    {
      len == 0
    }

    method Clone() returns (m: Matcher)
      requires Valid()
      ensures m.Valid() && fresh(m) && fresh(m.buf)
      ensures m.View() == View()
    {
      m := new Matcher(buf[..len], op, skipTenants, adminGroups);
    }

    /** Either a fresh object on a fresh array, or this very object when it has no keys. */
    method ForRequest(tenant: string, groups: array<string>) returns (m: Matcher)
      requires Valid()
      ensures m.Valid() && m.View() == Derived(View(), tenant, groups[..])
      ensures tenant in skipTenants || (exists i :: 0 <= i < groups.Length && groups[i] in adminGroups) ==>
        m.View().keys == []
      ensures tenant !in skipTenants && (forall i :: 0 <= i < groups.Length ==> groups[i] !in adminGroups) ==>
        m.View() == View()
      ensures if View().keys == [] then m == this else fresh(m) && fresh(m.buf)
    {
      if IsEmpty() {
        return this;
      }
      if tenant in skipTenants {
        m := new Matcher([], "", {}, {});
        return;
      }
      for i := 0 to groups.Length
        invariant forall j :: 0 <= j < i ==> groups[j] !in adminGroups
      {
        if groups[i] in adminGroups {
          assert groups[..][i] in adminGroups;
          m := new Matcher([], "", {}, {});
          return;
        }
      }
      m := Clone();
    }

    /** The first position of a key, or -1. */
    method Index(key: string) returns (i: int)
      requires Valid()
      ensures -1 <= i < len
      ensures i == -1 ==> key !in View().keys
      ensures i >= 0 ==> buf[i] == key && key !in View().keys[..i]
    {
      i := 0;
      while i < len
        invariant 0 <= i <= len
        invariant key !in buf[..i]
      {
        if buf[i] == key { return; }
        i := i + 1;
      }
      i := -1;
    }

    /** Shifts the tail one place down in the same array and clears the freed cell. */
    method RemoveAt(i: nat)
      requires Valid() && i < len
      modifies this`len, buf
      ensures Valid() && len == old(len) - 1
      ensures View() == old(View()).(keys := old(buf[..i]) + old(buf[i + 1..len]))
      ensures buf[old(len) - 1] == ""
      ensures forall k :: old(len) <= k < buf.Length ==> buf[k] == old(buf[k])
    {
      var j := i;
      while j + 1 < len
        invariant len == old(len) && i <= j < len
        invariant forall k :: 0 <= k < i || j < k < buf.Length ==> buf[k] == old(buf[k])
        invariant forall k :: i <= k < j ==> buf[k] == old(buf[k + 1])
      {
        buf[j] := buf[j + 1];
        j := j + 1;
      }
      buf[j] := "";
      len := len - 1;
      assert forall k :: i <= k < len ==> buf[k] == old(buf[i + 1..len])[k - i];
      assert buf[..len] == old(buf[..i]) + old(buf[i + 1..len]);
    }

    method RemoveKey(key: string)
      requires Valid()
      modifies if len == 0 then {} else {this, buf}
      ensures Valid() && buf == old(buf)
      ensures View() == old(View()).(keys := DeleteFirst(old(View()).keys, key))
    {
      ghost var keys := View().keys;
      var i := Index(key);
      if i != -1 {
        DeleteAt(keys, key, i);
        RemoveAt(i);
      } else {
        DeleteAbsent(keys, key);
      }
    }

    /** Drops the namespace label that the query does not use; a matcher without keys is not touched. */
    method ViaQToOTELMigration(selectors: Selectors)
      requires Valid()
      modifies if len == 0 then {} else {this, buf}
      ensures Valid() && buf == old(buf)
      ensures View() == old(View()).(keys := MigratedKeys(old(View()).keys, selectors))
    {
      if HasValues(selectors, K8S_NAME) {
        RemoveKey(KUBERNETES_NAME);
        return;
      }
      RemoveKey(K8S_NAME);
    }
  }

  /** The shared matcher built once from the flags. */
  method ToMatcher(matcher: string, op: string, skipTenants: string, adminGroups: string) returns (m: Matcher)
    ensures m.Valid() && fresh(m) && fresh(m.buf)
    ensures m.View() ==
      Settings(ConfiguredKeys(matcher), op, ConfiguredNames(skipTenants), ConfiguredNames(adminGroups))
  {
    var skip := PrepareMap(skipTenants);
    var admin := PrepareMap(adminGroups);
    var keys := Split(matcher, ',');
    m := new Matcher(if keys[0] != "" then keys else [], op, skip, admin);
  }
}
