/** Configuration drift across environments (backend/app/services/platform_config.py, build_config_baseline). */
module Drift {
  import opened Common
  import opened Policies
  import opened Remediation

  /** The values of one drift item: a setting's value, or whether a name is present. */
  datatype Value = Setting(value: Json) | Presence(present: bool)

  datatype Item = Item(kind: string, name: string, values: map<string, Value>)

  /** Python's repr. */
  datatype Printer = Printer(repr: Json -> string)

  // ----- Sets of names -----

  function ResourceNames(names: Option<seq<string>>): set<string>
  {
    NamesOf(names)
  }

  /** Bare strings count even when they are blank. */
  function EnvironmentNames(items: Option<seq<ExecutionEnvironment>>): set<string>
  {
    (set item | item in OrEmpty(items) && item.Entry? && item.name.Some? && item.name.value != "" :: item.name.value) +
    (set item | item in OrEmpty(items) && item.Bare? :: item.text)
  }

  /** The names of one kind an environment reports. */
  function Reported(environment: Environment, kind: string): set<string>
  {
    var config := ServiceConfig(environment, "controller");
    if kind == "organization" then ResourceNames(config.organizations)
    else if kind == "execution_environment" then EnvironmentNames(config.executionEnvironments)
    else ResourceNames(config.instanceGroups)
  }

  predicate IsOrchestrator(environment: Environment)
  {
    environment.kind == "orchestrator"
  }

  predicate DistinctNames(environments: seq<Environment>)
  {
    forall i, j :: 0 <= i < j < |environments| ==> environments[i].name != environments[j].name
  }

  /** The sets by environment name, orchestrators left out. */
  function Grouped(environments: seq<Environment>, kind: string): map<string, set<string>>
  {
    if environments == [] then map[]
    else
      var last := environments[|environments| - 1];
      var front := Grouped(environments[..|environments| - 1], kind);
      if IsOrchestrator(last) then front else front[last.name := Reported(last, kind)]
  }

  /** The dictionary entry of an environment. */
  predicate IsEntry(environments: seq<Environment>, kind: string, name: string, names: set<string>)
  {
    exists e :: e in environments && !IsOrchestrator(e) && e.name == name && names == Reported(e, kind)
  }

  lemma {:induction false} GroupedEntries(environments: seq<Environment>, kind: string)
    ensures forall n :: n in Grouped(environments, kind) ==>
      IsEntry(environments, kind, n, Grouped(environments, kind)[n])
  {
    if environments != [] {
      var front, last := environments[..|environments| - 1], environments[|environments| - 1];
      GroupedEntries(front, kind);
      forall n | n in Grouped(environments, kind)
        ensures IsEntry(environments, kind, n, Grouped(environments, kind)[n])
      {
        if n in Grouped(front, kind) && Grouped(environments, kind)[n] == Grouped(front, kind)[n] {
          var e :| e in front && !IsOrchestrator(e) && e.name == n && Grouped(front, kind)[n] == Reported(e, kind);
          assert e in environments;
        }
      }
    }
  }

  lemma {:induction false} GroupedAll(environments: seq<Environment>, kind: string, i: nat)
    requires DistinctNames(environments) && i < |environments| && !IsOrchestrator(environments[i])
    ensures environments[i].name in Grouped(environments, kind)
    ensures Grouped(environments, kind)[environments[i].name] == Reported(environments[i], kind)
  {
    if i < |environments| - 1 {
      GroupedAll(environments[..|environments| - 1], kind, i);
    }
  }

  function Union(grouped: map<string, set<string>>): set<string>
  {
    set n, x | n in grouped && x in grouped[n] :: x
  }

  predicate InAll(grouped: map<string, set<string>>, name: string)
  {
    forall n :: n in grouped ==> name in grouped[n]
  }

  /** Present somewhere and missing somewhere. */
  predicate Drifts(grouped: map<string, set<string>>, name: string)
  {
    name in Union(grouped) && !InAll(grouped, name)
  }

  function PresenceOf(grouped: map<string, set<string>>, name: string): map<string, Value>
  {
    map n | n in grouped :: Presence(name in grouped[n])
  }

  function ItemNames(items: seq<Item>): (r: seq<string>)
    ensures |r| == |items| && forall i :: 0 <= i < |r| ==> r[i] == items[i].name
  {
    seq(|items|, i requires 0 <= i < |items| => items[i].name)
  }

  /** sorted(names) */
  function SortedSet(names: set<string>): (r: seq<string>)
    ensures StrictlySorted(r)
    ensures forall x :: x in r <==> x in names
  {
    if names == {} then []
    else
      var x := LeastName(names);
      var rest := SortedSet(names - {x});
      assert forall i :: 0 <= i < |rest| ==> rest[i] in rest;
      [x] + rest
  }

  function LeastName(names: set<string>): (x: string)
    requires names != {}
    ensures x in names && forall y :: y in names ==> StringLe(x, y)
  {
    LeastExists(names);
    var x :| x in names && forall y :: y in names ==> StringLe(x, y);
    assert forall z :: z in names && (forall y :: y in names ==> StringLe(z, y)) ==> z == x by {
      forall z | z in names && (forall y :: y in names ==> StringLe(z, y)) ensures z == x { StringLeTotal(x, z); }
    }
    x
  }

  lemma {:induction false} LeastExists(names: set<string>)
    requires names != {}
    ensures exists x :: x in names && forall y :: y in names ==> StringLe(x, y)
    decreases names
  {
    var z :| z in names;
    if names == {z} {
      StringLeTotal(z, z);
    } else {
      LeastExists(names - {z});
      var x :| x in names - {z} && forall y :: y in names - {z} ==> StringLe(x, y);
      StringLeTotal(x, z);
      var least := if StringLe(x, z) then x else z;
      forall y | y in names ensures StringLe(least, y) {
        if y == z { StringLeTotal(z, z); } else if least == z { StringLeTransitive(z, x, y); }
      }
    }
  }

  /** The items of one kind, in order. */
  ghost predicate SetDrift(items: seq<Item>, kind: string, grouped: map<string, set<string>>)
  {
    StrictlySorted(ItemNames(items)) &&
    (forall x :: x in ItemNames(items) <==> Drifts(grouped, x)) &&
    forall item :: item in items ==> item.kind == kind && item.values == PresenceOf(grouped, item.name)
  }

  /** The items among the names seen so far. */
  ghost predicate SetDriftSoFar(items: seq<Item>, kind: string, grouped: map<string, set<string>>, seen: seq<string>)
  {
    StrictlySorted(ItemNames(items)) &&
    (forall x :: x in ItemNames(items) <==> x in seen && Drifts(grouped, x)) &&
    forall item :: item in items ==> item.kind == kind && item.values == PresenceOf(grouped, item.name)
  }

  lemma ItemAppended(items: seq<Item>, item: Item)
    ensures ItemNames(items + [item]) == ItemNames(items) + [item.name]
  {
  }

  lemma SetDriftStep(items: seq<Item>, kind: string, grouped: map<string, set<string>>, names: seq<string>, i: nat)
    requires StrictlySorted(names) && i < |names| && SetDriftSoFar(items, kind, grouped, names[..i])
    ensures Drifts(grouped, names[i]) ==>
      SetDriftSoFar(items + [Item(kind, names[i], PresenceOf(grouped, names[i]))], kind, grouped, names[..i + 1])
    ensures !Drifts(grouped, names[i]) ==> SetDriftSoFar(items, kind, grouped, names[..i + 1])
  {
    assert names[..i + 1] == names[..i] + [names[i]];
    GreatestLast(names, i, ItemNames(items));
    ItemAppended(items, Item(kind, names[i], PresenceOf(grouped, names[i])));
  }

  /** _append_set_drift: the items it appends. */
  method SetDriftItems(kind: string, grouped: map<string, set<string>>) returns (found: seq<Item>)
    ensures SetDrift(found, kind, grouped)
  {
    var names := SortedSet(Union(grouped));
    found := [];
    for i := 0 to |names|
      invariant SetDriftSoFar(found, kind, grouped, names[..i])
    {
      var values := PresenceOf(grouped, names[i]);
      assert names[i] in names;
      BothValues(grouped, names[i]);
      SetDriftStep(found, kind, grouped, names, i);
      if |values.Values| > 1 {
        found := found + [Item(kind, names[i], values)];
      }
    }
    assert names[..|names|] == names;
  }

  lemma GreatestLast(names: seq<string>, i: nat, some: seq<string>)
    requires StrictlySorted(names) && i < |names| && StrictlySorted(some) && forall x :: x in some ==> x in names[..i]
    ensures StrictlySorted(some + [names[i]])
  {
    forall k | 0 <= k < |some| ensures StringLe(some[k], names[i]) && some[k] != names[i] {
      assert some[k] in some;
      var j :| 0 <= j < i && names[j] == some[k];
    }
  }

  /** More than one value appears exactly when the name is present and missing. */
  lemma BothValues(grouped: map<string, set<string>>, name: string)
    requires name in Union(grouped)
    ensures |PresenceOf(grouped, name).Values| > 1 <==> Drifts(grouped, name)
  {
    var values := PresenceOf(grouped, name);
    var n :| n in grouped && name in grouped[n];
    assert values[n] == Presence(true) && Presence(true) in values.Values;
    if InAll(grouped, name) {
      assert values.Values == {Presence(true)};
    } else {
      var m :| m in grouped && name !in grouped[m];
      assert values[m] == Presence(false) && Presence(false) in values.Values;
      assert {Presence(true), Presence(false)} <= values.Values;
      SubsetSize({Presence(true), Presence(false)}, values.Values);
    }
  }

  lemma SubsetSize(a: set<Value>, b: set<Value>)
    requires a <= b
    ensures |a| <= |b|
  {
    assert |b - a| + |a| == |b|;
  }

  // ----- Settings -----

  type SettingValues = map<string, map<string, Json>>

  function SettingsOf(environment: Environment): map<string, Json>
  {
    var settings := ServiceConfig(environment,
                                  if IsOrchestrator(environment) then "orchestrator" else "controller").settings;
    if settings.Some? then settings.value else map[]
  }

  /** for key, value in settings.items(): values.setdefault(key, {})[name] = value */
  function AddSettings(values: SettingValues, name: string, settings: map<string, Json>): SettingValues
  {
    map k | k in values.Keys + settings.Keys ::
      (if k in values then values[k] else map[]) + (if k in settings then map[name := settings[k]] else map[])
  }

  /** The values of every setting by environment, for one product. */
  function Collected(environments: seq<Environment>, orchestrators: bool): SettingValues
  {
    if environments == [] then map[]
    else
      var last := environments[|environments| - 1];
      var front := Collected(environments[..|environments| - 1], orchestrators);
      if IsOrchestrator(last) == orchestrators then AddSettings(front, last.name, SettingsOf(last)) else front
  }

  predicate Differs(values: map<string, Json>, printer: Printer)
  {
    exists n, m :: n in values && m in values && printer.repr(values[n]) != printer.repr(values[m])
  }

  function AsValues(values: map<string, Json>): map<string, Value>
  {
    map n | n in values :: Setting(values[n])
  }

  ghost predicate SettingDrift(items: seq<Item>, kind: string, values: SettingValues, printer: Printer)
  {
    StrictlySorted(ItemNames(items)) &&
    (forall k :: k in ItemNames(items) <==> k in values && Differs(values[k], printer)) &&
    forall item :: item in items ==>
      item.kind == kind && item.name in values && item.values == AsValues(values[item.name])
  }

  /** The items among the keys seen so far. */
  ghost predicate SettingDriftSoFar(items: seq<Item>, kind: string, values: SettingValues, printer: Printer,
                                    seen: seq<string>)
  {
    StrictlySorted(ItemNames(items)) &&
    (forall k :: k in ItemNames(items) <==> k in seen && k in values && Differs(values[k], printer)) &&
    forall item :: item in items ==>
      item.kind == kind && item.name in values && item.values == AsValues(values[item.name])
  }

  lemma SettingDriftStep(items: seq<Item>, kind: string, values: SettingValues, printer: Printer, keys: seq<string>,
                         i: nat)
    requires StrictlySorted(keys) && i < |keys| && keys[i] in values &&
      SettingDriftSoFar(items, kind, values, printer, keys[..i])
    ensures Differs(values[keys[i]], printer) ==>
      SettingDriftSoFar(items + [Item(kind, keys[i], AsValues(values[keys[i]]))], kind, values, printer, keys[..i + 1])
    ensures !Differs(values[keys[i]], printer) ==> SettingDriftSoFar(items, kind, values, printer, keys[..i + 1])
  {
    assert keys[..i + 1] == keys[..i] + [keys[i]];
    GreatestLast(keys, i, ItemNames(items));
    ItemAppended(items, Item(kind, keys[i], AsValues(values[keys[i]])));
  }

  method SettingDriftItems(kind: string, values: SettingValues, printer: Printer) returns (found: seq<Item>)
    ensures SettingDrift(found, kind, values, printer)
  {
    var keys := SortedSet(values.Keys);
    found := [];
    for i := 0 to |keys|
      invariant SettingDriftSoFar(found, kind, values, printer, keys[..i])
    {
      assert keys[i] in keys;
      var byName := values[keys[i]];
      var unique := set n | n in byName :: printer.repr(byName[n]);
      TwoReprs(byName, printer);
      SettingDriftStep(found, kind, values, printer, keys, i);
      if |unique| > 1 {
        found := found + [Item(kind, keys[i], AsValues(byName))];
      }
    }
    assert keys[..|keys|] == keys;
  }

  lemma TwoReprs(values: map<string, Json>, printer: Printer)
    ensures |set n | n in values :: printer.repr(values[n])| > 1 <==> Differs(values, printer)
  {
    var unique := set n | n in values :: printer.repr(values[n]);
    if Differs(values, printer) {
      var n, m :| n in values && m in values && printer.repr(values[n]) != printer.repr(values[m]);
      var two := {printer.repr(values[n]), printer.repr(values[m])};
      assert two <= unique;
      assert |unique - two| + |two| == |unique|;
    } else if values != map[] {
      var n :| n in values;
      assert unique == {printer.repr(values[n])};
    }
  }

  // ----- build_config_baseline -----

  function OfKind(drift: seq<Item>, kind: string): seq<Item>
  {
    if drift == [] then [] else If(drift[0].kind == kind, [drift[0]]) + OfKind(drift[1..], kind)
  }

  function If(condition: bool, items: seq<Item>): seq<Item>
  {
    if condition then items else []
  }

  lemma {:induction false} OfKindConcat(a: seq<Item>, b: seq<Item>, kind: string)
    ensures OfKind(a + b, kind) == OfKind(a, kind) + OfKind(b, kind)
  {
    if a == [] {
      assert a + b == b;
    } else {
      assert (a + b)[0] == a[0] && (a + b)[1..] == a[1..] + b;
      OfKindConcat(a[1..], b, kind);
      var first := If(a[0].kind == kind, [a[0]]);
      assert first + (OfKind(a[1..], kind) + OfKind(b, kind)) == (first + OfKind(a[1..], kind)) + OfKind(b, kind);
    }
  }

  ghost predicate AllOfKind(items: seq<Item>, kind: string)
  {
    forall item :: item in items ==> item.kind == kind
  }

  lemma {:induction false} OneKind(items: seq<Item>, kind: string, other: string)
    requires AllOfKind(items, kind)
    ensures OfKind(items, other) == If(kind == other, items)
  {
    if items != [] {
      OneKind(items[1..], kind, other);
      assert items == [items[0]] + items[1..];
    }
  }

  /** The items of several kinds, kind after kind. */
  function Blocks(blocks: seq<seq<Item>>): seq<Item>
  {
    if blocks == [] then [] else blocks[0] + Blocks(blocks[1..])
  }

  ghost predicate BlocksOf(blocks: seq<seq<Item>>, kinds: seq<string>)
  {
    |blocks| == |kinds| && forall k :: 0 <= k < |kinds| ==> AllOfKind(blocks[k], kinds[k])
  }

  lemma {:induction false} NoBlock(blocks: seq<seq<Item>>, kinds: seq<string>, kind: string)
    requires BlocksOf(blocks, kinds) && kind !in kinds
    ensures OfKind(Blocks(blocks), kind) == []
    decreases |blocks|
  {
    if blocks != [] {
      OfKindConcat(blocks[0], Blocks(blocks[1..]), kind);
      OneKind(blocks[0], kinds[0], kind);
      NoBlock(blocks[1..], kinds[1..], kind);
    }
  }

  lemma {:induction false} BlockOfKind(blocks: seq<seq<Item>>, kinds: seq<string>, k: nat)
    requires BlocksOf(blocks, kinds) && k < |kinds|
    requires forall i, j :: 0 <= i < j < |kinds| ==> kinds[i] != kinds[j]
    ensures OfKind(Blocks(blocks), kinds[k]) == blocks[k]
    decreases |blocks|
  {
    OfKindConcat(blocks[0], Blocks(blocks[1..]), kinds[k]);
    OneKind(blocks[0], kinds[0], kinds[k]);
    if k == 0 {
      NoBlock(blocks[1..], kinds[1..], kinds[0]);
    } else {
      BlockOfKind(blocks[1..], kinds[1..], k - 1);
    }
  }

  const SetKinds: seq<string> := ["organization", "execution_environment", "instance_group"]

  /** The dictionaries of the loop over the environments. */
  datatype Gathered = Gathered(settings: SettingValues, orchestratorSettings: SettingValues, organizations: map<string,
                               set<string>>,
                               executionEnvironments: map<string, set<string>>,
                               instanceGroups: map<string, set<string>>)

  method Gather(environments: seq<Environment>) returns (g: Gathered)
    ensures g ==
      Gathered(Collected(environments, false), Collected(environments, true), Grouped(environments, SetKinds[0]),
                          Grouped(environments, SetKinds[1]), Grouped(environments, SetKinds[2]))
  {
    g := Gathered(map[], map[], map[], map[], map[]);
    for i := 0 to |environments|
      invariant g ==
        Gathered(Collected(environments[..i], false), Collected(environments[..i], true),
                 Grouped(environments[..i], SetKinds[0]),
                              Grouped(environments[..i], SetKinds[1]), Grouped(environments[..i], SetKinds[2]))
    {
      var environment := environments[i];
      assert environments[..i + 1][..i] == environments[..i];
      if IsOrchestrator(environment) {
        g := g.(orchestratorSettings := AddSettings(g.orchestratorSettings, environment.name, SettingsOf(environment)));
      } else {
        g := g.(settings := AddSettings(g.settings, environment.name, SettingsOf(environment)),
                organizations := g.organizations[environment.name := Reported(environment, "organization")],
                executionEnvironments :=
                  g.executionEnvironments[environment.name := Reported(environment, "execution_environment")],
                instanceGroups := g.instanceGroups[environment.name := Reported(environment, "instance_group")]);
      }
    }
    assert environments[..|environments|] == environments;
  }

  method BuildConfigBaseline(environments: seq<Environment>, printer: Printer) returns (drift: seq<Item>)
    ensures SettingDrift(OfKind(drift, "setting"), "setting", Collected(environments, false), printer)
    ensures SettingDrift(OfKind(drift, "orchestrator_setting"), "orchestrator_setting", Collected(environments, true),
                         printer)
    ensures SetDrift(OfKind(drift, SetKinds[0]), SetKinds[0], Grouped(environments, SetKinds[0]))
    ensures SetDrift(OfKind(drift, SetKinds[1]), SetKinds[1], Grouped(environments, SetKinds[1]))
    ensures SetDrift(OfKind(drift, SetKinds[2]), SetKinds[2], Grouped(environments, SetKinds[2]))
  {
    var g := Gather(environments);
    var settings := SettingDriftItems("setting", g.settings, printer);
    var orchestrator := SettingDriftItems("orchestrator_setting", g.orchestratorSettings, printer);
    drift := settings + orchestrator;
    var organizations, executionEnvironments, instanceGroups := [], [], [];
    if |environments| > 1 {
      organizations := SetDriftItems(SetKinds[0], g.organizations);
      executionEnvironments := SetDriftItems(SetKinds[1], g.executionEnvironments);
      instanceGroups := SetDriftItems(SetKinds[2], g.instanceGroups);
    } else {
      FewNeverDrift(environments, SetKinds[0]);
      FewNeverDrift(environments, SetKinds[1]);
      FewNeverDrift(environments, SetKinds[2]);
    }
    drift := drift + organizations + executionEnvironments + instanceGroups;
    FiveKinds(settings, orchestrator, organizations, executionEnvironments, instanceGroups);
  }

  lemma FiveKinds(a: seq<Item>, b: seq<Item>, c: seq<Item>, d: seq<Item>, e: seq<Item>)
    requires AllOfKind(a, "setting") && AllOfKind(b, "orchestrator_setting")
    requires AllOfKind(c, SetKinds[0]) && AllOfKind(d, SetKinds[1]) && AllOfKind(e, SetKinds[2])
    ensures var drift := a + b + c + d + e;
      OfKind(drift, "setting") == a && OfKind(drift, "orchestrator_setting") == b &&
      OfKind(drift, SetKinds[0]) == c && OfKind(drift, SetKinds[1]) == d && OfKind(drift, SetKinds[2]) == e
  {
    var blocks, kinds := [a, b, c, d, e], ["setting", "orchestrator_setting"] + SetKinds;
    FiveBlocks(a, b, c, d, e);
    DistinctKinds();
    BlockOfKind(blocks, kinds, 0);
    BlockOfKind(blocks, kinds, 1);
    BlockOfKind(blocks, kinds, 2);
    BlockOfKind(blocks, kinds, 3);
    BlockOfKind(blocks, kinds, 4);
  }

  lemma FiveBlocks(a: seq<Item>, b: seq<Item>, c: seq<Item>, d: seq<Item>, e: seq<Item>)
    ensures Blocks([a, b, c, d, e]) == a + b + c + d + e
  {
    assert [a, b, c, d, e][1..] == [b, c, d, e] && [b, c, d, e][1..] == [c, d, e];
    assert [c, d, e][1..] == [d, e] && [d, e][1..] == [e] && [e][1..] == [];
    assert Blocks([]) == [] && Blocks([e]) == e + [] == e;
    assert Blocks([d, e]) == d + e;
    assert Blocks([c, d, e]) == c + (d + e);
    assert a + (b + (c + (d + e))) == a + b + c + d + e;
  }

  lemma DistinctKinds()
    ensures var kinds := ["setting", "orchestrator_setting"] + SetKinds;
      forall i, j :: 0 <= i < j < |kinds| ==> kinds[i] != kinds[j]
  {
    assert |"setting"| == 7 && |"orchestrator_setting"| == 20;
    assert |"organization"| == 12 && |"execution_environment"| == 21 && |"instance_group"| == 14;
  }

  /** One environment at most agrees with itself. */
  lemma FewNeverDrift(environments: seq<Environment>, kind: string)
    requires |environments| <= 1
    ensures SetDrift([], kind, Grouped(environments, kind))
  {
  }

  // ----- Exactness -----

  predicate PresentSomewhere(environments: seq<Environment>, kind: string, x: string)
  {
    exists e :: e in environments && !IsOrchestrator(e) && x in Reported(e, kind)
  }

  predicate MissingSomewhere(environments: seq<Environment>, kind: string, x: string)
  {
    exists e :: e in environments && !IsOrchestrator(e) && x !in Reported(e, kind)
  }

  /** Main result: the names reported for a kind are exactly the union without the intersection of the
      sets of the AAP environments; none are reported exactly when all the sets are equal. */
  lemma DriftIsExact(environments: seq<Environment>, kind: string, items: seq<Item>)
    requires DistinctNames(environments) && SetDrift(items, kind, Grouped(environments, kind))
    ensures forall x :: x in ItemNames(items) <==>
      PresentSomewhere(environments, kind, x) && MissingSomewhere(environments, kind, x)
    ensures items == [] <==> AllAgree(environments, kind)
  {
    forall x
      ensures x in ItemNames(items) <==>
        PresentSomewhere(environments, kind, x) && MissingSomewhere(environments, kind, x)
    {
      DriftByEnvironment(environments, kind, x);
    }
    if items != [] {
      assert items[0].name in ItemNames(items);
    } else {
      forall a, b | a in environments && b in environments && !IsOrchestrator(a) && !IsOrchestrator(b)
        ensures Reported(a, kind) == Reported(b, kind)
      {
        forall x ensures x in Reported(a, kind) <==> x in Reported(b, kind) {
          assert x !in ItemNames(items);
        }
      }
    }
  }

  /** What a kind collects from an environment: organizations and instance groups under a name that is not
      empty, execution environments also from bare strings; blank strings apart, the policies see the same. */
  lemma ReportedIsResource(e: Environment, kind: string, x: string)
    requires kind in SetKinds && Trim(x, PythonSpace) != ""
    ensures x in Reported(e, kind) <==> HasResource(e, kind, x)
  {
    if kind == "execution_environment" {
      var items := OrEmpty(ServiceConfig(e, "controller").executionEnvironments);
      if x in Reported(e, kind) {
        var item :| item in items && (if item.Bare? then item.text == x else item.name == Some(x) && x != "");
        assert Names(item, x);
      }
    }
  }

  predicate Reports(e: Environment, kind: string, x: string, present: bool)
  {
    e.kind != "orchestrator" && (x in Reported(e, kind) <==> present)
  }

  /** An AAP environment of that name reports it, or does not. */
  predicate ReportedBy(environments: seq<Environment>, kind: string, x: string, name: string, present: bool)
  {
    exists e :: e in environments && e.name == name && Reports(e, kind, x, present)
  }

  /** A kind lists a name with one entry for every AAP environment, which says whether it reports the name. */
  lemma SetItemsByEnvironment(environments: seq<Environment>, kind: string, items: seq<Item>, item: Item,
                              name: string, present: bool)
    requires DistinctNames(environments) && SetDrift(items, kind, Grouped(environments, kind)) && item in items
    ensures name in item.values && item.values[name] == Presence(present) <==>
      ReportedBy(environments, kind, item.name, name, present)
  {
    if name in item.values && item.values[name] == Presence(present) {
      GroupedEntries(environments, kind);
    }
    if ReportedBy(environments, kind, item.name, name, present) {
      var e :| e in environments && e.name == name && Reports(e, kind, item.name, present);
      var i :| 0 <= i < |environments| && environments[i] == e;
      GroupedAll(environments, kind, i);
    }
  }

  predicate AllAgree(environments: seq<Environment>, kind: string)
  {
    forall a, b :: a in environments && b in environments && !IsOrchestrator(a) && !IsOrchestrator(b) ==>
      Reported(a, kind) == Reported(b, kind)
  }

  lemma DriftByEnvironment(environments: seq<Environment>, kind: string, x: string)
    requires DistinctNames(environments)
    ensures Drifts(Grouped(environments, kind), x) <==>
      PresentSomewhere(environments, kind, x) && MissingSomewhere(environments, kind, x)
  {
    var grouped := Grouped(environments, kind);
    if Drifts(grouped, x) {
      GroupedEntries(environments, kind);
      var n :| n in grouped && x in grouped[n];
      var m :| m in grouped && x !in grouped[m];
      assert IsEntry(environments, kind, n, grouped[n]) && IsEntry(environments, kind, m, grouped[m]);
    }
    if PresentSomewhere(environments, kind, x) && MissingSomewhere(environments, kind, x) {
      var a :| a in environments && !IsOrchestrator(a) && x in Reported(a, kind);
      var b :| b in environments && !IsOrchestrator(b) && x !in Reported(b, kind);
      var i :| 0 <= i < |environments| && environments[i] == a;
      var j :| 0 <= j < |environments| && environments[j] == b;
      GroupedAll(environments, kind, i);
      GroupedAll(environments, kind, j);
    }
  }

  // ----- Drift after a remediation -----

  predicate Unrestricted(scope: Scope)
  {
    scope.kind in {"", "aap"} && scope.capability == "" && scope.tags == {}
  }

  lemma CompliantReports(environment: Environment, rule: Rule, now: int, python: Python)
    requires rule.NamedResourcePresent? && Trim(rule.resourceType, PythonSpace) in SetKinds
    requires EvaluateRule(rule, environment, now, python) == Compliant
    ensures Trim(rule.name, PythonSpace) in Reported(environment, Trim(rule.resourceType, PythonSpace))
  {
    NamedResourceAnswer(rule, environment, now, python);
  }

  lemma {:induction false} ReportsAfter(policy: Policy, environment: Environment, remoteOk: bool, now: int,
                                        python: Python)
    requires policy.rule.NamedResourcePresent? && Unrestricted(policy.scope) &&
      Trim(policy.rule.resourceType, PythonSpace) in SetKinds
    requires Recordable(environment, policy.rule) && !Treat(policy, environment, remoteOk, now, python).Failed?
    requires !IsOrchestrator(environment)
    ensures Trim(policy.rule.name, PythonSpace) in
      Reported(After(policy, environment, remoteOk, now, python), Trim(policy.rule.resourceType, PythonSpace))
  {
    AnswerAfter(policy, environment, remoteOk, now, python);
    CompliantReports(After(policy, environment, remoteOk, now, python), policy.rule, now, python);
  }

  /** Main result: after a named-resource remediation of the whole fleet without failures, that name
      no longer drifts. */
  lemma {:induction false} RemediationEndsDrift(policy: Policy, environments: seq<Environment>, remote: string -> bool,
                                                now: int, python: Python)
    requires policy.rule.NamedResourcePresent? && Unrestricted(policy.scope) &&
      Trim(policy.rule.resourceType, PythonSpace) in SetKinds
    requires forall e :: e in environments ==> Recordable(e, policy.rule)
    requires CountResults(policy, environments, remote, Failed, now, python) == 0
    ensures var kind := Trim(policy.rule.resourceType, PythonSpace);
      !Drifts(Grouped(AfterAll(policy, environments, remote, now, python), kind), Trim(policy.rule.name, PythonSpace))
  {
    var after := AfterAll(policy, environments, remote, now, python);
    var kind, name := Trim(policy.rule.resourceType, PythonSpace), Trim(policy.rule.name, PythonSpace);
    forall e | e in after && !IsOrchestrator(e) ensures name in Reported(e, kind) {
      var i :| 0 <= i < |after| && after[i] == e;
      AfterAllAt(policy, environments, remote, now, python, i);
      NoneFailed(policy, environments, remote, now, python, i);
      ReportsAfter(policy, environments[i], remote(environments[i].id), now, python);
    }
    var grouped := Grouped(after, kind);
    GroupedEntries(after, kind);
    forall n | n in grouped ensures name in grouped[n] {
      assert IsEntry(after, kind, n, grouped[n]);
    }
  }

  // ----- Settings after a remediation -----

  /** The environment is of the product and holds that value under the product's own settings. */
  predicate Stores(e: Environment, orchestrators: bool, key: string, value: Json)
  {
    var settings := ServiceConfig(e, if orchestrators then "orchestrator" else "controller").settings;
    (e.kind == "orchestrator" <==> orchestrators) &&
    settings.Some? && key in settings.value && settings.value[key] == value
  }

  /** An environment of that name stores the value. */
  predicate StoredBy(environments: seq<Environment>, orchestrators: bool, key: string, name: string, value: Json)
  {
    exists e :: e in environments && e.name == name && Stores(e, orchestrators, key, value)
  }

  /** The value is the one collected under the setting and the environment. */
  predicate CollectedAs(environments: seq<Environment>, orchestrators: bool, key: string, name: string, value: Json)
  {
    var collected := Collected(environments, orchestrators);
    key in collected && name in collected[key] && collected[key][name] == value
  }

  lemma {:induction false} CollectedFrom(environments: seq<Environment>, orchestrators: bool, key: string,
                                         name: string, value: Json)
    requires CollectedAs(environments, orchestrators, key, name, value)
    ensures StoredBy(environments, orchestrators, key, name, value)
  {
    var front, last := environments[..|environments| - 1], environments[|environments| - 1];
    if last.name == name && Stores(last, orchestrators, key, value) {
      assert last in environments;
    } else {
      CollectedFrom(front, orchestrators, key, name, value);
      var e :| e in front && e.name == name && Stores(e, orchestrators, key, value);
      assert e in environments;
    }
  }

  lemma LastIsCollected(environments: seq<Environment>, orchestrators: bool, key: string, value: Json)
    requires environments != [] && Stores(environments[|environments| - 1], orchestrators, key, value)
    ensures CollectedAs(environments, orchestrators, key, environments[|environments| - 1].name, value)
  {
  }

  lemma OthersStayCollected(environments: seq<Environment>, orchestrators: bool, key: string, name: string,
                            value: Json)
    requires environments != [] && environments[|environments| - 1].name != name
    requires CollectedAs(environments[..|environments| - 1], orchestrators, key, name, value)
    ensures CollectedAs(environments, orchestrators, key, name, value)
  {
  }

  lemma {:induction false} CollectedAll(environments: seq<Environment>, orchestrators: bool, i: nat, key: string,
                                        value: Json)
    requires DistinctNames(environments) && i < |environments| && Stores(environments[i], orchestrators, key, value)
    ensures CollectedAs(environments, orchestrators, key, environments[i].name, value)
  {
    if i < |environments| - 1 {
      CollectedAll(environments[..|environments| - 1], orchestrators, i, key, value);
      OthersStayCollected(environments, orchestrators, key, environments[i].name, value);
    } else {
      LastIsCollected(environments, orchestrators, key, value);
    }
  }

  /** Both store values of the setting that print differently. */
  ghost predicate PrintApart(a: Environment, b: Environment, orchestrators: bool, key: string, printer: Printer)
  {
    exists v, w :: Stores(a, orchestrators, key, v) && Stores(b, orchestrators, key, w) &&
      printer.repr(v) != printer.repr(w)
  }

  /** Two environments of the product store values of the setting that print differently. */
  ghost predicate StoresDiffer(environments: seq<Environment>, orchestrators: bool, key: string, printer: Printer)
  {
    exists i, j :: 0 <= i < |environments| && 0 <= j < |environments| &&
      PrintApart(environments[i], environments[j], orchestrators, key, printer)
  }

  lemma StoredAt(environments: seq<Environment>, orchestrators: bool, key: string, name: string, value: Json)
      returns (i: nat)
    requires CollectedAs(environments, orchestrators, key, name, value)
    ensures i < |environments| && Stores(environments[i], orchestrators, key, value)
  {
    CollectedFrom(environments, orchestrators, key, name, value);
    var e :| e in environments && e.name == name && Stores(e, orchestrators, key, value);
    i :| 0 <= i < |environments| && environments[i] == e;
  }

  lemma DriftingIsStored(environments: seq<Environment>, orchestrators: bool, key: string, printer: Printer)
    requires key in Collected(environments, orchestrators)
    requires Differs(Collected(environments, orchestrators)[key], printer)
    ensures StoresDiffer(environments, orchestrators, key, printer)
  {
    var values := Collected(environments, orchestrators)[key];
    var n, m :| n in values && m in values && printer.repr(values[n]) != printer.repr(values[m]);
    var i := StoredAt(environments, orchestrators, key, n, values[n]);
    var j := StoredAt(environments, orchestrators, key, m, values[m]);
    assert PrintApart(environments[i], environments[j], orchestrators, key, printer);
  }

  lemma StoredIsDrifting(environments: seq<Environment>, orchestrators: bool, key: string, printer: Printer,
                         i: nat, j: nat)
    requires DistinctNames(environments) && i < |environments| && j < |environments|
    requires PrintApart(environments[i], environments[j], orchestrators, key, printer)
    ensures key in Collected(environments, orchestrators)
    ensures Differs(Collected(environments, orchestrators)[key], printer)
  {
    var v, w :| Stores(environments[i], orchestrators, key, v) && Stores(environments[j], orchestrators, key, w) &&
      printer.repr(v) != printer.repr(w);
    CollectedAll(environments, orchestrators, i, key, v);
    CollectedAll(environments, orchestrators, j, key, w);
  }

  /** A setting drifts exactly when two environments of the product store values that print differently. */
  lemma SettingDriftIsExact(environments: seq<Environment>, orchestrators: bool, key: string, printer: Printer)
    requires DistinctNames(environments)
    ensures var collected := Collected(environments, orchestrators);
      key in collected && Differs(collected[key], printer) <==>
      StoresDiffer(environments, orchestrators, key, printer)
  {
    var collected := Collected(environments, orchestrators);
    if key in collected && Differs(collected[key], printer) {
      DriftingIsStored(environments, orchestrators, key, printer);
    }
    if StoresDiffer(environments, orchestrators, key, printer) {
      var i, j :| 0 <= i < |environments| && 0 <= j < |environments| &&
        PrintApart(environments[i], environments[j], orchestrators, key, printer);
      StoredIsDrifting(environments, orchestrators, key, printer, i, j);
    }
  }

  /** The settings the baseline lists for a product, and the value it shows for every environment. */
  lemma SettingItemsByEnvironment(environments: seq<Environment>, orchestrators: bool, items: seq<Item>,
                                  kind: string, printer: Printer)
    requires DistinctNames(environments)
    requires SettingDrift(items, kind, Collected(environments, orchestrators), printer)
    ensures forall key :: key in ItemNames(items) <==> StoresDiffer(environments, orchestrators, key, printer)
    ensures forall item, name, value :: item in items ==>
      (name in item.values && item.values[name] == Setting(value) <==>
      StoredBy(environments, orchestrators, item.name, name, value))
  {
    forall key ensures key in ItemNames(items) <==> StoresDiffer(environments, orchestrators, key, printer) {
      SettingDriftIsExact(environments, orchestrators, key, printer);
    }
    forall item, name, value | item in items
      ensures name in item.values && item.values[name] == Setting(value) <==>
        StoredBy(environments, orchestrators, item.name, name, value)
    {
      if CollectedAs(environments, orchestrators, item.name, name, value) {
        CollectedFrom(environments, orchestrators, item.name, name, value);
      }
      if StoredBy(environments, orchestrators, item.name, name, value) {
        var e :| e in environments && e.name == name && Stores(e, orchestrators, item.name, value);
        var i :| 0 <= i < |environments| && environments[i] == e;
        CollectedAll(environments, orchestrators, i, item.name, value);
      }
    }
  }

  /** The environment stores an accepted value, so the remediation leaves it alone. */
  predicate Keeps(policy: Policy, environment: Environment, now: int, python: Python)
  {
    EvaluateRule(policy.rule, environment, now, python) == Compliant
  }

  /** The value an AAP environment stores after a clean run over the whole fleet. */
  function StoredAfter(policy: Policy, environment: Environment, now: int, python: Python): Json
    requires policy.rule.ControllerSetting?
  {
    if Keeps(policy, environment, now, python)
    then ServiceConfig(environment, "controller").settings.value[Trim(policy.rule.key, PythonSpace)]
    else policy.rule.value
  }

  lemma SettingAfter(policy: Policy, environment: Environment, remoteOk: bool, now: int, python: Python)
    requires policy.rule.ControllerSetting? && Pushable(policy.rule) && Unrestricted(policy.scope) &&
      !IsOrchestrator(environment)
    requires !Treat(policy, environment, remoteOk, now, python).Failed?
    ensures var after, key := After(policy, environment, remoteOk, now, python), Trim(policy.rule.key, PythonSpace);
      Stores(after, false, key, StoredAfter(policy, environment, now, python))
  {
  }

  predicate EndApart(policy: Policy, a: Environment, b: Environment, now: int, python: Python, printer: Printer)
    requires policy.rule.ControllerSetting?
  {
    !IsOrchestrator(a) && !IsOrchestrator(b) &&
    printer.repr(StoredAfter(policy, a, now, python)) != printer.repr(StoredAfter(policy, b, now, python))
  }

  /** Two AAP environments end with values that print differently. */
  ghost predicate EndsDiffer(policy: Policy, environments: seq<Environment>, now: int, python: Python, printer: Printer)
    requires policy.rule.ControllerSetting?
  {
    exists i, j :: 0 <= i < |environments| && 0 <= j < |environments| &&
      EndApart(policy, environments[i], environments[j], now, python, printer)
  }

  predicate DriftsAfter(policy: Policy, environments: seq<Environment>, remote: string -> bool, now: int,
                        python: Python, printer: Printer)
    requires policy.rule.ControllerSetting?
  {
    var collected := Collected(AfterAll(policy, environments, remote, now, python), false);
    var key := Trim(policy.rule.key, PythonSpace);
    key in collected && Differs(collected[key], printer)
  }

  lemma AfterKeepsNames(policy: Policy, environments: seq<Environment>, remote: string -> bool, now: int,
                        python: Python)
    requires DistinctNames(environments)
    ensures DistinctNames(AfterAll(policy, environments, remote, now, python))
  {
    forall i | 0 <= i < |environments|
      ensures AfterAll(policy, environments, remote, now, python)[i].name == environments[i].name
    {
      AfterAllAt(policy, environments, remote, now, python, i);
    }
  }

  lemma SettingAfterAt(policy: Policy, environments: seq<Environment>, remote: string -> bool, now: int,
                       python: Python, i: nat)
    requires policy.rule.ControllerSetting? && Pushable(policy.rule) && Unrestricted(policy.scope)
    requires CountResults(policy, environments, remote, Failed, now, python) == 0 && i < |environments|
    ensures var after := AfterAll(policy, environments, remote, now, python)[i];
      var key := Trim(policy.rule.key, PythonSpace);
      (IsOrchestrator(after) <==> IsOrchestrator(environments[i])) &&
      (!IsOrchestrator(after) ==>
        Stores(after, false, key, StoredAfter(policy, environments[i], now, python)))
  {
    AfterAllAt(policy, environments, remote, now, python, i);
    NoneFailed(policy, environments, remote, now, python, i);
    if !IsOrchestrator(environments[i]) {
      SettingAfter(policy, environments[i], remote(environments[i].id), now, python);
    }
  }

  lemma SameApart(policy: Policy, environments: seq<Environment>, remote: string -> bool, now: int, python: Python,
                  printer: Printer,
                  i: nat, j: nat)
    requires policy.rule.ControllerSetting? && Pushable(policy.rule) && Unrestricted(policy.scope)
    requires CountResults(policy, environments, remote, Failed, now, python) == 0 && i < |environments| &&
      j < |environments|
    ensures var after := AfterAll(policy, environments, remote, now, python);
      PrintApart(after[i], after[j], false, Trim(policy.rule.key, PythonSpace), printer) <==>
      EndApart(policy, environments[i], environments[j], now, python, printer)
  {
    SettingAfterAt(policy, environments, remote, now, python, i);
    SettingAfterAt(policy, environments, remote, now, python, j);
  }

  /** Main result: after a remediation of a setting over the whole fleet without failures, the setting
      still drifts exactly when two AAP environments end with values that print differently, where an
      environment that stored an accepted value keeps it and every other one stores the rule's value. */
  lemma SettingDriftAfter(policy: Policy, environments: seq<Environment>, remote: string -> bool, now: int,
                          python: Python, printer: Printer)
    requires policy.rule.ControllerSetting? && Pushable(policy.rule) && Unrestricted(policy.scope) &&
      DistinctNames(environments)
    requires CountResults(policy, environments, remote, Failed, now, python) == 0
    ensures DriftsAfter(policy, environments, remote, now, python, printer) <==>
      EndsDiffer(policy, environments, now, python, printer)
  {
    var after, key := AfterAll(policy, environments, remote, now, python), Trim(policy.rule.key, PythonSpace);
    AfterKeepsNames(policy, environments, remote, now, python);
    SettingDriftIsExact(after, false, key, printer);
    if StoresDiffer(after, false, key, printer) {
      var i, j :| 0 <= i < |after| && 0 <= j < |after| && PrintApart(after[i], after[j], false, key, printer);
      SameApart(policy, environments, remote, now, python, printer, i, j);
    }
    if EndsDiffer(policy, environments, now, python, printer) {
      var i, j :| 0 <= i < |environments| && 0 <= j < |environments| &&
        EndApart(policy, environments[i], environments[j], now, python, printer);
      SameApart(policy, environments, remote, now, python, printer, i, j);
    }
  }

  /** An accepted value that prints unlike the rule's. */
  predicate KeepsOdd(policy: Policy, environment: Environment, now: int, python: Python, printer: Printer)
    requires policy.rule.ControllerSetting?
  {
    !IsOrchestrator(environment) && Keeps(policy, environment, now, python) &&
    printer.repr(StoredAfter(policy, environment, now, python)) != printer.repr(policy.rule.value)
  }

  /** If something was pushed, the setting drifts exactly when such a value was kept. */
  lemma PushedSettingDrifts(policy: Policy, environments: seq<Environment>, p: nat, now: int, python: Python,
                            printer: Printer)
    requires policy.rule.ControllerSetting? && p < |environments|
    requires !IsOrchestrator(environments[p]) && !Keeps(policy, environments[p], now, python)
    ensures EndsDiffer(policy, environments, now, python, printer) <==>
      exists i :: 0 <= i < |environments| && KeepsOdd(policy, environments[i], now, python, printer)
  {
    if i :| 0 <= i < |environments| && KeepsOdd(policy, environments[i], now, python, printer) {
      assert EndApart(policy, environments[i], environments[p], now, python, printer);
    }
    if EndsDiffer(policy, environments, now, python, printer) {
      var i, j :| 0 <= i < |environments| && 0 <= j < |environments| &&
        EndApart(policy, environments[i], environments[j], now, python, printer);
      assert KeepsOdd(policy, environments[i], now, python, printer) ||
        KeepsOdd(policy, environments[j], now, python, printer);
    }
  }

  lemma {:induction false} NoneFails(policy: Policy, environments: seq<Environment>, remote: string -> bool, now: int,
                                     python: Python)
    requires Pushable(policy.rule) && forall e :: e in environments ==> remote(e.id)
    ensures CountResults(policy, environments, remote, Failed, now, python) == 0
  {
    if environments != [] {
      assert environments[|environments| - 1] in environments;
      NoneFails(policy, environments[..|environments| - 1], remote, now, python);
    }
  }

  /** Such a fleet: one environment stores the text "1", which the policy accepts for True, another
      stores False and is pushed. */
  lemma AcceptedTextStillDrifts(policy: Policy, kept: Environment, pushed: Environment, remote: string -> bool,
                                now: int, python: Python, printer: Printer)
    requires policy.rule == ControllerSetting("KEY", Bool(true), true) && Unrestricted(policy.scope)
    requires kept.name != pushed.name && remote(kept.id) && remote(pushed.id)
    requires !IsOrchestrator(kept) && ServiceConfig(kept, "controller").settings == Some(map["KEY" := Text("1")])
    requires !IsOrchestrator(pushed) && ServiceConfig(pushed, "controller").settings == Some(map["KEY" := Bool(false)])
    requires python.lowerText(Text("1")) == "1" && python.lowerText(Bool(true)) == "true" &&
      python.lowerText(Bool(false)) == "false"
    requires printer.repr(Text("1")) != printer.repr(Bool(true))
    ensures CountResults(policy, [kept, pushed], remote, Failed, now, python) == 0
    ensures DriftsAfter(policy, [kept, pushed], remote, now, python, printer)
  {
    OneIsKept(policy, kept, pushed, now, python, printer);
    NoneFails(policy, [kept, pushed], remote, now, python);
    PushedSettingDrifts(policy, [kept, pushed], 1, now, python, printer);
    SettingDriftAfter(policy, [kept, pushed], remote, now, python, printer);
  }

  lemma OneIsKept(policy: Policy, kept: Environment, pushed: Environment, now: int, python: Python, printer: Printer)
    requires policy.rule == ControllerSetting("KEY", Bool(true), true)
    requires !IsOrchestrator(kept) && ServiceConfig(kept, "controller").settings == Some(map["KEY" := Text("1")])
    requires ServiceConfig(pushed, "controller").settings == Some(map["KEY" := Bool(false)])
    requires python.lowerText(Text("1")) == "1" && python.lowerText(Bool(true)) == "true" &&
      python.lowerText(Bool(false)) == "false"
    requires printer.repr(Text("1")) != printer.repr(Bool(true))
    ensures Pushable(policy.rule) && !Keeps(policy, [kept, pushed][1], now, python)
    ensures KeepsOdd(policy, [kept, pushed][0], now, python, printer)
  {
    assert Trimmed("KEY", PythonSpace);
    assert "false"[0] == 'f' && "true"[0] == 't';
  }
}
