/** Pushing a policy's configuration to the fleet (backend/app/services/remediation.py). */
module Remediation {
  import opened Common
  import opened Policies
  import opened FleetEvaluation

  predicate IsRemediable(rule: Rule)
  {
    (rule.ControllerSetting? || rule.NamedResourcePresent?) && rule.remediate
  }

  /** apply_config_remediation raises before it reaches the controller unless the rule says what to push. */
  predicate Pushable(rule: Rule)
  {
    match rule
    case ControllerSetting(key, _, _) => Trim(key, PythonSpace) != ""
    case NamedResourcePresent(resourceType, _, _, _, _) =>
      resourceType in {"organization", "execution_environment", "instance_group"}
    case _ => false
  }

  // ----- _remember_remediation -----

  /** str(item.get("name")) or str(item): a record without a name reads as "None". */
  function NameText(item: ExecutionEnvironment): string
  {
    match item
    case Entry(name, _, _) => if name.Some? then name.value else "None"
    case Bare(text) => text
  }

  function RememberedConfig(config: Config, rule: Rule): Config
  {
    match rule
    case ControllerSetting(key, value, _) =>
      var settings := if config.settings.Some? then config.settings.value else map[];
      var setting := Trim(key, PythonSpace);
      config.(settings := Some(if setting != "" then settings[setting := value] else settings))
    case NamedResourcePresent(resourceType, name, _, image, pull) =>
      var wanted := Trim(name, PythonSpace);
      if resourceType == "organization" then
        config.(organizations := Some(SortedNames(OrEmpty(config.organizations) + [wanted])))
      else if resourceType == "instance_group" then
        config.(instanceGroups := Some(SortedNames(OrEmpty(config.instanceGroups) + [wanted])))
      else if resourceType == "execution_environment" then
        var current := OrEmpty(config.executionEnvironments);
        config.(executionEnvironments := Some(
          if wanted != "" && (forall item :: item in current ==> NameText(item) != wanted)
          then current + [Entry(Some(wanted), image, pull)] else current))
      else config
    case _ => config
  }

  function Remembered(environment: Environment, rule: Rule): Environment
  {
    var config := RememberedConfig(ServiceConfig(environment, "controller"), rule);
    var controller :=
      if "controller" in environment.services then environment.services["controller"] else ServiceSummary(map[], None);
    environment.(services := environment.services["controller" := controller.(config := Some(config))])
  }

  /** The rule names what it wants, and its name is not confused with a record that has none. */
  predicate Recordable(environment: Environment, rule: Rule)
  {
    match rule
    case ControllerSetting(key, _, _) => Trim(key, PythonSpace) != ""
    case NamedResourcePresent(resourceType, name, _, _, _) =>
      Trim(name, PythonSpace) != "" &&
      (resourceType == "execution_environment" && Trim(name, PythonSpace) == "None" ==>
        HasResource(environment, resourceType, "None") ||
        Entry(None, None, None) !in Nameless(OrEmpty(ServiceConfig(environment, "controller").executionEnvironments)))
    case _ => false
  }

  /** The records without a name, reduced to that fact. */
  function Nameless(items: seq<ExecutionEnvironment>): set<ExecutionEnvironment>
  {
    set item | item in items && item.Entry? && item.name.None? :: Entry(None, None, None)
  }

  /** What the collector stores: execution environments as records, each with a name. */
  predicate CollectorShaped(environment: Environment)
  {
    forall item :: item in OrEmpty(ServiceConfig(environment, "controller").executionEnvironments) ==>
      item.Entry? && item.name.Some? && item.name.value != ""
  }

  /** The rule says what it wants. */
  predicate NamesItsTarget(rule: Rule)
  {
    match rule
    case ControllerSetting(key, _, _) => Trim(key, PythonSpace) != ""
    case NamedResourcePresent(_, name, _, _, _) => Trim(name, PythonSpace) != ""
    case _ => false
  }

  /** On collected data only the name matters, and remembering a push keeps the data in that shape. */
  lemma CollectedIsRecordable(environment: Environment, rule: Rule)
    requires CollectorShaped(environment)
    ensures Recordable(environment, rule) <==> NamesItsTarget(rule)
    ensures CollectorShaped(Remembered(environment, rule))
  {
    var before := ServiceConfig(environment, "controller");
    assert ServiceConfig(Remembered(environment, rule), "controller") == RememberedConfig(before, rule);
  }

  /** The part of the configuration a rule is not about. */
  ghost predicate Kept(before: Config, after: Config, rule: Rule)
  {
    match rule
    case ControllerSetting(key, _, _) =>
      after == before.(settings := after.settings) && after.settings.Some? &&
      forall k :: k != Trim(key, PythonSpace) ==> SameSetting(before.settings, after.settings.value, k)
    case NamedResourcePresent(kind, name, _, image, pull) =>
      if kind == "organization" then after == before.(organizations := after.organizations)
      else if kind == "instance_group" then after == before.(instanceGroups := after.instanceGroups)
      else if kind == "execution_environment" then
        after == before.(executionEnvironments := after.executionEnvironments) &&
        forall item :: item in OrEmpty(after.executionEnvironments) ==>
          item in OrEmpty(before.executionEnvironments) || item == Entry(Some(Trim(name, PythonSpace)), image, pull)
      else after == before
    case _ => after == before
  }

  predicate SameSetting(before: Option<map<string, Json>>, after: map<string, Json>, key: string)
  {
    if before.Some? && key in before.value then key in after && after[key] == before.value[key] else key !in after
  }

  /** A push leaves everything but its own datum alone: other fields of the environment, other services,
      the other values of the controller and the other parts of its configuration. */
  lemma RememberedLeavesRest(environment: Environment, rule: Rule, service: string, key: string)
    ensures var after := Remembered(environment, rule);
      after == environment.(services := after.services) &&
      (service != "controller" ==> ServiceConfig(after, service) == ServiceConfig(environment, service)) &&
      ServiceValue(after, service, key) == ServiceValue(environment, service, key)
    ensures Kept(ServiceConfig(environment, "controller"), ServiceConfig(Remembered(environment, rule), "controller"),
                 rule)
  {
    assert ServiceConfig(Remembered(environment, rule), "controller") ==
      RememberedConfig(ServiceConfig(environment, "controller"), rule);
  }

  lemma NoSurroundingSpace(kind: string)
    requires kind in {"organization", "execution_environment", "instance_group"}
    ensures Trim(kind, PythonSpace) == kind
  {
    assert Trimmed(kind, PythonSpace);
  }

  /** Main result: after a push, re-evaluation finds the environment compliant exactly when the rule
      names what it wants, and not "None" beside a nameless execution environment. */
  lemma {:induction false} RememberedIsCompliant(environment: Environment, rule: Rule, now: int, python: Python)
    requires Pushable(rule)
    ensures EvaluateRule(rule, Remembered(environment, rule), now, python) == Compliant <==>
      Recordable(environment, rule)
  {
    match rule
    case ControllerSetting(_, value, _) => PythonEqualReflexive(value);
    case NamedResourcePresent(_, _, _, _, _) => ResourceRecorded(environment, rule, now, python);
  }

  lemma ResourceRecorded(environment: Environment, rule: Rule, now: int, python: Python)
    requires rule.NamedResourcePresent? && Pushable(rule)
    ensures EvaluateRule(rule, Remembered(environment, rule), now, python) == Compliant <==>
      Recordable(environment, rule)
  {
    NamedResourceAnswer(rule, Remembered(environment, rule), now, python);
    NoSurroundingSpace(rule.resourceType);
    if Trim(rule.name, PythonSpace) != "" {
      if rule.resourceType == "execution_environment" {
        RecordedEntry(environment, rule);
      } else {
        RecordedName(environment, rule);
      }
    }
  }

  lemma RecordedName(environment: Environment, rule: Rule)
    requires rule.NamedResourcePresent? && rule.resourceType in {"organization", "instance_group"} &&
      Trim(rule.name, PythonSpace) != ""
    ensures HasResource(Remembered(environment, rule), rule.resourceType, Trim(rule.name, PythonSpace)) &&
      Recordable(environment, rule)
  {
    var after := ServiceConfig(Remembered(environment, rule), "controller");
    assert after == RememberedConfig(ServiceConfig(environment, "controller"), rule);
  }

  lemma RecordedEntry(environment: Environment, rule: Rule)
    requires rule.NamedResourcePresent? && rule.resourceType == "execution_environment" &&
      Trim(rule.name, PythonSpace) != ""
    ensures HasResource(Remembered(environment, rule), "execution_environment", Trim(rule.name, PythonSpace)) <==>
      Recordable(environment, rule)
  {
    var wanted := Trim(rule.name, PythonSpace);
    var current := OrEmpty(ServiceConfig(environment, "controller").executionEnvironments);
    var after := OrEmpty(ServiceConfig(Remembered(environment, rule), "controller").executionEnvironments);
    assert Trim(wanted, PythonSpace) == wanted;
    if forall item :: item in current ==> NameText(item) != wanted {
      assert after == current + [Entry(Some(wanted), rule.image, rule.pull)];
      assert Names(after[|current|], wanted) && after[|current|] in after;
      assert wanted == "None" ==> forall item :: item in current ==> !(item.Entry? && item.name.None?);
    } else {
      var item :| item in current && NameText(item) == wanted;
      assert after == current;
      if item.Entry? && item.name.None? {
        assert Entry(None, None, None) in Nameless(current);
      } else {
        assert Names(item, wanted);
      }
    }
  }

  /** Remembering any push leaves every resource policy compliant that was compliant before. */
  lemma {:induction false} ResourcesStayCompliant(environment: Environment, pushed: Rule, other: Rule, now: int,
                                                  python: Python)
    requires other.NamedResourcePresent? && EvaluateRule(other, environment, now, python) == Compliant
    ensures EvaluateRule(other, Remembered(environment, pushed), now, python) == Compliant
  {
    NamedResourceAnswer(other, environment, now, python);
    NamedResourceAnswer(other, Remembered(environment, pushed), now, python);
    ResourcesGrow(environment, pushed, Trim(other.resourceType, PythonSpace), Trim(other.name, PythonSpace));
  }

  lemma ResourcesGrow(environment: Environment, pushed: Rule, kind: string, name: string)
    requires HasResource(environment, kind, name)
    ensures HasResource(Remembered(environment, pushed), kind, name)
  {
  }

  /** A push adds no resource but its own. */
  lemma OnlyThatResource(environment: Environment, pushed: Rule, kind: string, name: string)
    requires HasResource(Remembered(environment, pushed), kind, name) && !HasResource(environment, kind, name)
    ensures pushed.NamedResourcePresent? && pushed.resourceType == kind && name == Trim(pushed.name, PythonSpace)
  {
    var before := ServiceConfig(environment, "controller");
    var after := ServiceConfig(Remembered(environment, pushed), "controller");
    assert after == RememberedConfig(before, pushed);
    if kind == "execution_environment" {
      var item :| item in OrEmpty(after.executionEnvironments) && Names(item, name);
      assert item !in OrEmpty(before.executionEnvironments);
    }
  }

  lemma ScopeIgnoresSummary(policy: Policy, environment: Environment, rule: Rule)
    ensures ScopeMatches(policy, Remembered(environment, rule)) <==> ScopeMatches(policy, environment)
    ensures Remembered(environment, rule).id == environment.id && Remembered(environment, rule).name == environment.name
  {
  }

  // ----- remediate_fleet -----

  datatype Result = Applied | Failed | SkippedEnvironment

  /** What happens to one environment; remoteOk: the controller accepted the push. */
  function Treat(policy: Policy, environment: Environment, remoteOk: bool, now: int, python: Python): Result
  {
    if !ScopeMatches(policy, environment) || EvaluateRule(policy.rule, environment, now, python) == Compliant
    then SkippedEnvironment
    else if Pushable(policy.rule) && remoteOk then Applied
    else Failed
  }

  function After(policy: Policy, environment: Environment, remoteOk: bool, now: int, python: Python): Environment
  {
    if Treat(policy, environment, remoteOk, now, python).Applied? then Remembered(environment, policy.rule)
    else environment
  }

  function AfterAll(policy: Policy, environments: seq<Environment>, remote: string -> bool, now: int,
                    python: Python): (r: seq<Environment>)
    ensures |r| == |environments|
  {
    if environments == [] then []
    else
      var last := environments[|environments| - 1];
      AfterAll(policy, environments[..|environments| - 1], remote, now, python) +
        [After(policy, last, remote(last.id), now, python)]
  }

  lemma {:induction false} AfterAllAt(policy: Policy, environments: seq<Environment>, remote: string -> bool, now: int,
                                      python: Python, i: nat)
    requires i < |environments|
    ensures AfterAll(policy, environments, remote, now, python)[i] ==
      After(policy, environments[i], remote(environments[i].id), now, python)
  {
    if i < |environments| - 1 {
      AfterAllAt(policy, environments[..|environments| - 1], remote, now, python, i);
    }
  }

  function CountResults(policy: Policy, environments: seq<Environment>, remote: string -> bool, result: Result,
                        now: int, python: Python): nat
  {
    if environments == [] then 0
    else
      var last := environments[|environments| - 1];
      CountResults(policy, environments[..|environments| - 1], remote, result, now, python) +
      if Treat(policy, last, remote(last.id), now, python) == result then 1 else 0
  }

  function InScopeSkipped(policy: Policy, environments: seq<Environment>, now: int, python: Python): nat
  {
    if environments == [] then 0
    else
      var last := environments[|environments| - 1];
      InScopeSkipped(policy, environments[..|environments| - 1], now, python) +
      if ScopeMatches(policy, last) && EvaluateRule(policy.rule, last, now, python) == Compliant then 1 else 0
  }

  // ----- Which environments are pushed -----

  /** The environment is in scope and not in order. */
  predicate Needs(policy: Policy, environment: Environment, now: int, python: Python)
  {
    ScopeMatches(policy, environment) && EvaluateRule(policy.rule, environment, now, python) != Compliant
  }

  /** The rule can be pushed and the controller accepts it. */
  predicate Accepts(rule: Rule, accepted: bool)
  {
    accepted &&
    ((rule.ControllerSetting? && exists k :: 0 <= k < |rule.key| && !PythonSpace(rule.key[k])) ||
     (rule.NamedResourcePresent? && rule.resourceType in {"organization", "execution_environment", "instance_group"}))
  }

  /** The positions of the environments that need the push. */
  ghost function NeedyAt(policy: Policy, environments: seq<Environment>, now: int, python: Python): set<nat>
  {
    set i: nat | i < |environments| && Needs(policy, environments[i], now, python)
  }

  /** Those of them whose push goes through. */
  ghost function PushedAt(policy: Policy, environments: seq<Environment>, remote: string -> bool, now: int,
                          python: Python): set<nat>
  {
    set i | i in NeedyAt(policy, environments, now, python) && Accepts(policy.rule, remote(environments[i].id))
  }

  /** Exactly the pushed environments change, and each remembers the push. */
  ghost predicate ExactlyPushed(before: seq<Environment>, after: seq<Environment>, pushed: set<nat>, rule: Rule)
  {
    |after| == |before| &&
    forall i: nat :: i < |before| ==> after[i] == if i in pushed then Remembered(before[i], rule) else before[i]
  }

  lemma PushedExactly(policy: Policy, environments: seq<Environment>, remote: string -> bool, now: int, python: Python)
    ensures ExactlyPushed(environments, AfterAll(policy, environments, remote, now, python),
                          PushedAt(policy, environments, remote, now, python), policy.rule)
  {
    forall i: nat | i < |environments|
      ensures AfterAll(policy, environments, remote, now, python)[i] ==
        if i in PushedAt(policy, environments, remote, now, python) then Remembered(environments[i], policy.rule)
        else environments[i]
    {
      AfterAllAt(policy, environments, remote, now, python, i);
    }
  }

  /** The positions with a result. */
  ghost function ResultAt(policy: Policy, environments: seq<Environment>, remote: string -> bool, result: Result,
                          now: int, python: Python): set<nat>
  {
    set i: nat | i < |environments| && Treat(policy, environments[i], remote(environments[i].id), now, python) == result
  }

  lemma ResultAppended(policy: Policy, front: seq<Environment>, last: Environment, remote: string -> bool,
                       result: Result, now: int, python: Python)
    ensures ResultAt(policy, front + [last], remote, result, now, python) ==
      ResultAt(policy, front, remote, result, now, python) +
      if Treat(policy, last, remote(last.id), now, python) == result then {|front|} else {}
  {
    assert forall i: nat :: i < |front| ==> (front + [last])[i] == front[i];
  }

  lemma {:induction false} ResultsAreSizes(policy: Policy, environments: seq<Environment>, remote: string -> bool,
                                           result: Result, now: int, python: Python)
    ensures CountResults(policy, environments, remote, result, now, python) ==
      |ResultAt(policy, environments, remote, result, now, python)|
  {
    if environments == [] {
      assert ResultAt(policy, environments, remote, result, now, python) == {};
    } else {
      var front, last := environments[..|environments| - 1], environments[|environments| - 1];
      assert environments == front + [last];
      ResultsAreSizes(policy, front, remote, result, now, python);
      ResultAppended(policy, front, last, remote, result, now, python);
      DisjointSizes(ResultAt(policy, environments, remote, result, now, python),
                    ResultAt(policy, front, remote, result, now, python),
                    if Treat(policy, last, remote(last.id), now, python) == result then {|front|} else {});
    }
  }

  lemma ResultOfOne(policy: Policy, environment: Environment, accepted: bool, now: int, python: Python)
    ensures Treat(policy, environment, accepted, now, python) ==
      if !Needs(policy, environment, now, python) then SkippedEnvironment
      else if Accepts(policy.rule, accepted) then Applied else Failed
  {
  }

  /** The totals: applied are the pushed, failed the others that need the push. */
  lemma TotalsAreSizes(policy: Policy, environments: seq<Environment>, remote: string -> bool, now: int, python: Python)
    ensures var needy := NeedyAt(policy, environments, now, python);
      var pushed := PushedAt(policy, environments, remote, now, python);
      CountResults(policy, environments, remote, Applied, now, python) == |pushed| &&
      CountResults(policy, environments, remote, Failed, now, python) == |needy - pushed|
  {
    var needy := NeedyAt(policy, environments, now, python);
    var pushed := PushedAt(policy, environments, remote, now, python);
    ResultsAreSizes(policy, environments, remote, Applied, now, python);
    ResultsAreSizes(policy, environments, remote, Failed, now, python);
    ResultSets(policy, environments, remote, now, python);
  }

  lemma ResultSets(policy: Policy, environments: seq<Environment>, remote: string -> bool, now: int, python: Python)
    ensures var needy := NeedyAt(policy, environments, now, python);
      var pushed := PushedAt(policy, environments, remote, now, python);
      ResultAt(policy, environments, remote, Applied, now, python) == pushed &&
      ResultAt(policy, environments, remote, Failed, now, python) == needy - pushed
  {
    forall i: nat | i < |environments|
      ensures Treat(policy, environments[i], remote(environments[i].id), now, python) ==
        if i !in NeedyAt(policy, environments, now, python) then SkippedEnvironment
        else if i in PushedAt(policy, environments, remote, now, python) then Applied else Failed
    {
      ResultOfOne(policy, environments[i], remote(environments[i].id), now, python);
    }
  }

  /** When the controllers refuse everything nothing changes, and everything that needs the push fails. */
  lemma AllRefused(policy: Policy, environments: seq<Environment>, remote: string -> bool, now: int, python: Python)
    requires forall i :: 0 <= i < |environments| ==> !remote(environments[i].id)
    ensures PushedAt(policy, environments, remote, now, python) == {}
    ensures forall after :: ExactlyPushed(environments, after, {}, policy.rule) ==> after == environments
  {
  }

  /** When they accept everything, nothing that can be pushed fails. */
  lemma AllAccepted(policy: Policy, environments: seq<Environment>, remote: string -> bool, now: int, python: Python)
    requires Accepts(policy.rule, true) && forall i :: 0 <= i < |environments| ==> remote(environments[i].id)
    ensures NeedyAt(policy, environments, now, python) - PushedAt(policy, environments, remote, now, python) == {}
  {
  }

  datatype Response = Refused(code: string) | Done(applied: nat, failed: nat, skipped: nat, counts: Counts)

  /** One environment of the loop. */
  method TreatOne(hub: Governance, policy: Policy, i: nat, remoteOk: bool, now: int,
                  python: Python) returns (result: Result)
    requires i < |hub.environments|
    modifies hub`environments
    ensures result == Treat(policy, old(hub.environments)[i], remoteOk, now, python)
    ensures hub.environments ==
      old(hub.environments)[i := After(policy, old(hub.environments)[i], remoteOk, now, python)]
  {
    var environment := hub.environments[i];
    if !ScopeMatches(policy, environment) {
      return SkippedEnvironment;
    }
    if EvaluateRule(policy.rule, environment, now, python) == Compliant {
      return SkippedEnvironment;
    }
    if Pushable(policy.rule) && remoteOk {
      hub.environments := hub.environments[i := Remembered(environment, policy.rule)];
      return Applied;
    }
    return Failed;
  }

  /** The loop over the environments. */
  method PushAll(hub: Governance, policy: Policy, remote: string -> bool, now: int, python: Python)
    returns (applied: nat, failed: nat, skipped: nat)
    modifies hub`environments
    ensures hub.environments == AfterAll(policy, old(hub.environments), remote, now, python)
    ensures applied == CountResults(policy, old(hub.environments), remote, Applied, now, python)
    ensures failed == CountResults(policy, old(hub.environments), remote, Failed, now, python)
    ensures skipped == CountResults(policy, old(hub.environments), remote, SkippedEnvironment, now, python)
    ensures ExactlyPushed(old(hub.environments), hub.environments,
                          PushedAt(policy, old(hub.environments), remote, now, python), policy.rule)
  {
    var start := hub.environments;
    applied, failed, skipped := 0, 0, 0;
    for i := 0 to |start|
      invariant hub.environments == AfterAll(policy, start[..i], remote, now, python) + start[i..]
      invariant applied == CountResults(policy, start[..i], remote, Applied, now, python)
      invariant failed == CountResults(policy, start[..i], remote, Failed, now, python)
      invariant skipped == CountResults(policy, start[..i], remote, SkippedEnvironment, now, python)
    {
      OneTreated(policy, start, i, remote, now, python);
      OneCounted(policy, start, i, remote, Applied, now, python);
      OneCounted(policy, start, i, remote, Failed, now, python);
      OneCounted(policy, start, i, remote, SkippedEnvironment, now, python);
      var result := TreatOne(hub, policy, i, remote(start[i].id), now, python);
      match result {
        case Applied => applied := applied + 1;
        case Failed => failed := failed + 1;
        case SkippedEnvironment => skipped := skipped + 1;
      }
    }
    assert start[..|start|] == start && start[|start|..] == [];
    PushedExactly(policy, start, remote, now, python);
  }

  method RemediateFleet(hub: Governance, policyId: string, remote: string -> bool, now: int,
                        python: Python) returns (response: Response)
    requires hub.Valid()
    modifies hub
    ensures hub.Valid() && hub.policies == old(hub.policies)
    ensures var selected := EnabledPolicies(old(hub.policies), Some(policyId));
      if selected == [] || !IsRemediable(selected[0].rule) then
        response.Refused? && hub.environments == old(hub.environments) && hub.results == old(hub.results)
      else
        var policy := selected[0];
        hub.environments == AfterAll(policy, old(hub.environments), remote, now, python) &&
        Written(old(hub.results), hub.results, Pairs([policy], hub.environments), now, python) &&
        response == Done(CountResults(policy, old(hub.environments), remote, Applied, now, python),
                         CountResults(policy, old(hub.environments), remote, Failed, now, python),
                         CountResults(policy, old(hub.environments), remote, SkippedEnvironment, now, python),
                         FleetCounts([policy], hub.environments, now, python))
    ensures response.Done? <==>
      exists p :: p in old(hub.policies) && p.id == policyId && p.enabled &&
        ((p.rule.ControllerSetting? && p.rule.remediate) || (p.rule.NamedResourcePresent? && p.rule.remediate))
    ensures forall p :: p in old(hub.policies) && p.id == policyId && response.Done? ==>
      var needy := NeedyAt(p, old(hub.environments), now, python);
      var pushed := PushedAt(p, old(hub.environments), remote, now, python);
      ExactlyPushed(old(hub.environments), hub.environments, pushed, p.rule) &&
      response.applied == |pushed| && response.failed == |needy - pushed| &&
      response.skipped == |old(hub.environments)| - |needy|
  {
    var selected := EnabledPolicies(hub.policies, Some(policyId));
    if selected == [] {
      return Refused("missing or disabled");
    }
    if !IsRemediable(selected[0].rule) {
      return Refused("not remediable");
    }
    SameIdentities(selected[0], hub.environments, remote, now, python);
    AtMostOneSelected(hub.policies, policyId);
    OnlyPolicyWithId(hub.policies, policyId);
    TotalsAreSizes(selected[0], hub.environments, remote, now, python);
    Conserved(selected[0], hub.environments, remote, now, python);
    NeedySplit(selected[0], hub.environments, remote, now, python);
    var applied, failed, skipped := PushAll(hub, selected[0], remote, now, python);
    var counts := hub.EvaluateFleet(Some(policyId), now, python);
    return Done(applied, failed, skipped, counts);
  }

  lemma NeedySplit(policy: Policy, environments: seq<Environment>, remote: string -> bool, now: int, python: Python)
    ensures var needy := NeedyAt(policy, environments, now, python);
      var pushed := PushedAt(policy, environments, remote, now, python);
      |needy| == |pushed| + |needy - pushed|
  {
    var needy := NeedyAt(policy, environments, now, python);
    var pushed := PushedAt(policy, environments, remote, now, python);
    DisjointSizes(needy, pushed, needy - pushed);
  }

  lemma OnlyPolicyWithId(policies: seq<Policy>, policyId: string)
    requires DistinctPolicies(policies) && EnabledPolicies(policies, Some(policyId)) != []
    ensures forall p :: p in policies && p.id == policyId ==> p == EnabledPolicies(policies, Some(policyId))[0]
  {
    var selected := EnabledPolicies(policies, Some(policyId));
    assert selected[0] in selected;
  }

  lemma AtMostOneSelected(policies: seq<Policy>, policyId: string)
    requires DistinctPolicies(policies)
    ensures var selected := EnabledPolicies(policies, Some(policyId)); selected == [] || selected == [selected[0]]
  {
    var selected := EnabledPolicies(policies, Some(policyId));
    EnabledDistinct(policies, Some(policyId));
    assert forall i :: 0 <= i < |selected| ==> selected[i] in selected && selected[i].id == policyId;
  }

  lemma OneTreated(policy: Policy, start: seq<Environment>, i: nat, remote: string -> bool, now: int, python: Python)
    requires i < |start|
    ensures (AfterAll(policy, start[..i], remote, now, python) + start[i..])[i] == start[i]
    ensures AfterAll(policy, start[..i + 1], remote, now, python) + start[i + 1..] ==
      (AfterAll(policy, start[..i], remote, now, python) + start[i..])
        [i := After(policy, start[i], remote(start[i].id), now, python)]
  {
    assert start[..i + 1][..i] == start[..i];
  }

  lemma OneCounted(policy: Policy, start: seq<Environment>, i: nat, remote: string -> bool, result: Result, now: int,
                   python: Python)
    requires i < |start|
    ensures CountResults(policy, start[..i + 1], remote, result, now, python) ==
      CountResults(policy, start[..i], remote, result, now, python) +
      if Treat(policy, start[i], remote(start[i].id), now, python) == result then 1 else 0
  {
    assert start[..i + 1][..i] == start[..i];
  }

  lemma {:induction false} SameIdentities(policy: Policy, environments: seq<Environment>, remote: string -> bool,
                                          now: int, python: Python)
    requires DistinctEnvironments(environments)
    ensures DistinctEnvironments(AfterAll(policy, environments, remote, now, python))
    ensures forall i :: 0 <= i < |environments| ==>
      AfterAll(policy, environments, remote, now, python)[i].id == environments[i].id
  {
    if environments != [] {
      SameIdentities(policy, environments[..|environments| - 1], remote, now, python);
    }
  }

  // ----- Conservation and convergence -----

  /** Main result: every environment is applied, failed or skipped. */
  lemma {:induction false} Conserved(policy: Policy, environments: seq<Environment>, remote: string -> bool, now: int,
                                     python: Python)
    ensures CountResults(policy, environments, remote, Applied, now, python) +
      CountResults(policy, environments, remote, Failed, now, python) +
      CountResults(policy, environments, remote, SkippedEnvironment, now, python) == |environments|
  {
    if environments != [] {
      Conserved(policy, environments[..|environments| - 1], remote, now, python);
    }
  }

  /** The answer on one environment after the push, in terms of what happened to it. */
  lemma {:induction false} AnswerAfter(policy: Policy, environment: Environment, remoteOk: bool, now: int,
                                       python: Python)
    requires policy.rule.ControllerSetting? || policy.rule.NamedResourcePresent?
    requires Pushable(policy.rule) ==> Recordable(environment, policy.rule)
    ensures var after := After(policy, environment, remoteOk, now, python);
      (ScopeMatches(policy, after) <==> ScopeMatches(policy, environment)) &&
      (ScopeMatches(policy, environment) ==>
        (EvaluateRule(policy.rule, after, now, python) != Compliant <==>
          Treat(policy, environment, remoteOk, now, python).Failed?))
    ensures ScopeMatches(policy, environment) ==>
      (EvaluateRule(policy.rule, After(policy, environment, remoteOk, now, python), now, python) != Compliant <==>
        Needs(policy, environment, now, python) && !Accepts(policy.rule, remoteOk))
  {
    ScopeIgnoresSummary(policy, environment, policy.rule);
    if Pushable(policy.rule) { RememberedIsCompliant(environment, policy.rule, now, python); }
  }

  lemma CountsOnOne(policy: Policy, environment: Environment, remoteOk: bool, now: int, python: Python)
    requires policy.rule.ControllerSetting? || policy.rule.NamedResourcePresent?
    requires Pushable(policy.rule) ==> Recordable(environment, policy.rule)
    ensures var after := After(policy, environment, remoteOk, now, python);
      var result := Treat(policy, environment, remoteOk, now, python);
      CountOn([policy], after, Noncompliant, now, python) + CountOn([policy], after, Unknown, now, python) ==
        (if result.Failed? then 1 else 0) &&
      CountOn([policy], after, Compliant, now, python) == (if result.Applied? then 1 else 0) +
        if ScopeMatches(policy, environment) && EvaluateRule(policy.rule, environment, now, python) == Compliant
        then 1 else 0
  {
    var after := After(policy, environment, remoteOk, now, python);
    AnswerAfter(policy, environment, remoteOk, now, python);
    OutcomesOn([policy], after, now, python);
    CountOne(policy, after, Compliant, now, python);
    CountOne(policy, after, Noncompliant, now, python);
    CountOne(policy, after, Unknown, now, python);
  }

  /** Main result: in the final counts noncompliant and unknown together are the failed pushes, and
      compliant is what was applied or already in order. */
  lemma {:induction false} FinalCounts(policy: Policy, environments: seq<Environment>, remote: string -> bool,
                                       now: int, python: Python)
    requires policy.rule.ControllerSetting? || policy.rule.NamedResourcePresent?
    requires Pushable(policy.rule) ==> forall e :: e in environments ==> Recordable(e, policy.rule)
    ensures var counts := FleetCounts([policy], AfterAll(policy, environments, remote, now, python), now, python);
      counts.noncompliant + counts.unknown == CountResults(policy, environments, remote, Failed, now, python) &&
      counts.compliant ==
        CountResults(policy, environments, remote, Applied, now, python) +
          InScopeSkipped(policy, environments, now, python)
  {
    FinalCountsAll(policy, environments, remote, now, python);
  }

  lemma {:induction false} FinalCountsAll(policy: Policy, environments: seq<Environment>, remote: string -> bool,
                                          now: int, python: Python)
    requires policy.rule.ControllerSetting? || policy.rule.NamedResourcePresent?
    requires Pushable(policy.rule) ==> forall e :: e in environments ==> Recordable(e, policy.rule)
    ensures var after := AfterAll(policy, environments, remote, now, python);
      CountAll([policy], after, Noncompliant, now, python) + CountAll([policy], after, Unknown, now, python) ==
        CountResults(policy, environments, remote, Failed, now, python) &&
      CountAll([policy], after, Compliant, now, python) ==
        CountResults(policy, environments, remote, Applied, now, python) +
          InScopeSkipped(policy, environments, now, python)
  {
    if environments != [] {
      var front, last := environments[..|environments| - 1], environments[|environments| - 1];
      FinalCountsAll(policy, front, remote, now, python);
      CountsOnOne(policy, last, remote(last.id), now, python);
      var done := AfterAll(policy, front, remote, now, python);
      var treated := After(policy, last, remote(last.id), now, python);
      assert AfterAll(policy, environments, remote, now, python) == done + [treated];
      LastCounted(policy, done, treated, Compliant, now, python);
      LastCounted(policy, done, treated, Noncompliant, now, python);
      LastCounted(policy, done, treated, Unknown, now, python);
    }
  }

  lemma LastCounted(policy: Policy, environments: seq<Environment>, last: Environment, answer: Compliance, now: int,
                    python: Python)
    ensures CountAll([policy], environments + [last], answer, now, python) ==
      CountAll([policy], environments, answer, now, python) + CountOn([policy], last, answer, now, python)
  {
    assert (environments + [last])[..|environments|] == environments;
  }

  lemma CountOne(policy: Policy, environment: Environment, answer: Compliance, now: int, python: Python)
    ensures CountOn([policy], environment, answer, now, python) ==
      if ScopeMatches(policy, environment) && EvaluateRule(policy.rule, environment, now, python) == answer
      then 1 else 0
  {
    assert [policy][..0] == [];
    assert CountOn([policy][..0], environment, answer, now, python) == 0;
  }

  lemma TreatedTwice(policy: Policy, environment: Environment, remoteOk: bool, againOk: bool, now: int, python: Python)
    requires policy.rule.ControllerSetting? || policy.rule.NamedResourcePresent?
    requires Pushable(policy.rule) ==> Recordable(environment, policy.rule)
    requires !Treat(policy, environment, remoteOk, now, python).Failed?
    ensures Treat(policy, After(policy, environment, remoteOk, now, python), againOk, now, python) == SkippedEnvironment
  {
    AnswerAfter(policy, environment, remoteOk, now, python);
  }

  lemma {:induction false} NoneFailed(policy: Policy, environments: seq<Environment>, remote: string -> bool, now: int,
                                      python: Python, i: nat)
    requires CountResults(policy, environments, remote, Failed, now, python) == 0 && i < |environments|
    ensures !Treat(policy, environments[i], remote(environments[i].id), now, python).Failed?
  {
    if i < |environments| - 1 {
      NoneFailed(policy, environments[..|environments| - 1], remote, now, python, i);
    }
  }

  lemma {:induction false} AllSkipped(policy: Policy, environments: seq<Environment>, remote: string -> bool, now: int,
                                      python: Python)
    requires forall i :: 0 <= i < |environments| ==>
      Treat(policy, environments[i], remote(environments[i].id), now, python) == SkippedEnvironment
    ensures CountResults(policy, environments, remote, SkippedEnvironment, now, python) == |environments|
    ensures AfterAll(policy, environments, remote, now, python) == environments
  {
    if environments != [] {
      AllSkipped(policy, environments[..|environments| - 1], remote, now, python);
    }
  }

  /** Main result: after a run without failures a second run skips every environment and changes none. */
  lemma {:induction false} SecondRunApplies(policy: Policy, environments: seq<Environment>, remote: string -> bool,
                                            again: string -> bool, now: int, python: Python)
    requires policy.rule.ControllerSetting? || policy.rule.NamedResourcePresent?
    requires Pushable(policy.rule) ==> forall e :: e in environments ==> Recordable(e, policy.rule)
    requires CountResults(policy, environments, remote, Failed, now, python) == 0
    ensures var after := AfterAll(policy, environments, remote, now, python);
      CountResults(policy, after, again, SkippedEnvironment, now, python) == |environments| &&
      AfterAll(policy, after, again, now, python) == after
  {
    var after := AfterAll(policy, environments, remote, now, python);
    forall i | 0 <= i < |after| ensures Treat(policy, after[i], again(after[i].id), now, python) == SkippedEnvironment {
      AfterAllAt(policy, environments, remote, now, python, i);
      NoneFailed(policy, environments, remote, now, python, i);
      TreatedTwice(policy, environments[i], remote(environments[i].id), again(after[i].id), now, python);
    }
    AllSkipped(policy, after, again, now, python);
  }
}
