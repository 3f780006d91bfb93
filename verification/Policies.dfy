/** Policy rules and their scope (backend/app/services/policies.py, backend/app/services/platform_config.py). */
module Policies {
  import opened Common

  datatype Json =
    | Null
    | Bool(b: bool)
    | Number(n: real)
    | Text(s: string)
    | List(items: seq<Json>)
    | Object(fields: map<string, Json>)

  /** Python's str(value).lower() and float(left) == float(right), the latter false where it raises. */
  datatype Python = Python(lowerText: Json -> string, sameFloat: (Json, Json) -> bool)

  // ----- Environments -----

  /** An execution environment record, or the bare name older data may hold. */
  datatype ExecutionEnvironment = Entry(name: Option<string>, image: Option<string>,
                                        pull: Option<string>) | Bare(text: string)

  /** A "config" dictionary; None where the key is missing. extra: it holds other keys. */
  datatype Config = Config(settings: Option<map<string, Json>>, organizations: Option<seq<string>>,
                           executionEnvironments: Option<seq<ExecutionEnvironment>>,
                           instanceGroups: Option<seq<string>>,
                           decisionEnvironments: Option<seq<string>>, extra: bool)

  const EmptyConfig := Config(None, None, None, None, None, false)

  datatype ServiceSummary = ServiceSummary(values: map<string, int>, config: Option<Config>)

  datatype Url = Url(host: Option<string>)

  datatype Environment = Environment(id: string, name: string, kind: string, tags: set<string>,
                                     capabilities: map<string, Json>,
                                     verifySsl: bool, syncInterval: int, version: Option<string>,
                                     lastSyncedAt: Option<int>,
                                     urls: map<string, Url>, healthScore: int, services: map<string, ServiceSummary>)

  function KindOf(environment: Environment): string
  {
    if environment.kind == "orchestrator" then "orchestrator" else "aap"
  }

  function ServiceConfig(environment: Environment, service: string): Config
  {
    if service in environment.services && environment.services[service].config.Some?
    then environment.services[service].config.value else EmptyConfig
  }

  function ServiceValue(environment: Environment, service: string, key: string): int
  {
    if service in environment.services && key in environment.services[service].values
    then environment.services[service].values[key] else 0
  }

  function OrEmpty<T>(items: Option<seq<T>>): seq<T>
  {
    if items.Some? then items.value else []
  }

  // ----- Policies -----

  datatype Scope = Scope(kind: string, capability: string, tags: set<string>)

  /** The rule types the code distinguishes. create: the name the creation payload carries, if any. */
  datatype Rule =
    | RequireTlsVerification
    | MaxSyncIntervalMinutes(threshold: int)
    | RequireVersionPrefix(prefix: string)
    | MaxSyncAgeMinutes(threshold: int)
    | ComponentEnabled(service: string)
    | MaxFailedJobs(threshold: int)
    | MaxFailedExecutions(threshold: int)
    | MinHealthScore(threshold: int)
    | CapabilityPresent(capability: string)
    | CapabilityTruthy(capability: string)
    | MinServiceSummaryValue(service: string, key: string, threshold: int)
    | ComponentHostsMatchGateway
    | ControllerSetting(key: string, value: Json, remediate: bool)
    | NamedResourcePresent(resourceType: string, name: string, remediate: bool, image: Option<string>,
                           pull: Option<string>)
    | Unrecognized

  datatype Policy = Policy(id: string, name: string, enabled: bool, scope: Scope, rule: Rule)

  datatype Compliance = Compliant | Noncompliant | Unknown

  // ----- Scope -----

  predicate Truthy(value: Json)
  {
    match value
    case Null => false
    case Bool(b) => b
    case Number(n) => n != 0.0
    case Text(s) => s != ""
    case List(items) => items != []
    case Object(fields) => fields != map[]
  }

  predicate RuleAppliesToKind(rule: Rule, kind: string)
  {
    if kind == "orchestrator" then
      match rule
      case ControllerSetting(_, _, _) => false
      case MaxFailedJobs(_) => false
      case NamedResourcePresent(_, _, _, _, _) => false
      case ComponentHostsMatchGateway => false
      case RequireVersionPrefix(_) => false
      case ComponentEnabled(service) => service == "" || service == "orchestrator"
      case MinServiceSummaryValue(service, _, _) => service == "orchestrator"
      case _ => true
    else
      match rule
      case MaxFailedExecutions(_) => false
      case ComponentEnabled(service) => service != "orchestrator"
      case MinServiceSummaryValue(service, _, _) => service != "orchestrator"
      case _ => true
  }

  predicate ScopeMatches(policy: Policy, environment: Environment)
  {
    var scope := policy.scope;
    (scope.kind == "" || KindOf(environment) == scope.kind) &&
    (scope.capability == "" ||
      (scope.capability in environment.capabilities && Truthy(environment.capabilities[scope.capability]))) &&
    scope.tags <= environment.tags &&
    RuleAppliesToKind(policy.rule, KindOf(environment))
  }

  // ----- Comparing values -----

  function Numeric(value: Json): Option<real>
  {
    match value
    case Bool(b) => Some(if b then 1.0 else 0.0)
    case Number(n) => Some(n)
    case _ => None
  }

  /** Python's ==: True equals 1, lists and dictionaries compare by their members. */
  predicate PythonEqual(left: Json, right: Json)
  {
    match (left, right)
    case (Null, Null) => true
    case (Text(a), Text(b)) => a == b
    case (List(a), List(b)) => |a| == |b| && forall i :: 0 <= i < |a| ==> PythonEqual(a[i], b[i])
    case (Object(a), Object(b)) => a.Keys == b.Keys && forall k :: k in a ==> PythonEqual(a[k], b[k])
    case _ => Numeric(left).Some? && Numeric(left) == Numeric(right)
  }

  predicate ValuesEqual(left: Json, right: Json, python: Python)
  {
    var l, r := python.lowerText(left), python.lowerText(right);
    PythonEqual(left, right) ||
    (l in {"true", "1", "yes"} && r in {"true", "1", "yes"}) ||
    (l in {"false", "0", "no"} && r in {"false", "0", "no"}) ||
    (!left.Bool? && !right.Bool? && python.sameFloat(left, right)) ||
    l == r
  }

  lemma {:induction false} PythonEqualReflexive(value: Json)
    ensures PythonEqual(value, value)
  {
    match value
    case List(items) =>
      forall i | 0 <= i < |items| ensures PythonEqual(items[i], items[i]) {
        PythonEqualReflexive(items[i]);
      }
    case Object(fields) =>
      forall k | k in fields ensures PythonEqual(fields[k], fields[k]) {
        PythonEqualReflexive(fields[k]);
      }
    case _ =>
  }

  lemma {:induction false} PythonEqualSymmetric(left: Json, right: Json)
    ensures PythonEqual(left, right) <==> PythonEqual(right, left)
  {
    match (left, right)
    case (List(a), List(b)) =>
      forall i | 0 <= i < |a| && |a| == |b| ensures PythonEqual(a[i], b[i]) <==> PythonEqual(b[i], a[i]) {
        PythonEqualSymmetric(a[i], b[i]);
      }
    case (Object(a), Object(b)) =>
      forall k | k in a && k in b ensures PythonEqual(a[k], b[k]) <==> PythonEqual(b[k], a[k]) {
        PythonEqualSymmetric(a[k], b[k]);
      }
    case _ =>
  }

  /** The comparison of settings is reflexive and symmetric. */
  lemma ValuesEqualLaws(left: Json, right: Json, python: Python)
    requires forall a, b :: python.sameFloat(a, b) == python.sameFloat(b, a)
    ensures ValuesEqual(left, left, python)
    ensures ValuesEqual(left, right, python) <==> ValuesEqual(right, left, python)
  {
    PythonEqualReflexive(left);
    PythonEqualSymmetric(left, right);
  }

  /** It is not transitive: the text "1.0" equals the number 1, which equals True, but "1.0" and True differ. */
  lemma ValuesEqualIsNotTransitive(python: Python)
    requires python.lowerText(Text("1.0")) == "1.0" && python.lowerText(Number(1.0)) == "1" &&
      python.lowerText(Bool(true)) == "true"
    requires python.sameFloat(Text("1.0"), Number(1.0))
    ensures ValuesEqual(Text("1.0"), Number(1.0), python) && ValuesEqual(Number(1.0), Bool(true), python)
    ensures !ValuesEqual(Text("1.0"), Bool(true), python)
  {
  }

  // ----- Rules -----

  function Verdict(holds: bool): Compliance
  {
    if holds then Compliant else Noncompliant
  }

  /** int(x / 60): rounded toward zero. */
  function WholeMinutes(seconds: int): int
  {
    if seconds >= 0 then seconds / 60 else -(-seconds / 60)
  }

  predicate Present(capabilities: map<string, Json>, capability: string)
  {
    capability in capabilities &&
    match capabilities[capability]
    case Text(s) => Trim(s, PythonSpace) != ""
    case value => !value.Null?
  }

  predicate Enabled(capabilities: map<string, Json>, capability: string)
  {
    capability in capabilities &&
    match capabilities[capability]
    case Bool(b) => b
    case Text(s) => Trim(s, PythonSpace) != ""
    case Number(n) => n > 0.0
    case _ => false
  }

  /** A component on another host than the gateway. */
  predicate Bypasses(environment: Environment, service: string)
  {
    "gateway" in environment.urls && service in environment.urls &&
    environment.urls[service].host.Some? && environment.urls["gateway"].host.Some? &&
    environment.urls[service].host.value != "" && environment.urls["gateway"].host.value != "" &&
    environment.urls[service].host != environment.urls["gateway"].host
  }

  function NamesOf(names: Option<seq<string>>): set<string>
  {
    set n | n in OrEmpty(names) && n != ""
  }

  predicate Names(item: ExecutionEnvironment, name: string)
  {
    match item
    case Entry(n, _, _) => n == Some(name) && name != ""
    case Bare(text) => text == name && Trim(text, PythonSpace) != ""
  }

  /** name in _resource_names(environment, resource_type) */
  predicate HasResource(environment: Environment, resourceType: string, name: string)
  {
    var config := ServiceConfig(environment, "controller");
    if resourceType == "organization" then name in NamesOf(config.organizations)
    else if resourceType == "execution_environment" then
      exists item :: item in OrEmpty(config.executionEnvironments) && Names(item, name)
    else if resourceType == "instance_group" then name in NamesOf(config.instanceGroups)
    else if resourceType == "decision_environment" then
      name in NamesOf(ServiceConfig(environment, "eda").decisionEnvironments)
    else false
  }

  predicate NoResources(environment: Environment, resourceType: string)
  {
    var config := ServiceConfig(environment, "controller");
    if resourceType == "organization" then NamesOf(config.organizations) == {}
    else if resourceType == "execution_environment" then
      forall item :: item in OrEmpty(config.executionEnvironments) ==>
        match item
        case Entry(n, _, _) => n == None || n == Some("")
        case Bare(text) => Trim(text, PythonSpace) == ""
    else if resourceType == "instance_group" then NamesOf(config.instanceGroups) == {}
    else if resourceType == "decision_environment" then
      NamesOf(ServiceConfig(environment, "eda").decisionEnvironments) == {}
    else true
  }

  /** "No inventory" is the emptiness of the same set of names that membership is asked of. */
  lemma NoResourcesMeansNone(environment: Environment, resourceType: string)
    ensures NoResources(environment, resourceType) <==> forall name :: !HasResource(environment, resourceType, name)
  {
    if resourceType == "execution_environment" {
      var items := OrEmpty(ServiceConfig(environment, "controller").executionEnvironments);
      if !NoResources(environment, resourceType) {
        var item :| item in items &&
          match item case Entry(n, _, _) => n.Some? && n.value != "" case Bare(text) => Trim(text, PythonSpace) != "";
        var name := if item.Bare? then item.text else item.name.value;
        assert Names(item, name);
        assert HasResource(environment, resourceType, name);
      }
    } else if !NoResources(environment, resourceType) {
      var names := if resourceType == "organization" then ServiceConfig(environment, "controller").organizations
        else if resourceType == "instance_group" then ServiceConfig(environment, "controller").instanceGroups
        else ServiceConfig(environment, "eda").decisionEnvironments;
      var name :| name in NamesOf(names);
      assert HasResource(environment, resourceType, name);
    }
  }

  /** _evaluate_rule at time now, in seconds. */
  function EvaluateRule(rule: Rule, environment: Environment, now: int, python: Python): Compliance
  {
    match rule
    case RequireTlsVerification => Verdict(environment.verifySsl)
    case MaxSyncIntervalMinutes(threshold) => Verdict(environment.syncInterval <= threshold)
    case RequireVersionPrefix(prefix) =>
      Verdict(Trim(prefix, PythonSpace) <= (if environment.version.Some? then environment.version.value else ""))
    case MaxSyncAgeMinutes(threshold) =>
      Verdict(environment.lastSyncedAt.Some? && WholeMinutes(now - environment.lastSyncedAt.value) <= threshold)
    case ComponentEnabled(service) => Verdict(service in environment.urls)
    case MaxFailedJobs(threshold) => Verdict(ServiceValue(environment, "controller", "failed_jobs_recent") <= threshold)
    case MaxFailedExecutions(threshold) =>
      Verdict(ServiceValue(environment, "orchestrator", "failed_executions_recent") <= threshold)
    case MinHealthScore(threshold) => Verdict(environment.healthScore >= threshold)
    case CapabilityPresent(capability) => Verdict(Present(environment.capabilities, Trim(capability, PythonSpace)))
    case CapabilityTruthy(capability) => Verdict(Enabled(environment.capabilities, Trim(capability, PythonSpace)))
    case MinServiceSummaryValue(service, key, threshold) =>
      Verdict(ServiceValue(environment, Trim(service, PythonSpace), Trim(key, PythonSpace)) >= threshold)
    case ComponentHostsMatchGateway =>
      if "gateway" !in environment.urls then Unknown
      else
        Verdict(!Bypasses(environment, "controller") && !Bypasses(environment, "eda") && !Bypasses(environment, "hub"))
    case ControllerSetting(key, value, _) =>
      var setting := Trim(key, PythonSpace);
      var settings := ServiceConfig(environment, "controller").settings;
      if setting == "" || settings.None? || setting !in settings.value then Unknown
      else Verdict(ValuesEqual(settings.value[setting], value, python))
    case NamedResourcePresent(resourceType, name, _, _, _) =>
      var kind, wanted := Trim(resourceType, PythonSpace), Trim(name, PythonSpace);
      if wanted == "" then Unknown
      else if NoResources(environment, kind) && ServiceConfig(environment, "controller") == EmptyConfig &&
              kind != "decision_environment" then Unknown
      else Verdict(HasResource(environment, kind, wanted))
    case Unrecognized => Unknown
  }

  /** A named resource policy is compliant exactly when it names a resource and the resource is there. */
  lemma NamedResourceAnswer(rule: Rule, environment: Environment, now: int, python: Python)
    requires rule.NamedResourcePresent?
    ensures EvaluateRule(rule, environment, now, python) == Compliant <==>
      Trim(rule.name, PythonSpace) != "" &&
      HasResource(environment, Trim(rule.resourceType, PythonSpace), Trim(rule.name, PythonSpace))
  {
    NoResourcesMeansNone(environment, Trim(rule.resourceType, PythonSpace));
  }

  /** The rule demands at most as much as the strict one: same kind, a looser threshold. */
  predicate Looser(loose: Rule, strict: Rule)
  {
    match (loose, strict)
    case (MaxSyncIntervalMinutes(a), MaxSyncIntervalMinutes(b)) => a >= b
    case (MaxSyncAgeMinutes(a), MaxSyncAgeMinutes(b)) => a >= b
    case (MaxFailedJobs(a), MaxFailedJobs(b)) => a >= b
    case (MaxFailedExecutions(a), MaxFailedExecutions(b)) => a >= b
    case (MinHealthScore(a), MinHealthScore(b)) => a <= b
    case (MinServiceSummaryValue(s, k, a), MinServiceSummaryValue(t, l, b)) => s == t && k == l && a <= b
    case (RequireVersionPrefix(a), RequireVersionPrefix(b)) => Trim(a, PythonSpace) <= Trim(b, PythonSpace)
    case _ => false
  }

  /** Loosening a rule never turns a compliant environment noncompliant. */
  lemma LooserRuleKeepsCompliance(loose: Rule, strict: Rule, environment: Environment, now: int, python: Python)
    requires Looser(loose, strict) && EvaluateRule(strict, environment, now, python) == Compliant
    ensures EvaluateRule(loose, environment, now, python) == Compliant
  {
  }

  /** Time alone can change only the age rule, and only from compliant to noncompliant. */
  lemma TimeOnlyAges(rule: Rule, environment: Environment, earlier: int, later: int, python: Python)
    requires earlier <= later
    ensures !rule.MaxSyncAgeMinutes? ==>
      EvaluateRule(rule, environment, earlier, python) == EvaluateRule(rule, environment, later, python)
    ensures EvaluateRule(rule, environment, later, python) == Compliant ==>
      EvaluateRule(rule, environment, earlier, python) == Compliant
  {
    if environment.lastSyncedAt.Some? {
      WholeMinutesMonotone(earlier - environment.lastSyncedAt.value, later - environment.lastSyncedAt.value);
    }
  }

  lemma WholeMinutesMonotone(a: int, b: int)
    requires a <= b
    ensures WholeMinutes(a) <= WholeMinutes(b)
  {
  }
}
