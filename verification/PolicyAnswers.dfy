/** What each policy rule measures, in terms of the environment alone (backend/app/services/policies.py). */
module PolicyAnswers {
  import opened Common
  import opened Policies

  // ----- Scope -----

  /** The scope conditions are independent: each one takes away exactly the environments that miss it. */
  lemma ScopeNarrows(policy: Policy, environment: Environment, kind: string, capability: string, tag: string)
    requires kind != "" && capability != ""
    ensures ScopeMatches(policy.(scope := policy.scope.(tags := policy.scope.tags + {tag})), environment) <==>
      ScopeMatches(policy, environment) && tag in environment.tags
    ensures ScopeMatches(policy.(scope := policy.scope.(kind := kind)), environment) <==>
      ScopeMatches(policy.(scope := policy.scope.(kind := "")), environment) &&
      kind == (if environment.kind == "orchestrator" then "orchestrator" else "aap")
    ensures ScopeMatches(policy.(scope := policy.scope.(capability := capability)), environment) <==>
      ScopeMatches(policy.(scope := policy.scope.(capability := "")), environment) &&
      capability in environment.capabilities &&
      environment.capabilities[capability] !in
        {Null, Bool(false), Number(0.0), Text(""), List([]), Object(map[])}
  {
    var tags := policy.scope.tags;
    assert tags + {tag} <= environment.tags <==> tags <= environment.tags && tag in environment.tags;
  }

  /** What is left of the scope when it names nothing: the product decides. */
  lemma ScopeByProduct(policy: Policy, environment: Environment)
    requires policy.scope == Scope("", "", {})
    ensures environment.kind == "orchestrator" ==>
      match policy.rule
      case ControllerSetting(_, _, _) => !ScopeMatches(policy, environment)
      case NamedResourcePresent(_, _, _, _, _) => !ScopeMatches(policy, environment)
      case MaxFailedJobs(_) => !ScopeMatches(policy, environment)
      case ComponentHostsMatchGateway => !ScopeMatches(policy, environment)
      case RequireVersionPrefix(_) => !ScopeMatches(policy, environment)
      case ComponentEnabled(s) => ScopeMatches(policy, environment) <==> s in {"", "orchestrator"}
      case MinServiceSummaryValue(s, _, _) => ScopeMatches(policy, environment) <==> s == "orchestrator"
      case _ => ScopeMatches(policy, environment)
    ensures environment.kind != "orchestrator" ==>
      match policy.rule
      case MaxFailedExecutions(_) => !ScopeMatches(policy, environment)
      case ComponentEnabled(s) => ScopeMatches(policy, environment) <==> s != "orchestrator"
      case MinServiceSummaryValue(s, _, _) => ScopeMatches(policy, environment) <==> s != "orchestrator"
      case _ => ScopeMatches(policy, environment)
  {
  }

  // ----- Values -----

  /** No part of the value is a number or a truth value. */
  predicate WithoutNumbers(value: Json)
  {
    match value
    case Bool(_) => false
    case Number(_) => false
    case List(items) => forall i :: 0 <= i < |items| ==> WithoutNumbers(items[i])
    case Object(fields) => forall k :: k in fields ==> WithoutNumbers(fields[k])
    case _ => true
  }

  /** Apart from numbers Python's == is identity; among numbers True is 1 and False is 0. */
  lemma {:induction false} PythonEqualIsIdentity(left: Json, right: Json)
    requires WithoutNumbers(left) || WithoutNumbers(right)
    ensures PythonEqual(left, right) <==> left == right
  {
    match (left, right)
    case (List(a), List(b)) =>
      forall i | 0 <= i < |a| && |a| == |b| ensures PythonEqual(a[i], b[i]) <==> a[i] == b[i] {
        PythonEqualIsIdentity(a[i], b[i]);
      }
    case (Object(a), Object(b)) =>
      forall k | k in a && k in b ensures PythonEqual(a[k], b[k]) <==> a[k] == b[k] {
        PythonEqualIsIdentity(a[k], b[k]);
      }
    case _ =>
  }

  lemma PythonEqualNumbers(a: real, b: real, flag: bool)
    ensures PythonEqual(Number(a), Number(b)) <==> a == b
    ensures PythonEqual(Bool(flag), Number(a)) <==> a == if flag then 1.0 else 0.0
    ensures PythonEqual(Bool(true), Bool(true)) && !PythonEqual(Bool(true), Bool(false))
  {
  }

  /** Two texts are the same setting exactly when they agree but for case, are both words for true or
      both for false, or read as the same number. */
  lemma TextsAgree(a: string, b: string, python: Python)
    requires a == b ==> python.lowerText(Text(a)) == python.lowerText(Text(b))
    ensures ValuesEqual(Text(a), Text(b), python) <==>
      var l, r := python.lowerText(Text(a)), python.lowerText(Text(b));
      l == r || {l, r} <= {"true", "1", "yes"} || {l, r} <= {"false", "0", "no"} || python.sameFloat(Text(a), Text(b))
  {
  }

  /** A truth value is the same setting as a text exactly when the text is a word for it or its own text. */
  lemma FlagAndText(flag: bool, b: string, python: Python)
    requires python.lowerText(Bool(flag)) == if flag then "true" else "false"
    ensures ValuesEqual(Bool(flag), Text(b), python) <==>
      python.lowerText(Text(b)) in (if flag then {"true", "1", "yes"} else {"false", "0", "no"})
  {
    assert "true"[0] == 't' && "false"[0] == 'f';
    assert "true" !in {"false", "0", "no"} && "false" !in {"true", "1", "yes"};
  }

  // ----- Flags and thresholds -----

  lemma TlsFollowsTheFlag(environment: Environment, now: int, python: Python)
    ensures EvaluateRule(RequireTlsVerification, environment.(verifySsl := true), now, python) == Compliant
    ensures EvaluateRule(RequireTlsVerification, environment.(verifySsl := false), now, python) == Noncompliant
  {
  }

  /** The environment with one value in the summary of a service. */
  function WithValue(environment: Environment, service: string, key: string, value: int): Environment
  {
    var summary := if service in environment.services then environment.services[service]
      else ServiceSummary(map[], None);
    environment.(services := environment.services[service := summary.(values := summary.values[key := value])])
  }

  /** The answer to "value at most threshold": the threshold itself passes, one more does not. */
  ghost predicate AtMost(rule: Rule, at: int -> Environment, threshold: int, now: int, python: Python)
  {
    forall value :: EvaluateRule(rule, at(value), now, python) == if value <= threshold then Compliant else Noncompliant
  }

  ghost predicate AtLeast(rule: Rule, at: int -> Environment, threshold: int, now: int, python: Python)
  {
    forall value :: EvaluateRule(rule, at(value), now, python) == if value >= threshold then Compliant else Noncompliant
  }

  /** Each upper bound is a bound on its own datum, and on nothing else of the environment. */
  lemma UpperBounds(environment: Environment, threshold: int, now: int, python: Python)
    ensures AtMost(MaxSyncIntervalMinutes(threshold), v => environment.(syncInterval := v), threshold, now, python)
    ensures AtMost(MaxFailedJobs(threshold), v => WithValue(environment, "controller", "failed_jobs_recent", v),
                   threshold, now, python)
    ensures AtMost(MaxFailedExecutions(threshold),
                   v => WithValue(environment, "orchestrator", "failed_executions_recent", v), threshold, now, python)
  {
  }

  lemma LowerBounds(environment: Environment, service: string, key: string, threshold: int, now: int, python: Python)
    requires Trimmed(service, PythonSpace) && Trimmed(key, PythonSpace)
    ensures AtLeast(MinHealthScore(threshold), v => environment.(healthScore := v), threshold, now, python)
    ensures AtLeast(MinServiceSummaryValue(service, key, threshold), v => WithValue(environment, service, key, v),
                    threshold, now, python)
  {
  }

  /** A value the summary does not hold counts as zero. */
  lemma MissingIsZero(environment: Environment, service: string, key: string, threshold: int, now: int, python: Python)
    requires Trimmed(service, PythonSpace) && Trimmed(key, PythonSpace)
    requires service !in environment.services || key !in environment.services[service].values
    ensures EvaluateRule(MinServiceSummaryValue(service, key, threshold), environment, now, python) ==
      if threshold <= 0 then Compliant else Noncompliant
    ensures service == "controller" && key == "failed_jobs_recent" ==>
      EvaluateRule(MaxFailedJobs(threshold), environment, now, python) ==
      if threshold >= 0 then Compliant else Noncompliant
  {
  }

  /** An environment synchronized some seconds ago is too old from the first second of the minute after
      the threshold; one that was never synchronized always is. */
  lemma AgeInSeconds(environment: Environment, threshold: nat, seconds: nat, now: int, python: Python)
    ensures var synced := environment.(lastSyncedAt := Some(now - seconds));
      EvaluateRule(MaxSyncAgeMinutes(threshold), synced, now, python) ==
      if seconds < 60 * (threshold + 1) then Compliant else Noncompliant
    ensures EvaluateRule(MaxSyncAgeMinutes(threshold), environment.(lastSyncedAt := None), now, python) == Noncompliant
  {
  }

  /** The reported version starts with the trimmed prefix; no version reads as the empty one. */
  lemma VersionByPrefix(prefix: string, version: string, environment: Environment, now: int, python: Python)
    requires Trimmed(prefix, PythonSpace)
    ensures EvaluateRule(RequireVersionPrefix(prefix), environment.(version := Some(version)), now, python) ==
      if |version| >= |prefix| && version[..|prefix|] == prefix then Compliant else Noncompliant
    ensures EvaluateRule(RequireVersionPrefix(prefix), environment.(version := None), now, python) ==
      if prefix == "" then Compliant else Noncompliant
  {
    assert prefix <= version <==> |version| >= |prefix| && version[..|prefix|] == prefix;
  }

  // ----- Components -----

  lemma ComponentByUrl(service: string, url: Url, environment: Environment, now: int, python: Python)
    ensures var configured := environment.(urls := environment.urls[service := url]);
      EvaluateRule(ComponentEnabled(service), configured, now, python) == Compliant
    ensures var missing := environment.(urls := environment.urls - {service});
      EvaluateRule(ComponentEnabled(service), missing, now, python) == Noncompliant
  {
  }

  /** Without a gateway the answer is unknown; without components it is compliant; a component on the
      gateway's host changes nothing, and one on another host makes it noncompliant. */
  lemma HostsByGateway(environment: Environment, service: string, host: string, gateway: string, now: int,
                       python: Python)
    requires service in {"controller", "eda", "hub"} && host != "" && gateway != ""
    requires "gateway" in environment.urls && environment.urls["gateway"] == Url(Some(gateway))
    ensures var without := environment.(urls := environment.urls - {"gateway"});
      EvaluateRule(ComponentHostsMatchGateway, without, now, python) == Unknown
    ensures var alone := environment.(urls := map["gateway" := Url(Some(gateway))]);
      EvaluateRule(ComponentHostsMatchGateway, alone, now, python) == Compliant
    ensures var same := environment.(urls := environment.urls[service := Url(Some(gateway))]);
      service !in environment.urls ==>
        EvaluateRule(ComponentHostsMatchGateway, same, now, python) ==
        EvaluateRule(ComponentHostsMatchGateway, environment, now, python)
    ensures var other := environment.(urls := environment.urls[service := Url(Some(host))]);
      host != gateway ==> EvaluateRule(ComponentHostsMatchGateway, other, now, python) == Noncompliant
  {
    assert "gateway" !in {"controller", "eda", "hub"};
  }

  // ----- Capabilities -----

  /** A capability is present unless it is missing, null or blank. */
  lemma PresentByValue(capability: string, value: Json, environment: Environment, now: int, python: Python)
    requires Trimmed(capability, PythonSpace)
    ensures var e := environment.(capabilities := environment.capabilities[capability := value]);
      EvaluateRule(CapabilityPresent(capability), e, now, python) ==
      if value == Null || (value.Text? && forall k :: 0 <= k < |value.s| ==> PythonSpace(value.s[k])) then Noncompliant
      else Compliant
    ensures var e := environment.(capabilities := environment.capabilities - {capability});
      EvaluateRule(CapabilityPresent(capability), e, now, python) == Noncompliant
  {
  }

  /** It is enabled if it is true, a positive number or a text that is not blank. */
  lemma EnabledByValue(capability: string, value: Json, environment: Environment, now: int, python: Python)
    requires Trimmed(capability, PythonSpace)
    ensures var e := environment.(capabilities := environment.capabilities[capability := value]);
      EvaluateRule(CapabilityTruthy(capability), e, now, python) ==
      if value == Bool(true) || (value.Number? && value.n > 0.0) ||
         (value.Text? && exists k :: 0 <= k < |value.s| && !PythonSpace(value.s[k]))
      then Compliant else Noncompliant
    ensures var e := environment.(capabilities := environment.capabilities - {capability});
      EvaluateRule(CapabilityTruthy(capability), e, now, python) == Noncompliant
  {
  }

  // ----- Configuration -----

  /** The environment with this controller configuration. */
  function WithConfig(environment: Environment, config: Config): Environment
  {
    environment.(services := environment.services["controller" := ServiceSummary(map[], Some(config))])
  }

  /** A stored setting is judged by the comparison of values, a missing one is unknown. */
  lemma SettingByValue(key: string, stored: Json, wanted: Json, remediate: bool, config: Config,
                       environment: Environment, now: int, python: Python)
    requires key != "" && Trimmed(key, PythonSpace) && config.settings.Some?
    ensures var e := WithConfig(environment, config.(settings := Some(config.settings.value[key := stored])));
      EvaluateRule(ControllerSetting(key, wanted, remediate), e, now, python) ==
      if ValuesEqual(stored, wanted, python) then Compliant else Noncompliant
    ensures var e := WithConfig(environment, config.(settings := Some(config.settings.value - {key})));
      EvaluateRule(ControllerSetting(key, wanted, remediate), e, now, python) == Unknown
    ensures var e := WithConfig(environment, config.(settings := None));
      EvaluateRule(ControllerSetting(key, wanted, remediate), e, now, python) == Unknown
    ensures EvaluateRule(ControllerSetting("", wanted, remediate), environment, now, python) == Unknown
  {
  }

  /** Where the names of each kind are read from. */
  lemma ResourcesByKind(config: Config, environment: Environment, names: seq<string>, name: string)
    requires name != ""
    ensures HasResource(WithConfig(environment, config.(organizations := Some(names))), "organization", name) <==>
      name in names
    ensures HasResource(WithConfig(environment, config.(instanceGroups := Some(names))), "instance_group", name) <==>
      name in names
    ensures var eda := ServiceSummary(map[], Some(EmptyConfig.(decisionEnvironments := Some(names))));
      HasResource(environment.(services := environment.services["eda" := eda]), "decision_environment", name) <==>
      name in names
    ensures var e := WithConfig(environment, config.(executionEnvironments := Some([Entry(Some(name), None, None)])));
      HasResource(e, "execution_environment", name)
    ensures var e := WithConfig(environment, config.(executionEnvironments := Some([])));
      !HasResource(e, "execution_environment", name)
    ensures HasResource(environment, "project", name) == false
  {
    assert Names([Entry(Some(name), None, None)][0], name);
  }

  /** A missing resource is noncompliant as soon as the controller returned any configuration, and for
      decision environments always; otherwise it is unknown, like a resource without a name. */
  lemma MissingResource(resourceType: string, name: string, remediate: bool, environment: Environment, now: int,
                        python: Python)
    requires Trimmed(resourceType, PythonSpace) && !HasResource(environment, resourceType, Trim(name, PythonSpace))
    ensures EvaluateRule(NamedResourcePresent(resourceType, name, remediate, None, None), environment, now, python) ==
      if Trim(name, PythonSpace) == "" then Unknown
      else if resourceType == "decision_environment" then Noncompliant
      else if "controller" in environment.services && environment.services["controller"].config.Some? &&
              environment.services["controller"].config.value != Config(None, None, None, None, None, false)
      then Noncompliant
      else Unknown
  {
  }

  lemma UnrecognizedIsUnknown(environment: Environment, now: int, python: Python)
    ensures EvaluateRule(Unrecognized, environment, now, python) == Unknown
  {
  }
}
