/** Evaluating policies over the fleet (backend/app/services/policies.py, evaluate_policies and evaluate_fleet). */
module FleetEvaluation {
  import opened Common
  import opened Policies

  datatype Outcome = Skipped | Of(compliance: Compliance)

  datatype Check = Check(environmentId: string, outcome: Outcome)

  datatype Counts = Counts(evaluated: nat, compliant: nat, noncompliant: nat, unknown: nat, skipped: nat,
                           environments: nat, checks: seq<Check>)

  function Rank(outcome: Outcome): int
  {
    match outcome
    case Skipped => 0
    case Of(Compliant) => 1
    case Of(Unknown) => 2
    case Of(Noncompliant) => 3
  }

  /** _worse_compliance */
  function Worse(current: Outcome, incoming: Outcome): Outcome
  {
    if Rank(incoming) >= Rank(current) then incoming else current
  }

  // ----- What an evaluation means -----

  /** Some policy in scope has this answer on the environment. */
  predicate Answers(policies: seq<Policy>, environment: Environment, answer: Compliance, now: int, python: Python)
  {
    exists p :: p in policies && ScopeMatches(p, environment) &&
      EvaluateRule(p.rule, environment, now, python) == answer
  }

  /** The worst answer, without an order of the policies. */
  function Worst(policies: seq<Policy>, environment: Environment, now: int, python: Python): Outcome
  {
    if Answers(policies, environment, Noncompliant, now, python) then Of(Noncompliant)
    else if Answers(policies, environment, Unknown, now, python) then Of(Unknown)
    else if Answers(policies, environment, Compliant, now, python) then Of(Compliant)
    else Skipped
  }

  /** How many of the policies in scope have this answer on the environment. */
  function CountOn(policies: seq<Policy>, environment: Environment, answer: Compliance, now: int, python: Python): nat
  {
    if policies == [] then 0
    else
      var last := policies[|policies| - 1];
      CountOn(policies[..|policies| - 1], environment, answer, now, python) +
      if ScopeMatches(last, environment) && EvaluateRule(last.rule, environment, now, python) == answer then 1 else 0
  }

  function CountAll(policies: seq<Policy>, environments: seq<Environment>, answer: Compliance, now: int,
                    python: Python): nat
  {
    if environments == [] then 0
    else CountAll(policies, environments[..|environments| - 1], answer, now, python) +
         CountOn(policies, environments[|environments| - 1], answer, now, python)
  }

  function InScope(policies: seq<Policy>, environment: Environment): nat
  {
    if policies == [] then 0
    else
      InScope(policies[..|policies| - 1], environment) +
      if ScopeMatches(policies[|policies| - 1], environment) then 1 else 0
  }

  function PairsInScope(policies: seq<Policy>, environments: seq<Environment>): nat
  {
    if environments == [] then 0
    else
      PairsInScope(policies, environments[..|environments| - 1]) +
      InScope(policies, environments[|environments| - 1])
  }

  function Reached(policies: seq<Policy>, environments: seq<Environment>): (r: nat)
    ensures r <= |environments|
  {
    if environments == [] then 0
    else
      Reached(policies, environments[..|environments| - 1]) +
      if InScope(policies, environments[|environments| - 1]) > 0 then 1 else 0
  }

  type Results = map<(string, string), Compliance>

  type Pair = (Policy, Environment)

  ghost function Pairs(policies: seq<Policy>, environments: seq<Environment>): set<Pair>
  {
    set p, e | p in policies && e in environments && ScopeMatches(p, e) :: (p, e)
  }

  function KeyOf(pair: Pair): (string, string)
  {
    (pair.1.id, pair.0.id)
  }

  /** The rows written: one for every pair, with its answer, and every other row as before. */
  ghost predicate Written(before: Results, after: Results, pairs: set<Pair>, now: int, python: Python)
  {
    (forall x :: x in pairs ==> KeyOf(x) in after && after[KeyOf(x)] == EvaluateRule(x.0.rule, x.1, now, python)) &&
    (forall key :: (forall x :: x in pairs ==> KeyOf(x) != key) ==>
      (key in after <==> key in before) && (key in before ==> after[key] == before[key]))
  }

  ghost predicate OnePairPerKey(pairs: set<Pair>)
  {
    forall x, y :: x in pairs && y in pairs && KeyOf(x) == KeyOf(y) ==> x == y
  }

  lemma WrittenThen(a: Results, b: Results, c: Results, first: set<Pair>, second: set<Pair>, now: int, python: Python)
    requires Written(a, b, first, now, python) && Written(b, c, second, now, python) && OnePairPerKey(first + second)
    ensures Written(a, c, first + second, now, python)
  {
    forall x | x in first + second ensures KeyOf(x) in c && c[KeyOf(x)] == EvaluateRule(x.0.rule, x.1, now, python) {
      if x !in second {
        assert forall y :: y in second ==> KeyOf(y) != KeyOf(x);
      }
    }
    forall key | forall x :: x in first + second ==> KeyOf(x) != key
      ensures (key in c <==> key in a) && (key in a ==> c[key] == a[key])
    {
      assert forall x :: x in first ==> KeyOf(x) != key;
      assert forall x :: x in second ==> KeyOf(x) != key;
    }
  }

  predicate DistinctPolicies(policies: seq<Policy>)
  {
    forall i, j :: 0 <= i < j < |policies| ==> policies[i].id != policies[j].id
  }

  predicate DistinctEnvironments(environments: seq<Environment>)
  {
    forall i, j :: 0 <= i < j < |environments| ==> environments[i].id != environments[j].id
  }

  /** The policies a query returns: the enabled ones, or the enabled one with the id. */
  function EnabledPolicies(policies: seq<Policy>, policyId: Option<string>): (r: seq<Policy>)
    ensures forall p :: p in r <==> p in policies && p.enabled && (policyId.None? || p.id == policyId.value)
  {
    if policies == [] then []
    else
      (if policies[0].enabled && (policyId.None? || policies[0].id == policyId.value) then [policies[0]] else []) +
      EnabledPolicies(policies[1..], policyId)
  }

  lemma {:induction false} EnabledDistinct(policies: seq<Policy>, policyId: Option<string>)
    requires DistinctPolicies(policies)
    ensures DistinctPolicies(EnabledPolicies(policies, policyId))
  {
    if policies != [] {
      EnabledDistinct(policies[1..], policyId);
      var rest := EnabledPolicies(policies[1..], policyId);
      forall k | 0 <= k < |rest| ensures rest[k].id != policies[0].id {
        assert rest[k] in policies[1..];
      }
    }
  }

  // ----- The code -----

  class Governance {
    var policies: seq<Policy>
    var environments: seq<Environment>
    var results: Results

    predicate Valid()
      reads this
    {
      DistinctPolicies(policies) && DistinctEnvironments(environments)
    }

    constructor (policies: seq<Policy>, environments: seq<Environment>, results: Results)
      requires DistinctPolicies(policies) && DistinctEnvironments(environments)
      ensures Valid()
      ensures this.policies == policies && this.environments == environments && this.results == results
    {
      this.policies, this.environments, this.results := policies, environments, results;
    }

    /** The row of one pair, added or updated. */
    method Record(policy: Policy, environment: Environment, now: int, python: Python)
      requires ScopeMatches(policy, environment)
      modifies this`results
      ensures Written(old(results), results, Pairs([policy], [environment]), now, python)
    {
      results := results[(environment.id, policy.id) := EvaluateRule(policy.rule, environment, now, python)];
      SinglePair(policy, environment);
    }

    /** evaluate_policies: rows of one environment, for all enabled policies or for one. */
    method EvaluatePolicies(environment: Environment, policyId: Option<string>, now: int, python: Python)
      requires Valid()
      modifies this`results
      ensures Written(old(results), results, Pairs(EnabledPolicies(policies, policyId), [environment]), now, python)
    {
      var selected := EnabledPolicies(policies, policyId);
      EnabledDistinct(policies, policyId);
      for i := 0 to |selected|
        invariant Written(old(results), results, Pairs(selected[..i], [environment]), now, python)
      {
        ghost var before := results;
        if ScopeMatches(selected[i], environment) {
          Record(selected[i], environment, now, python);
        }
        PolicyWritten(old(results), before, results, selected, i, environment, now, python);
      }
      assert selected[..|selected|] == selected;
    }

    /** One environment against the selected policies: the rows, the counts and the worst answer. */
    method CheckEnvironment(selected: seq<Policy>, environment: Environment, before: Counts, now: int, python: Python)
      returns (counts: Counts, matched: bool, worst: Outcome)
      requires Valid() && DistinctPolicies(selected) && forall p :: p in selected ==> p in policies && p.enabled
      modifies this`results
      ensures Written(old(results), results, Pairs(selected, [environment]), now, python)
      ensures matched <==> InScope(selected, environment) > 0
      ensures worst == Worst(selected, environment, now, python)
      ensures counts == PlusEnvironment(before, selected, environment, now, python)
    {
      counts, matched, worst := before, false, Skipped;
      for j := 0 to |selected|
        invariant Written(old(results), results, Pairs(selected[..j], [environment]), now, python)
        invariant matched <==> InScope(selected[..j], environment) > 0
        invariant worst == Worst(selected[..j], environment, now, python)
        invariant counts == PlusEnvironment(before, selected[..j], environment, now, python)
      {
        ghost var rows := results;
        PolicyCounted(before, selected, j, environment, now, python);
        if ScopeMatches(selected[j], environment) {
          matched := true;
          EvaluatePolicies(environment, Some(selected[j].id), now, python);
          OnlyPolicy(policies, selected[j]);
          RowOfPair(rows, results, selected[j], environment, now, python);
          var compliance := results[(environment.id, selected[j].id)];
          worst := Worse(worst, Of(compliance));
          counts := PlusOne(counts, compliance);
        }
        PolicyWritten(old(results), rows, results, selected, j, environment, now, python);
      }
      assert selected[..|selected|] == selected;
    }

    /** evaluate_fleet: counts, one check for each environment, and the rows written. */
    method EvaluateFleet(policyId: Option<string>, now: int, python: Python) returns (counts: Counts)
      requires Valid()
      modifies this`results
      ensures counts == FleetCounts(EnabledPolicies(policies, policyId), environments, now, python)
      ensures Written(old(results), results, Pairs(EnabledPolicies(policies, policyId), environments), now, python)
    {
      var selected := EnabledPolicies(policies, policyId);
      EnabledDistinct(policies, policyId);
      counts := Counts(0, 0, 0, 0, 0, |environments|, []);
      if selected == [] || environments == [] {
        return;
      }
      for i := 0 to |environments|
        invariant counts == PartCounts(selected, environments[..i], |environments|, now, python)
        invariant Written(old(results), results, Pairs(selected, environments[..i]), now, python)
      {
        var environment := environments[i];
        ghost var rows := results;
        var matched, worst;
        counts, matched, worst := CheckEnvironment(selected, environment, counts, now, python);
        if matched {
          counts := counts.(evaluated := counts.evaluated + 1,
                            checks := counts.checks + [Check(environment.id, worst)]);
        } else {
          counts := counts.(skipped := counts.skipped + 1, checks := counts.checks + [Check(environment.id, Skipped)]);
        }
        EnvironmentWritten(old(results), rows, results, selected, environments, i, now, python);
        EnvironmentCounted(selected, environments, i, now, python);
      }
      assert environments[..|environments|] == environments;
    }
  }

  function PlusOne(counts: Counts, compliance: Compliance): Counts
  {
    match compliance
    case Compliant => counts.(compliant := counts.compliant + 1)
    case Noncompliant => counts.(noncompliant := counts.noncompliant + 1)
    case Unknown => counts.(unknown := counts.unknown + 1)
  }

  function PlusEnvironment(before: Counts, policies: seq<Policy>, environment: Environment, now: int,
                           python: Python): Counts
  {
    before.(compliant := before.compliant + CountOn(policies, environment, Compliant, now, python),
            noncompliant := before.noncompliant + CountOn(policies, environment, Noncompliant, now, python),
            unknown := before.unknown + CountOn(policies, environment, Unknown, now, python))
  }

  /** The counts of the environments seen so far, with one check each. */
  function PartCounts(policies: seq<Policy>, seen: seq<Environment>, environments: nat, now: int,
                      python: Python): Counts
  {
    Counts(Reached(policies, seen),
           CountAll(policies, seen, Compliant, now, python),
           CountAll(policies, seen, Noncompliant, now, python),
           CountAll(policies, seen, Unknown, now, python),
           |seen| - Reached(policies, seen),
           environments,
           ChecksOf(policies, seen, now, python))
  }

  function ChecksOf(policies: seq<Policy>, seen: seq<Environment>, now: int, python: Python): (r: seq<Check>)
    ensures |r| == |seen| &&
      forall i :: 0 <= i < |r| ==> r[i] == Check(seen[i].id, Worst(policies, seen[i], now, python))
  {
    seq(|seen|, i requires 0 <= i < |seen| => Check(seen[i].id, Worst(policies, seen[i], now, python)))
  }

  /** Without policies or environments nothing is counted but the environments. */
  function FleetCounts(policies: seq<Policy>, environments: seq<Environment>, now: int, python: Python): Counts
  {
    if policies == [] || environments == [] then Counts(0, 0, 0, 0, 0, |environments|, [])
    else PartCounts(policies, environments, |environments|, now, python)
  }

  // ----- What the counts say -----

  lemma {:induction false} OutcomesOn(policies: seq<Policy>, environment: Environment, now: int, python: Python)
    ensures CountOn(policies, environment, Compliant, now, python) +
      CountOn(policies, environment, Noncompliant, now, python) +
      CountOn(policies, environment, Unknown, now, python) == InScope(policies, environment)
  {
    if policies != [] {
      OutcomesOn(policies[..|policies| - 1], environment, now, python);
    }
  }

  lemma {:induction false} OutcomesAll(policies: seq<Policy>, environments: seq<Environment>, now: int, python: Python)
    ensures CountAll(policies, environments, Compliant, now, python) +
      CountAll(policies, environments, Noncompliant, now, python) +
      CountAll(policies, environments, Unknown, now, python) == PairsInScope(policies, environments)
  {
    if environments != [] {
      OutcomesAll(policies, environments[..|environments| - 1], now, python);
      OutcomesOn(policies, environments[|environments| - 1], now, python);
    }
  }

  /** Main result: every environment is evaluated or skipped and gets one check, and the three outcome
      counts add up to the pairs in scope. */
  lemma CountsAddUp(policies: seq<Policy>, environments: seq<Environment>, now: int, python: Python)
    requires policies != [] && environments != []
    ensures var counts := FleetCounts(policies, environments, now, python);
      counts.evaluated + counts.skipped == counts.environments == |counts.checks| == |environments| &&
      counts.compliant + counts.noncompliant + counts.unknown == PairsInScope(policies, environments) &&
      forall i :: 0 <= i < |environments| ==>
        counts.checks[i].environmentId == environments[i].id &&
        (counts.checks[i].outcome == Skipped <==> InScope(policies, environments[i]) == 0)
  {
    OutcomesAll(policies, environments, now, python);
    forall i | 0 <= i < |environments|
      ensures Worst(policies, environments[i], now, python) == Skipped <==> InScope(policies, environments[i]) == 0
    {
      if InScope(policies, environments[i]) == 0 {
        NothingInScope(policies, environments[i], now, python);
      } else {
        var p := SomeInScope(policies, environments[i]);
        WorstIsMaximum(policies, environments[i], now, python);
      }
    }
  }

  lemma {:induction false} SomeInScope(policies: seq<Policy>, environment: Environment) returns (p: Policy)
    requires InScope(policies, environment) > 0
    ensures p in policies && ScopeMatches(p, environment)
  {
    var last := policies[|policies| - 1];
    if ScopeMatches(last, environment) {
      p := last;
    } else {
      p := SomeInScope(policies[..|policies| - 1], environment);
    }
  }

  /** Main result: a check is the maximum of the answers of the policies in scope, under
      skipped < compliant < unknown < noncompliant. */
  lemma WorstIsMaximum(policies: seq<Policy>, environment: Environment, now: int, python: Python)
    ensures var worst := Worst(policies, environment, now, python);
      (forall p :: p in policies && ScopeMatches(p, environment) ==>
        Rank(Of(EvaluateRule(p.rule, environment, now, python))) <= Rank(worst)) &&
      (worst == Skipped ||
        exists p :: p in policies && ScopeMatches(p, environment) &&
          Of(EvaluateRule(p.rule, environment, now, python)) == worst)
  {
  }

  /** The order of the policies does not matter. */
  lemma WorstIgnoresOrder(a: seq<Policy>, b: seq<Policy>, environment: Environment, now: int, python: Python)
    requires multiset(a) == multiset(b)
    ensures Worst(a, environment, now, python) == Worst(b, environment, now, python)
  {
    assert forall p :: p in a <==> p in multiset(a);
    assert forall p :: p in b <==> p in multiset(b);
    forall answer
      ensures Answers(a, environment, answer, now, python) <==> Answers(b, environment, answer, now, python)
    {
    }
  }

  // ----- The counts as sizes of sets -----

  /** The pairs in scope with this answer. */
  ghost function PairsWith(policies: seq<Policy>, environments: seq<Environment>, answer: Compliance, now: int,
                           python: Python): set<Pair>
  {
    set x | x in Pairs(policies, environments) && EvaluateRule(x.0.rule, x.1, now, python) == answer
  }

  ghost function ReachedSet(policies: seq<Policy>, environments: seq<Environment>): set<Environment>
  {
    set e | e in environments && exists p :: p in policies && ScopeMatches(p, e)
  }

  lemma DisjointSizes<T>(all: set<T>, a: set<T>, b: set<T>)
    requires all == a + b && a !! b
    ensures |all| == |a| + |b|
  {
  }

  lemma {:induction false} CountOnIsSize(policies: seq<Policy>, e: Environment, answer: Compliance, now: int,
                                         python: Python)
    requires DistinctPolicies(policies)
    ensures CountOn(policies, e, answer, now, python) == |PairsWith(policies, [e], answer, now, python)|
  {
    if policies == [] {
      assert PairsWith(policies, [e], answer, now, python) == {};
    } else {
      var front, last := policies[..|policies| - 1], policies[|policies| - 1];
      assert policies == front + [last];
      CountOnIsSize(front, e, answer, now, python);
      var counted := ScopeMatches(last, e) && EvaluateRule(last.rule, e, now, python) == answer;
      var more := if counted then {(last, e)} else {};
      assert forall p :: p in front ==> p != last;
      PairsAppended(front, last, e, answer, now, python);
      DisjointSizes(PairsWith(policies, [e], answer, now, python), PairsWith(front, [e], answer, now, python), more);
    }
  }

  lemma PairsAppended(front: seq<Policy>, last: Policy, e: Environment, answer: Compliance, now: int, python: Python)
    ensures PairsWith(front + [last], [e], answer, now, python) ==
      PairsWith(front, [e], answer, now, python) +
      if ScopeMatches(last, e) && EvaluateRule(last.rule, e, now, python) == answer then {(last, e)} else {}
  {
    assert forall p :: p in front + [last] <==> p in front || p == last;
    if ScopeMatches(last, e) { assert (last, e) in Pairs(front + [last], [e]); }
  }

  lemma NotBefore(environments: seq<Environment>)
    requires DistinctEnvironments(environments) && environments != []
    ensures environments[|environments| - 1] !in environments[..|environments| - 1]
  {
  }

  lemma EnvironmentAppended(policies: seq<Policy>, front: seq<Environment>, last: Environment, answer: Compliance,
                            now: int, python: Python)
    requires last !in front
    ensures PairsWith(policies, front + [last], answer, now, python) ==
      PairsWith(policies, front, answer, now, python) + PairsWith(policies, [last], answer, now, python)
    ensures PairsWith(policies, front, answer, now, python) !! PairsWith(policies, [last], answer, now, python)
  {
    assert forall e :: e in front + [last] <==> e in front || e == last;
  }

  lemma {:induction false} CountAllIsSize(policies: seq<Policy>, environments: seq<Environment>, answer: Compliance,
                                          now: int, python: Python)
    requires DistinctPolicies(policies) && DistinctEnvironments(environments)
    ensures CountAll(policies, environments, answer, now, python) ==
      |PairsWith(policies, environments, answer, now, python)|
  {
    if environments == [] {
      assert PairsWith(policies, environments, answer, now, python) == {};
    } else {
      var front, last := environments[..|environments| - 1], environments[|environments| - 1];
      assert environments == front + [last];
      CountAllIsSize(policies, front, answer, now, python);
      CountOnIsSize(policies, last, answer, now, python);
      NotBefore(environments);
      EnvironmentAppended(policies, front, last, answer, now, python);
      DisjointSizes(PairsWith(policies, environments, answer, now, python),
                    PairsWith(policies, front, answer, now, python),
                    PairsWith(policies, [last], answer, now, python));
    }
  }

  lemma {:induction false} ScopeHolder(policies: seq<Policy>, e: Environment)
    ensures InScope(policies, e) > 0 <==> exists p :: p in policies && ScopeMatches(p, e)
  {
    if policies != [] {
      var front, last := policies[..|policies| - 1], policies[|policies| - 1];
      assert policies == front + [last];
      ScopeHolder(front, e);
    }
  }

  lemma ReachedSetAppended(policies: seq<Policy>, front: seq<Environment>, last: Environment)
    ensures ReachedSet(policies, front + [last]) ==
      ReachedSet(policies, front) + if InScope(policies, last) > 0 then {last} else {}
  {
    ScopeHolder(policies, last);
    assert forall e :: e in front + [last] <==> e in front || e == last;
  }

  lemma {:induction false} ReachedIsSize(policies: seq<Policy>, environments: seq<Environment>)
    requires DistinctEnvironments(environments)
    ensures Reached(policies, environments) == |ReachedSet(policies, environments)|
  {
    if environments == [] {
      assert ReachedSet(policies, environments) == {};
    } else {
      var front, last := environments[..|environments| - 1], environments[|environments| - 1];
      assert environments == front + [last];
      ReachedIsSize(policies, front);
      ScopeHolder(policies, last);
      NotBefore(environments);
      var more := if InScope(policies, last) > 0 then {last} else {};
      ReachedSetAppended(policies, front, last);
      DisjointSizes(ReachedSet(policies, environments), ReachedSet(policies, front), more);
    }
  }

  /** Main result: each outcome count is the number of pairs in scope with that answer, evaluated is the
      number of environments some policy reaches, and skipped that of the others. */
  lemma CountsAreSizes(policies: seq<Policy>, environments: seq<Environment>, now: int, python: Python)
    requires DistinctPolicies(policies) && DistinctEnvironments(environments) && policies != [] && environments != []
    ensures var counts := FleetCounts(policies, environments, now, python);
      counts.compliant == |PairsWith(policies, environments, Compliant, now, python)| &&
      counts.noncompliant == |PairsWith(policies, environments, Noncompliant, now, python)| &&
      counts.unknown == |PairsWith(policies, environments, Unknown, now, python)| &&
      counts.evaluated == |ReachedSet(policies, environments)| &&
      counts.skipped == |environments| - |ReachedSet(policies, environments)|
  {
    CountAllIsSize(policies, environments, Compliant, now, python);
    CountAllIsSize(policies, environments, Noncompliant, now, python);
    CountAllIsSize(policies, environments, Unknown, now, python);
    ReachedIsSize(policies, environments);
  }

  /** With one answer for every pair, this is the check of every reached environment. */
  lemma CheckShowsAnswer(policies: seq<Policy>, environments: seq<Environment>, i: nat, now: int, python: Python)
    requires policies != [] && i < |environments|
    ensures var check := FleetCounts(policies, environments, now, python).checks[i];
      var e := environments[i];
      var answers := set p | p in policies && ScopeMatches(p, e) :: EvaluateRule(p.rule, e, now, python);
      check.environmentId == environments[i].id &&
      check.outcome == (if Noncompliant in answers then Of(Noncompliant) else if Unknown in answers then Of(Unknown)
                        else if Compliant in answers then Of(Compliant) else Skipped)
  {
  }

  // ----- Proof steps -----

  lemma SinglePair(policy: Policy, environment: Environment)
    requires ScopeMatches(policy, environment)
    ensures Pairs([policy], [environment]) == {(policy, environment)}
  {
  }

  lemma RowOfPair(before: Results, after: Results, policy: Policy, environment: Environment, now: int, python: Python)
    requires ScopeMatches(policy, environment) && Written(before, after, Pairs([policy], [environment]), now, python)
    ensures (environment.id, policy.id) in after
    ensures after[(environment.id, policy.id)] == EvaluateRule(policy.rule, environment, now, python)
  {
    SinglePair(policy, environment);
  }

  lemma PolicyCounted(before: Counts, policies: seq<Policy>, j: nat, environment: Environment, now: int, python: Python)
    requires j < |policies|
    ensures var answer := EvaluateRule(policies[j].rule, environment, now, python);
      if ScopeMatches(policies[j], environment) then
        InScope(policies[..j + 1], environment) > 0 &&
        Worst(policies[..j + 1], environment, now, python) ==
          Worse(Worst(policies[..j], environment, now, python), Of(answer)) &&
        PlusEnvironment(before, policies[..j + 1], environment, now, python) ==
          PlusOne(PlusEnvironment(before, policies[..j], environment, now, python), answer)
      else
        InScope(policies[..j + 1], environment) == InScope(policies[..j], environment) &&
        Worst(policies[..j + 1], environment, now, python) == Worst(policies[..j], environment, now, python) &&
        PlusEnvironment(before, policies[..j + 1], environment, now, python) ==
          PlusEnvironment(before, policies[..j], environment, now, python)
  {
    assert policies[..j + 1] == policies[..j] + [policies[j]] && policies[..j + 1][..j] == policies[..j];
    WorstStep(policies[..j], policies[j], environment, now, python);
  }

  /** One environment more: its outcomes, whether it was reached, and its check. */
  lemma EnvironmentCounted(policies: seq<Policy>, environments: seq<Environment>, i: nat, now: int, python: Python)
    requires i < |environments|
    ensures PartCounts(policies, environments[..i + 1], |environments|, now, python) ==
      PlusChecked(PartCounts(policies, environments[..i], |environments|, now, python), policies, environments[i], now,
                  python)
  {
    assert environments[..i + 1] == environments[..i] + [environments[i]];
    LastChecked(policies, environments[..i], environments[i], |environments|, now, python);
  }

  /** The counts with the outcomes of one environment and its check. */
  function PlusChecked(before: Counts, policies: seq<Policy>, environment: Environment, now: int,
                       python: Python): Counts
  {
    var counts := PlusEnvironment(before, policies, environment, now, python);
    if InScope(policies, environment) > 0
    then counts.(evaluated := counts.evaluated + 1,
                 checks := counts.checks + [Check(environment.id, Worst(policies, environment, now, python))])
    else counts.(skipped := counts.skipped + 1, checks := counts.checks + [Check(environment.id, Skipped)])
  }

  lemma LastChecked(policies: seq<Policy>, seen: seq<Environment>, last: Environment, total: nat, now: int,
                    python: Python)
    ensures PartCounts(policies, seen + [last], total, now, python) ==
      PlusChecked(PartCounts(policies, seen, total, now, python), policies, last, now, python)
  {
    if InScope(policies, last) == 0 { NothingInScope(policies, last, now, python); }
    CheckAppended(policies, seen, last, now, python);
    ReachedAppended(policies, seen, last);
    CountAppended(policies, seen, last, Compliant, now, python);
    CountAppended(policies, seen, last, Noncompliant, now, python);
    CountAppended(policies, seen, last, Unknown, now, python);
  }

  lemma CountAppended(policies: seq<Policy>, seen: seq<Environment>, last: Environment, answer: Compliance, now: int,
                      python: Python)
    ensures CountAll(policies, seen + [last], answer, now, python) ==
      CountAll(policies, seen, answer, now, python) + CountOn(policies, last, answer, now, python)
  {
    assert (seen + [last])[..|seen|] == seen;
  }

  lemma ReachedAppended(policies: seq<Policy>, seen: seq<Environment>, last: Environment)
    ensures Reached(policies, seen + [last]) == Reached(policies, seen) + if InScope(policies, last) > 0 then 1 else 0
  {
    assert (seen + [last])[..|seen|] == seen;
  }

  lemma CheckAppended(policies: seq<Policy>, seen: seq<Environment>, last: Environment, now: int, python: Python)
    ensures ChecksOf(policies, seen + [last], now, python) ==
      ChecksOf(policies, seen, now, python) + [Check(last.id, Worst(policies, last, now, python))]
  {
  }

  /** The rows of one policy more on the environment. */
  lemma PolicyWritten(a: Results, b: Results, c: Results, policies: seq<Policy>, i: nat, environment: Environment,
                      now: int, python: Python)
    requires DistinctPolicies(policies) && i < |policies|
    requires Written(a, b, Pairs(policies[..i], [environment]), now, python)
    requires if ScopeMatches(policies[i], environment)
      then Written(b, c, Pairs([policies[i]], [environment]), now, python)
      else b == c
    ensures Written(a, c, Pairs(policies[..i + 1], [environment]), now, python)
  {
    var first, second := Pairs(policies[..i], [environment]), Pairs([policies[i]], [environment]);
    assert policies[..i + 1] == policies[..i] + [policies[i]];
    assert Pairs(policies[..i + 1], [environment]) == first + second;
    if ScopeMatches(policies[i], environment) {
      PairsOnePerKey(policies, [environment]);
      assert first + second <= Pairs(policies, [environment]);
      WrittenThen(a, b, c, first, second, now, python);
    } else {
      assert second == {};
      assert first + second == first;
    }
  }

  lemma EnvironmentWritten(a: Results, b: Results, c: Results, policies: seq<Policy>, environments: seq<Environment>,
                           i: nat, now: int, python: Python)
    requires DistinctPolicies(policies) && DistinctEnvironments(environments) && i < |environments|
    requires Written(a, b, Pairs(policies, environments[..i]), now, python)
    requires Written(b, c, Pairs(policies, [environments[i]]), now, python)
    ensures Written(a, c, Pairs(policies, environments[..i + 1]), now, python)
  {
    var first, second := Pairs(policies, environments[..i]), Pairs(policies, [environments[i]]);
    assert environments[..i + 1] == environments[..i] + [environments[i]];
    assert Pairs(policies, environments[..i + 1]) == first + second;
    PairsOnePerKey(policies, environments);
    assert first + second <= Pairs(policies, environments);
    WrittenThen(a, b, c, first, second, now, python);
  }

  lemma NothingInScope(policies: seq<Policy>, environment: Environment, now: int, python: Python)
    requires InScope(policies, environment) == 0
    ensures Worst(policies, environment, now, python) == Skipped
  {
    NoneInScope(policies, environment);
  }

  lemma {:induction false} NoneInScope(policies: seq<Policy>, environment: Environment)
    requires InScope(policies, environment) == 0
    ensures forall p :: p in policies ==> !ScopeMatches(p, environment)
  {
    if policies != [] {
      var front := policies[..|policies| - 1];
      NoneInScope(front, environment);
      assert policies == front + [policies[|policies| - 1]];
    }
  }

  lemma PairsOnePerKey(policies: seq<Policy>, environments: seq<Environment>)
    requires DistinctPolicies(policies) && DistinctEnvironments(environments)
    ensures OnePairPerKey(Pairs(policies, environments))
  {
  }

  lemma OnlyPolicy(policies: seq<Policy>, policy: Policy)
    requires DistinctPolicies(policies) && policy in policies && policy.enabled
    ensures forall e :: Pairs(EnabledPolicies(policies, Some(policy.id)), [e]) == Pairs([policy], [e])
  {
  }

  lemma WorstStep(policies: seq<Policy>, policy: Policy, environment: Environment, now: int, python: Python)
    ensures Worst(policies + [policy], environment, now, python) ==
      if ScopeMatches(policy, environment)
      then Worse(Worst(policies, environment, now, python), Of(EvaluateRule(policy.rule, environment, now, python)))
      else Worst(policies, environment, now, python)
  {
  }
}
