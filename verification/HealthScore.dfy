/** The averaged health score of one collection (backend/app/services/connectors.py, collect). */
module HealthScore {

  datatype Health = Healthy | Warning | Critical | NotConfigured | Unknown
  datatype Status = StatusHealthy | StatusWarning | StatusCritical | StatusUnknown

  function Points(health: Health): int
  {
    match health
    case Healthy => 100
    case Warning => 70
    case Critical => 35
    case _ => 0
  }

  predicate Scored(health: Health)
  {
    health.Healthy? || health.Warning? || health.Critical?
  }

  function Count(services: seq<Health>, health: Health): nat
  {
    multiset(services)[health]
  }

  function ScoredCount(services: seq<Health>): nat
  {
    Count(services, Healthy) + Count(services, Warning) + Count(services, Critical)
  }

  function Total(services: seq<Health>): nat
  {
    100 * Count(services, Healthy) + 70 * Count(services, Warning) + 35 * Count(services, Critical)
  }

  /** The score as a function of the numbers of services only, so the order cannot matter. */
  function Score(services: seq<Health>): int
  {
    if ScoredCount(services) == 0 then 0 else Total(services) / ScoredCount(services)
  }

  function Overall(services: seq<Health>): Status
  {
    if ScoredCount(services) == 0 then StatusUnknown
    else if Score(services) >= 85 then StatusHealthy
    else if Score(services) >= 60 then StatusWarning
    else StatusCritical
  }

  method Collect(services: seq<Health>) returns (score: int, status: Status)
    ensures score == Score(services) && status == Overall(services)
  {
    var sum, count := 0, 0;
    for i := 0 to |services|
      invariant sum == Total(services[..i]) && count == ScoredCount(services[..i])
    {
      assert services[..i + 1] == services[..i] + [services[i]];
      match services[i] {
        case Healthy => sum, count := sum + 100, count + 1;
        case Warning => sum, count := sum + 70, count + 1;
        case Critical => sum, count := sum + 35, count + 1;
        case _ =>
      }
    }
    assert services[..|services|] == services;
    score := if count > 0 then sum / count else 0;
    if count == 0 {
      status := StatusUnknown;
    } else if score >= 85 {
      status := StatusHealthy;
    } else if score >= 60 {
      status := StatusWarning;
    } else {
      status := StatusCritical;
    }
  }

  /** A floor division reaches a bound exactly when the sum reaches the bound times the count. */
  lemma FloorReaches(sum: nat, count: nat, bound: nat)
    requires count > 0
    ensures sum / count >= bound <==> sum >= bound * count
  {
    var q := sum / count;
    assert q * count <= sum < (q + 1) * count;
    if q >= bound {
      assert q * count >= bound * count;
    } else {
      assert (q + 1) * count <= bound * count;
    }
  }

  /** The thresholds in terms of the numbers of healthy, warning and critical services. */
  lemma {:induction false} StatusByCounts(services: seq<Health>)
    requires ScoredCount(services) > 0
    ensures var h, w, c := Count(services, Healthy), Count(services, Warning), Count(services, Critical);
      (Overall(services) == StatusHealthy <==> 3 * h >= 3 * w + 10 * c) &&
      (Overall(services) == StatusCritical <==> 8 * h + 2 * w < 5 * c)
    ensures 35 <= Score(services) <= 100
  {
    FloorReaches(Total(services), ScoredCount(services), 85);
    FloorReaches(Total(services), ScoredCount(services), 60);
    FloorReaches(Total(services), ScoredCount(services), 35);
    FloorReaches(Total(services), ScoredCount(services), 101);
  }

  /** An estate has at most four services, so one critical service rules out a healthy estate. */
  lemma OneCriticalOfFour(services: seq<Health>)
    requires |services| <= 4 && Critical in services
    ensures Overall(services) != StatusHealthy
  {
    StatusByCounts(services);
    CountsWithin(services);
  }

  lemma {:induction false} CountsWithin(services: seq<Health>)
    ensures ScoredCount(services) <= |services|
  {
    if services != [] {
      assert services == [services[0]] + services[1..];
      CountsWithin(services[1..]);
    }
  }

  /** Services that are not configured or unknown change neither the score nor the status. */
  lemma UnscoredServicesDoNotCount(a: seq<Health>, b: seq<Health>, health: Health)
    requires !Scored(health)
    ensures Score(a + [health] + b) == Score(a + b) && Overall(a + [health] + b) == Overall(a + b)
  {
  }

  predicate AtLeast(better: Health, worse: Health)
  {
    Scored(better) && Scored(worse) && Points(better) >= Points(worse)
  }

  function Rank(status: Status): int
  {
    match status
    case StatusCritical => 0
    case StatusWarning => 1
    case StatusHealthy => 2
    case StatusUnknown => -1
  }

  /** When one scored service improves, neither the score nor the status gets worse. */
  lemma {:induction false} ImprovementIsMonotone(a: seq<Health>, b: seq<Health>, worse: Health, better: Health)
    requires AtLeast(better, worse)
    ensures Score(a + [worse] + b) <= Score(a + [better] + b)
    ensures Rank(Overall(a + [worse] + b)) <= Rank(Overall(a + [better] + b))
  {
    var before, after := a + [worse] + b, a + [better] + b;
    Inserted(a, b, worse);
    Inserted(a, b, better);
    DivisionMonotone(Total(before), Total(after), ScoredCount(after));
  }

  lemma Inserted(a: seq<Health>, b: seq<Health>, health: Health)
    requires Scored(health)
    ensures Total(a + [health] + b) == Total(a + b) + Points(health)
    ensures ScoredCount(a + [health] + b) == ScoredCount(a + b) + 1
  {
  }

  lemma DivisionMonotone(small: nat, large: nat, count: nat)
    requires count > 0 && small <= large
    ensures small / count <= large / count
  {
    FloorReaches(small, count, small / count);
    FloorReaches(large, count, small / count);
  }

  /** The score is the average of the scored services, rounded down; without any it is zero and the
      status is unknown. */
  lemma ScoreIsFlooredAverage(services: seq<Health>)
    ensures var h, w, c := multiset(services)[Healthy], multiset(services)[Warning], multiset(services)[Critical];
      (h + w + c == 0 ==> Score(services) == 0 && Overall(services) == StatusUnknown) &&
      (h + w + c > 0 ==> Overall(services) != StatusUnknown) &&
      (h + w + c > 0 ==>
        Score(services) * (h + w + c) <= 100 * h + 70 * w + 35 * c < (Score(services) + 1) * (h + w + c))
  {
    if ScoredCount(services) > 0 {
      FloorReaches(Total(services), ScoredCount(services), Score(services));
      FloorReaches(Total(services), ScoredCount(services), Score(services) + 1);
    }
  }
}
