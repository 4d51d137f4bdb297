/** Scoring one traffic event against the baseline of its user. */
module Anomaly {
  import opened Histograms
  import opened PlainObjects
  import opened Baseline
  import opened Entries
  import opened KnownHosts
  import opened Snapshot

  datatype Signal = NewHost | VolumeSpike | OffHoursActivity | RepeatedBlocks | HighRiskCluster

  datatype Context = Context(currentHourRequestCount: nat, recentBlockCount: nat, recentAverageRiskScore: real,
                             hostSeenInLookback: bool)

  datatype UebaConfig = UebaConfig(volumeSpikeMultiplier: nat, alertThreshold: nat)

  datatype Severity = High | Medium | Low

  const OFF_HOURS_ACTIVITY_SHARE := 0.05
  const REPEATED_BLOCKS_THRESHOLD := 3
  const HIGH_RISK_SCORE_THRESHOLD := 70.0

  function Weight(signal: Signal): nat {
    match signal
    case NewHost => 30
    case VolumeSpike => 25
    case OffHoursActivity => 20
    case RepeatedBlocks => 15
    case HighRiskCluster => 25
  }

  predicate IsNewHost(host: string, b: BehaviorBaseline, c: Context) {
    host !in b.knownHosts && !c.hostSeenInLookback
  }

  predicate IsVolumeSpike(count: nat, b: BehaviorBaseline, config: UebaConfig) {
    b.requestsPerActiveHour > 0.0 && count as real > b.requestsPerActiveHour * config.volumeSpikeMultiplier as real
  }

  predicate IsOffHoursActivity(hour: Hour, b: BehaviorBaseline)
    requires |b.activeHours| == 24
  {
    var total := SeqSum(b.activeHours);
    total > 0 && b.activeHours[hour] as real / total as real < OFF_HOURS_ACTIVITY_SHARE
  }

  predicate HasRepeatedBlocks(c: Context) {
    c.recentBlockCount > REPEATED_BLOCKS_THRESHOLD
  }

  predicate IsHighRiskCluster(c: Context) {
    c.recentAverageRiskScore > HIGH_RISK_SCORE_THRESHOLD
  }

  /** Whether an event shows the signal. */
  predicate Shows(signal: Signal, host: string, hour: Hour, b: BehaviorBaseline, c: Context, config: UebaConfig)
    requires |b.activeHours| == 24
  {
    match signal
    case NewHost => IsNewHost(host, b, c)
    case VolumeSpike => IsVolumeSpike(c.currentHourRequestCount, b, config)
    case OffHoursActivity => IsOffHoursActivity(hour, b)
    case RepeatedBlocks => HasRepeatedBlocks(c)
    case HighRiskCluster => IsHighRiskCluster(c)
  }

  function SumOfWeights(signals: seq<Signal>): nat {
    if signals == [] then 0 else SumOfWeights(signals[..|signals| - 1]) + Weight(signals[|signals| - 1])
  }

  function Either(b: bool, n: nat): nat {
    if b then n else 0
  }

  /** The weights are such that only the number of signals decides which bounds they reach. */
  lemma NumberDecides(a: bool, b: bool, c: bool, d: bool, e: bool, number: nat, sum: nat)
    requires number == Either(a, 1) + Either(b, 1) + Either(c, 1) + Either(d, 1) + Either(e, 1)
    requires sum == Either(a, 30) + Either(b, 25) + Either(c, 20) + Either(d, 15) + Either(e, 25)
    ensures sum >= 85 <==> number >= 4
    ensures sum >= 60 <==> number >= 3
    ensures sum == 0 <==> number == 0
  {
  }

  function ComputeScore(signals: seq<Signal>): nat {
    if SumOfWeights(signals) < 100 then SumOfWeights(signals) else 100
  }

  function ResolveSeverity(score: nat, config: UebaConfig): Severity {
    if score >= 85 then High else if score >= config.alertThreshold then Medium else Low
  }

  lemma Pushed(signals: seq<Signal>, s: Signal)
    requires NoneTwice(signals) && s !in signals
    ensures NoneTwice(signals + [s])
    ensures forall x :: x in signals + [s] <==> x in signals || x == s
    ensures SumOfWeights(signals + [s]) == SumOfWeights(signals) + Weight(s)
  {
  }

  /** Pushes a signal if the event shows it. */
  method PushIf(shown: bool, signals: seq<Signal>, s: Signal) returns (r: seq<Signal>)
    requires NoneTwice(signals) && s !in signals
    ensures NoneTwice(r)
    ensures forall x :: x in r <==> x in signals || (shown && x == s)
    ensures |r| == |signals| + Either(shown, 1) && SumOfWeights(r) == SumOfWeights(signals) + Either(shown, Weight(s))
  {
    r := signals;
    if shown {
      Pushed(signals, s);
      r := signals + [s];
    }
  }

  method ScoreTrafficEvent(host: string, hour: Hour, b: BehaviorBaseline, c: Context, config: UebaConfig)
    returns (anomalyScore: nat, signals: seq<Signal>, severity: Severity)
    requires |b.activeHours| == 24
    ensures forall s :: s in signals <==> Shows(s, host, hour, b, c, config)
    ensures NoneTwice(signals)
    ensures anomalyScore >= 85 <==> |signals| >= 4
    ensures anomalyScore >= 60 <==> |signals| >= 3
    ensures anomalyScore == ComputeScore(signals) && (anomalyScore == 0 <==> signals == [])
    ensures var sum := Either(NewHost in signals, 30) + Either(VolumeSpike in signals, 25) + Either(OffHoursActivity in signals, 20)
                       + Either(RepeatedBlocks in signals, 15) + Either(HighRiskCluster in signals, 25);
            anomalyScore == if sum < 100 then sum else 100
    ensures NewHost in signals <==> host !in b.knownHosts && !c.hostSeenInLookback
    ensures RepeatedBlocks in signals <==> c.recentBlockCount > 3
    ensures HighRiskCluster in signals <==> c.recentAverageRiskScore > 70.0
    ensures severity.High? <==> |signals| >= 4
    ensures severity.Medium? <==> |signals| < 4 && anomalyScore >= config.alertThreshold
  {
    var newHost, spike := IsNewHost(host, b, c), IsVolumeSpike(c.currentHourRequestCount, b, config);
    var offHours, blocks, highRisk := IsOffHoursActivity(hour, b), HasRepeatedBlocks(c), IsHighRiskCluster(c);
    signals := [];
    signals := PushIf(newHost, signals, NewHost);
    signals := PushIf(spike, signals, VolumeSpike);
    signals := PushIf(offHours, signals, OffHoursActivity);
    signals := PushIf(blocks, signals, RepeatedBlocks);
    signals := PushIf(highRisk, signals, HighRiskCluster);
    NumberDecides(newHost, spike, offHours, blocks, highRisk, |signals|, SumOfWeights(signals));
    anomalyScore := ComputeScore(signals);
    severity := ResolveSeverity(anomalyScore, config);
    forall s ensures s in signals <==> Shows(s, host, hour, b, c, config) {
      match s {
        case NewHost =>
        case VolumeSpike =>
        case OffHoursActivity =>
        case RepeatedBlocks =>
        case HighRiskCluster =>
      }
    }
  }

  // ----- the scorer and the baseline agree -----

  lemma ShareBelow(count: nat, total: nat)
    requires total > 0
    ensures count as real / total as real < OFF_HOURS_ACTIVITY_SHARE <==> !IsBusy(count, total)
  {
  }

  /** For the snapshot of any logs, an hour is off hours exactly if it is not among the most active hours. */
  lemma OffHoursAreTheOtherHours(b: BehaviorBaseline, logs: seq<TrafficSample>, p: Platform, sort: Sorter,
                                 windowDays: nat, maxKnownHosts: nat, hour: Hour)
    requires IsSnapshot(b, logs, p, sort, windowDays, maxKnownHosts) && logs != []
    ensures IsOffHoursActivity(hour, b) <==> hour !in b.mostActiveHours
  {
    HoursConserve(logs, p);
    MostActiveHoursAreBusy(b.activeHours, |logs|, hour);
    ShareBelow(b.activeHours[hour], |logs|);
  }

  lemma SpikeByCount(b: BehaviorBaseline, count: nat, config: UebaConfig)
    requires b.requestsPerActiveHour >= 1.0
    ensures IsVolumeSpike(count, b, config) <==> count as real > b.requestsPerActiveHour * config.volumeSpikeMultiplier as real
    ensures IsVolumeSpike(count, b, config) ==> count > config.volumeSpikeMultiplier
  {
    var bound := b.requestsPerActiveHour * config.volumeSpikeMultiplier as real;
    ScaledAtLeast(b.requestsPerActiveHour, config.volumeSpikeMultiplier as real, bound);
    if count as real > bound {
      MoreThan(count, config.volumeSpikeMultiplier, bound);
    }
  }

  /** For the snapshot of any logs, a spike is only a matter of the count: the guard against a zero average never bites. */
  lemma SpikeIsAMatterOfTheCount(b: BehaviorBaseline, logs: seq<TrafficSample>, p: Platform, sort: Sorter,
                                 windowDays: nat, maxKnownHosts: nat, count: nat, config: UebaConfig)
    requires IsSnapshot(b, logs, p, sort, windowDays, maxKnownHosts) && logs != []
    ensures IsVolumeSpike(count, b, config) <==> count as real > b.requestsPerActiveHour * config.volumeSpikeMultiplier as real
    ensures IsVolumeSpike(count, b, config) ==> count > config.volumeSpikeMultiplier
  {
    ActiveHoursAverageAtLeastOne(logs);
    SpikeByCount(b, count, config);
  }

  lemma MoreThan(count: nat, m: nat, bound: real)
    requires count as real > bound >= m as real
    ensures count > m
  {
  }

  /**
   * While there is room for all hosts, one that was not seen lately is new exactly if the snapshot's logs never went
   * there, except that `__proto__` is new each time.
   */
  lemma NewHostsAreTheOtherHosts(b: BehaviorBaseline, logs: seq<TrafficSample>, p: Platform, sort: Sorter,
                                 windowDays: nat, maxKnownHosts: nat, host: string, c: Context)
    requires FollowsStandard(sort) && IsSnapshot(b, logs, p, sort, windowDays, maxKnownHosts)
    requires |OwnOrder(logs)| <= maxKnownHosts && !c.hostSeenInLookback
    ensures IsNewHost(host, b, c) <==> host !in Project(logs, HostOf) || host == PROTO
  {
    KnownHostsAreTheHosts(logs, maxKnownHosts, sort, host);
  }

  lemma ScaledAtLeast(a: real, m: real, am: real)
    requires a >= 1.0 && m >= 0.0 && am == a * m
    ensures am >= m
  {
  }
}
