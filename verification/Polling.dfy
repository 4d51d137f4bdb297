/** Waiting for a scan of the threat-intelligence service, under a deadline. */
module Polling {
  import opened Wrappers
  import opened Threat

  /** Counts reported by the scan engines; a missing count is read as zero. */
  datatype Stats = Stats(malicious: Option<int>, suspicious: Option<int>)

  /** One answer to a status request. */
  datatype Reply = Broken | Status(status: string, stats: Option<Stats>)

  datatype ScanError = AnalysisFailed | PollingTimedOut | RequestFailed

  const MIN_POLL_SLEEP := 100

  /** Times in milliseconds; both positive. */
  datatype Config = Config(scanTimeout: int, pollInterval: int)

  /** What the world does: the replies, how long each takes, and by how much each sleep is overslept. */
  datatype World = World(reply: nat -> Reply, latency: nat -> nat, oversleep: nat -> nat)

  function OrZero(n: Option<int>): int {
    if n.Some? then n.value else 0
  }

  function Verdict(stats: Stats): ThreatVerdict {
    if OrZero(stats.malicious) > 0 then MALICIOUS
    else if OrZero(stats.suspicious) > 0 then SUSPICIOUS
    else SAFE
  }

  function MapStatsToResult(url: string, stats: Stats): ThreatScanResult {
    ThreatScanResult(Verdict(stats), RiskScore(Verdict(stats)), url, false)
  }

  /** The result that the counts call for: any malicious count decides, else any suspicious one, else the url is safe. */
  predicate Reports(r: ThreatScanResult, url: string, stats: Stats) {
    var malicious := stats.malicious.Some? && stats.malicious.value > 0;
    var suspicious := stats.suspicious.Some? && stats.suspicious.value > 0;
    && r.scannedUrl == url && !r.failSafe
    && (malicious <==> r.verdict == MALICIOUS && r.riskScore == 90)
    && (!malicious && suspicious <==> r.verdict == SUSPICIOUS && r.riskScore == 60)
    && (!malicious && !suspicious <==> r.verdict == SAFE && r.riskScore == 10)
  }

  predicate Completes(r: Reply) {
    r.Status? && r.status == "completed" && r.stats.Some?
  }

  /** A reply that ends the polling. */
  predicate Decisive(r: Reply) {
    r.Broken? || (r.status == "completed" && r.stats.Some?) || r.status == "failed"
  }

  function Conclusion(url: string, r: Reply): Result<ThreatScanResult, ScanError>
    requires Decisive(r)
  {
    if r.Broken? then Err(RequestFailed)
    else if r.status == "completed" && r.stats.Some? then Ok(MapStatsToResult(url, r.stats.value))
    else Err(AnalysisFailed)
  }

  function RemainingTimeout(deadline: int, now: int): int {
    if deadline - now > 1 then deadline - now else 1
  }

  function Max(a: int, b: int): int {
    if a > b then a else b
  }

  function Min(a: int, b: int): int {
    if a < b then a else b
  }

  /** A sleep that was asked for: when, and how long. */
  datatype Sleep = Sleep(at: int, ms: int)

  /**
   * The loop ends after at most ceil((deadline - start) / interval) polls, no sleep is asked for past the deadline,
   * and the answer is that of the first decisive reply, or a timeout if none of the replies seen was decisive.
   */
  method PollAnalysisResult(url: string, start: int, deadline: int, c: Config, world: World)
    returns (r: Result<ThreatScanResult, ScanError>, polls: nat, ghost sleeps: seq<Sleep>, end: int)
    requires 1 <= c.pollInterval
    ensures start < deadline ==> (polls - 1) * c.pollInterval < deadline - start
    ensures deadline <= start ==> polls == 0
    ensures forall i :: 0 <= i < |sleeps| ==> 0 < sleeps[i].ms && sleeps[i].at + sleeps[i].ms <= deadline
    ensures forall i :: 0 <= i < polls - 1 ==> !Decisive(world.reply(i))
    ensures polls > 0 && Decisive(world.reply(polls - 1)) ==> r == Conclusion(url, world.reply(polls - 1))
    ensures polls == 0 || !Decisive(world.reply(polls - 1)) ==> r == Err(PollingTimedOut)
    ensures r.Ok? <==> polls > 0 && Completes(world.reply(polls - 1))
    ensures r.Ok? ==> Reports(r.value, url, world.reply(polls - 1).stats.value)
    ensures r == Err(RequestFailed) <==> polls > 0 && world.reply(polls - 1).Broken?
    ensures r == Err(AnalysisFailed) <==> polls > 0 && !world.reply(polls - 1).Broken? && world.reply(polls - 1).status == "failed"
    ensures r == Err(PollingTimedOut) ==> deadline - end <= 100
  {
    var now := start;
    polls, sleeps := 0, [];
    while now < deadline
      invariant start <= now
      invariant now < deadline ==> start + polls * c.pollInterval <= now
      invariant polls > 0 ==> (polls - 1) * c.pollInterval < deadline - start
      invariant deadline <= start ==> polls == 0
      invariant forall i :: 0 <= i < |sleeps| ==> 0 < sleeps[i].ms && sleeps[i].at + sleeps[i].ms <= deadline
      invariant forall i :: 0 <= i < polls ==> !Decisive(world.reply(i))
      decreases deadline - now
    {
      var reply := world.reply(polls);
      now := now + world.latency(polls);
      polls := polls + 1;
      if reply.Broken? {
        return Err(RequestFailed), polls, sleeps, now;
      }
      if reply.status == "completed" && reply.stats.Some? {
        return Ok(MapStatsToResult(url, reply.stats.value)), polls, sleeps, now;
      }
      if reply.status == "failed" {
        return Err(AnalysisFailed), polls, sleeps, now;
      }
      var remaining := RemainingTimeout(deadline, now);
      if remaining <= MIN_POLL_SLEEP {
        break;
      }
      var ms := Min(c.pollInterval, Max(MIN_POLL_SLEEP, remaining));
      sleeps := sleeps + [Sleep(now, ms)];
      assert polls * c.pollInterval == (polls - 1) * c.pollInterval + c.pollInterval;
      now := now + ms + world.oversleep(polls - 1);
    }
    return Err(PollingTimedOut), polls, sleeps, now;
  }

  /** What the service says before the polling: a finished report, no report, or an error. */
  datatype Lookup = Found(stats: Option<Stats>) | NotFound | LookupBroken

  /** The whole scan: an existing report if there is one, else submit the url and poll. */
  method ScanWithProvider(url: string, now: int, lookup: Lookup, lookupTime: nat, submitted: bool, submitTime: nat,
                          c: Config, world: World)
    returns (r: Result<ThreatScanResult, ScanError>, polls: nat)
    requires 1 <= c.pollInterval && 0 < c.scanTimeout
    ensures polls > 0 ==> (polls - 1) * c.pollInterval < c.scanTimeout
    ensures polls > 0 ==> lookup.NotFound? && submitted
    ensures r.Ok? ==> !r.value.failSafe && r.value.riskScore == RiskScore(r.value.verdict)
    ensures lookup.Found? ==> r.Ok?
    ensures lookup.Found? && lookup.stats.None? ==> r == Ok(ThreatScanResult(UNVERIFIED, 40, url, false))
    ensures lookup.Found? && lookup.stats.Some? ==> r == Ok(MapStatsToResult(url, lookup.stats.value))
    ensures lookup.Found? && lookup.stats.Some? ==> Reports(r.value, url, lookup.stats.value)
    ensures lookup.NotFound? ==> (r.Ok? <==> polls > 0 && Completes(world.reply(polls - 1)))
    ensures lookup.NotFound? && r.Ok? ==> Reports(r.value, url, world.reply(polls - 1).stats.value)
    ensures lookup.LookupBroken? ==> r == Err(RequestFailed)
    ensures polls == 0 && lookup.NotFound? ==> r.Err?
    ensures polls > 0 && Decisive(world.reply(polls - 1)) ==> r == Conclusion(url, world.reply(polls - 1))
    ensures polls > 0 && !Decisive(world.reply(polls - 1)) ==> r == Err(PollingTimedOut)
  {
    var deadline := now + c.scanTimeout;
    polls := 0;
    match lookup {
      case LookupBroken =>
        return Err(RequestFailed), 0;
      case Found(stats) =>
        if stats.None? {
          return Ok(ThreatScanResult(UNVERIFIED, RiskScore(UNVERIFIED), url, false)), 0;
        }
        return Ok(MapStatsToResult(url, stats.value)), 0;
      case NotFound =>
    }
    if !submitted {
      return Err(RequestFailed), 0;
    }
    var answer, asked, sleeps, end := PollAnalysisResult(url, now + lookupTime + submitTime, deadline, c, world);
    return answer, asked;
  }
}
