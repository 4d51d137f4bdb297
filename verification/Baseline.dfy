/** The behaviour baseline of a user: one loop over the traffic fills all histograms and totals. */
module Baseline {
  import opened Wrappers
  import opened Histograms
  import opened PlainObjects

  type Hour = h: nat | h < 24

  datatype TrafficSample = TrafficSample(timestamp: int, url: string, destinationHost: string, destinationPort: Option<int>,
                                         verb: string, policyDecision: string, threatVerdict: string, riskScore: int)

  /** What the platform computes for us: the local hour of a time, upper case, port texts, and what is a file url. */
  datatype Platform = Platform(clockHour: int -> int, upper: string -> string, portText: Option<int> -> string,
                               isDownload: string -> bool)

  /** The local hour of a log, whatever the time zone rules are. */
  function LocalHour(log: TrafficSample, p: Platform): Hour {
    p.clockHour(log.timestamp) % 24
  }

  /** UTC day and hour, numbered in order; they stand for the ISO texts cut to days and hours. */
  function DayKey(log: TrafficSample): int {
    log.timestamp / 86_400_000
  }

  function HourKey(log: TrafficSample): int {
    log.timestamp / 3_600_000
  }

  predicate IsBlock(log: TrafficSample) {
    log.policyDecision == "BLOCK"
  }

  // ----- the parts of a list of logs -----

  function Project<K>(logs: seq<TrafficSample>, f: TrafficSample -> K): (r: seq<K>)
    ensures |r| == |logs|
  {
    seq(|logs|, i requires 0 <= i < |logs| => f(logs[i]))
  }

  function Select(logs: seq<TrafficSample>, keep: TrafficSample -> bool): seq<TrafficSample> {
    if logs == [] then []
    else
      var last := |logs| - 1;
      Select(logs[..last], keep) + if keep(logs[last]) then [logs[last]] else []
  }

  lemma ProjectOneMore<K>(logs: seq<TrafficSample>, log: TrafficSample, f: TrafficSample -> K)
    ensures Project(logs + [log], f) == Project(logs, f) + [f(log)]
  {
  }

  lemma SelectOneMore(logs: seq<TrafficSample>, log: TrafficSample, keep: TrafficSample -> bool)
    ensures Select(logs + [log], keep) == Select(logs, keep) + if keep(log) then [log] else []
  {
  }

  /** The same in a plain object, with its inherited names. */
  function TableBy(logs: seq<TrafficSample>, key: TrafficSample -> string): Table {
    Tabulated(Project(logs, key))
  }

  lemma TableByOneMore(logs: seq<TrafficSample>, log: TrafficSample, key: TrafficSample -> string)
    ensures TableBy(logs + [log], key) == IncrementCount(TableBy(logs, key), key(log))
  {
    ProjectOneMore(logs, log, key);
    TabulatedOneMore(Project(logs, key), key(log));
  }

  /** The logs with the given key. */
  function KeyIs<K(==)>(key: TrafficSample -> K, k: K): TrafficSample -> bool { log => key(log) == k }

  /** How many of the logs have each key. */
  function CountBy<K(==)>(logs: seq<TrafficSample>, key: TrafficSample -> K): Counts<K> {
    Histogram(Project(logs, key))
  }

  lemma CountByOneMore<K>(logs: seq<TrafficSample>, log: TrafficSample, key: TrafficSample -> K)
    ensures CountBy(logs + [log], key) == Increment(CountBy(logs, key), key(log))
  {
    ProjectOneMore(logs, log, key);
    HistogramOneMore(Project(logs, key), key(log));
  }

  lemma OneMore(logs: seq<TrafficSample>, i: nat)
    requires i < |logs|
    ensures logs[..i + 1] == logs[..i] + [logs[i]]
  {
  }

  lemma AllOf(logs: seq<TrafficSample>)
    ensures logs[..|logs|] == logs
  {
  }

  /** How many of the selected logs have each key. */
  function CountSelected<K(==)>(logs: seq<TrafficSample>, keep: TrafficSample -> bool, key: TrafficSample -> K): Counts<K> {
    CountBy(Select(logs, keep), key)
  }

  lemma CountSelectedOneMore<K>(logs: seq<TrafficSample>, log: TrafficSample, keep: TrafficSample -> bool, key: TrafficSample -> K)
    ensures CountSelected(logs + [log], keep, key) ==
            if keep(log) then Increment(CountSelected(logs, keep, key), key(log)) else CountSelected(logs, keep, key)
  {
    SelectOneMore(logs, log, keep);
    if keep(log) {
      CountByOneMore(Select(logs, keep), log, key);
    } else {
      assert Select(logs, keep) + [] == Select(logs, keep);
    }
  }

  /** How many logs fall into each local hour. */
  function HourCounts(logs: seq<TrafficSample>, p: Platform): (r: seq<nat>)
    ensures |r| == 24
  {
    seq(24, h requires 0 <= h < 24 => |Select(logs, (log: TrafficSample) => LocalHour(log, p) == h)|)
  }

  lemma HourCountsOneMore(logs: seq<TrafficSample>, log: TrafficSample, p: Platform)
    ensures var before, h := HourCounts(logs, p), LocalHour(log, p);
            HourCounts(logs + [log], p) == before[h := before[h] + 1]
  {
  }

  /** The hosts contacted on each day. */
  function HostsByDay(logs: seq<TrafficSample>): map<int, set<string>> {
    map day | day in Project(logs, DayKey) :: HostsOn(logs, day)
  }

  function HostsOn(logs: seq<TrafficSample>, day: int): set<string> {
    set log | log in logs && DayKey(log) == day :: log.destinationHost
  }

  lemma HostsOnOneMore(logs: seq<TrafficSample>, log: TrafficSample, day: int)
    ensures HostsOn(logs + [log], day) == HostsOn(logs, day) + if day == DayKey(log) then {log.destinationHost} else {}
  {
  }

  /** Adds a host to a day of the table. */
  function AddHost(table: map<int, set<string>>, day: int, host: string): map<int, set<string>> {
    table[day := (if day in table then table[day] else {}) + {host}]
  }

  lemma HostsByDayAt(logs: seq<TrafficSample>, log: TrafficSample, day: int)
    ensures day in HostsByDay(logs + [log]) <==> day in HostsByDay(logs) || day == DayKey(log)
    ensures day in HostsByDay(logs + [log]) && day != DayKey(log) ==> HostsByDay(logs + [log])[day] == HostsByDay(logs)[day]
  {
    ProjectOneMore(logs, log, DayKey);
    HostsOnOneMore(logs, log, day);
  }

  lemma HostsToday(logs: seq<TrafficSample>, log: TrafficSample)
    ensures var day := DayKey(log);
            && day in HostsByDay(logs + [log])
            && HostsByDay(logs + [log])[day] == (if day in HostsByDay(logs) then HostsByDay(logs)[day] else {}) + {log.destinationHost}
  {
    ProjectOneMore(logs, log, DayKey);
    HostsOnOneMore(logs, log, DayKey(log));
    if DayKey(log) !in Project(logs, DayKey) {
      NoHostsOnOtherDays(logs, DayKey(log));
    }
  }

  lemma HostsByDayOneMore(logs: seq<TrafficSample>, log: TrafficSample)
    ensures HostsByDay(logs + [log]) == AddHost(HostsByDay(logs), DayKey(log), log.destinationHost)
  {
    var after, expected := HostsByDay(logs + [log]), AddHost(HostsByDay(logs), DayKey(log), log.destinationHost);
    HostsToday(logs, log);
    forall day
      ensures day in after <==> day in expected
      ensures day in after && day in expected ==> after[day] == expected[day]
    {
      HostsByDayAt(logs, log, day);
    }
  }

  lemma NoHostsOnOtherDays(logs: seq<TrafficSample>, day: int)
    requires day !in Project(logs, DayKey)
    ensures HostsOn(logs, day) == {}
  {
    forall log | log in logs ensures DayKey(log) != day {
      var i :| 0 <= i < |logs| && logs[i] == log;
      assert Project(logs, DayKey)[i] == DayKey(log);
    }
  }

  function RiskSum(logs: seq<TrafficSample>): int {
    if logs == [] then 0 else RiskSum(logs[..|logs| - 1]) + logs[|logs| - 1].riskScore
  }

  /** The highest risk, but never below zero. */
  function RiskMax(logs: seq<TrafficSample>): (m: int)
    ensures 0 <= m && forall log :: log in logs ==> log.riskScore <= m
    ensures m == 0 || exists log :: log in logs && log.riskScore == m
  {
    if logs == [] then 0
    else
      var last, m := logs[|logs| - 1], RiskMax(logs[..|logs| - 1]);
      assert logs == logs[..|logs| - 1] + [last];
      if m > last.riskScore then m else last.riskScore
  }

  // ----- everything the loop collects -----

  datatype Tally = Tally(
    activeHours: seq<nat>,
    perDay: Counts<int>,
    perHour: Counts<int>,
    blockedPerDay: Counts<int>,
    downloadsPerDay: Counts<int>,
    hostsPerDay: map<int, set<string>>,
    hosts: Table,
    policyDecisions: Table,
    threatVerdicts: Table,
    methods: Table,
    ports: Table,
    riskSum: int,
    riskMax: int,
    uploads: nat)

  function HostOf(log: TrafficSample): string { log.destinationHost }

  function VerbOf(p: Platform): TrafficSample -> string { (log: TrafficSample) => p.upper(log.verb) }

  function PortOf(p: Platform): TrafficSample -> string { (log: TrafficSample) => p.portText(log.destinationPort) }

  function IsDownload(p: Platform): TrafficSample -> bool { (log: TrafficSample) => p.isDownload(log.url) }

  function IsUpload(p: Platform): TrafficSample -> bool {
    (log: TrafficSample) => p.upper(log.verb) == "POST" || p.upper(log.verb) == "PUT"
  }

  function DecisionOf(log: TrafficSample): string { log.policyDecision }

  function VerdictOf(log: TrafficSample): string { log.threatVerdict }

  function Zeros(n: nat): (r: seq<nat>)
    ensures |r| == n
  {
    seq(n, _ => 0)
  }

  /** The tables counted over all logs, each on its own by one key: two maps, and five plain objects. */
  predicate CountsAre(t: Tally, logs: seq<TrafficSample>, p: Platform) {
    && t.perDay == CountBy(logs, DayKey)
    && t.perHour == CountBy(logs, HourKey)
    && t.hosts == TableBy(logs, HostOf)
    && t.policyDecisions == TableBy(logs, DecisionOf)
    && t.threatVerdicts == TableBy(logs, VerdictOf)
    && t.methods == TableBy(logs, VerbOf(p))
    && t.ports == TableBy(logs, PortOf(p))
  }

  /** The totals counted over some of the logs, and those that are not tables of counts. */
  predicate TotalsAre(t: Tally, logs: seq<TrafficSample>, p: Platform) {
    && t.activeHours == HourCounts(logs, p)
    && t.hostsPerDay == HostsByDay(logs)
    && t.blockedPerDay == CountSelected(logs, IsBlock, DayKey)
    && t.downloadsPerDay == CountSelected(logs, IsDownload(p), DayKey)
    && t.riskSum == RiskSum(logs)
    && t.riskMax == RiskMax(logs)
    && t.uploads == |Select(logs, IsUpload(p))|
  }

  /** One more log for every table of counts. */
  predicate CountsGrow(t: Tally, t': Tally, log: TrafficSample, p: Platform) {
    && t'.perDay == Increment(t.perDay, DayKey(log))
    && t'.perHour == Increment(t.perHour, HourKey(log))
    && t'.hosts == IncrementCount(t.hosts, log.destinationHost)
    && t'.policyDecisions == IncrementCount(t.policyDecisions, log.policyDecision)
    && t'.threatVerdicts == IncrementCount(t.threatVerdicts, log.threatVerdict)
    && t'.methods == IncrementCount(t.methods, p.upper(log.verb))
    && t'.ports == IncrementCount(t.ports, p.portText(log.destinationPort))
  }

  /** One more log for the other totals. */
  predicate TotalsGrow(t: Tally, t': Tally, log: TrafficSample, p: Platform)
    requires |t.activeHours| == 24
  {
    var hour := LocalHour(log, p);
    && t'.activeHours == t.activeHours[hour := t.activeHours[hour] + 1]
    && t'.hostsPerDay == AddHost(t.hostsPerDay, DayKey(log), log.destinationHost)
    && t'.blockedPerDay == (if IsBlock(log) then Increment(t.blockedPerDay, DayKey(log)) else t.blockedPerDay)
    && t'.downloadsPerDay == (if p.isDownload(log.url) then Increment(t.downloadsPerDay, DayKey(log)) else t.downloadsPerDay)
    && t'.riskSum == t.riskSum + log.riskScore
    && t'.riskMax == (if t.riskMax > log.riskScore then t.riskMax else log.riskScore)
    && t'.uploads == t.uploads + if IsUpload(p)(log) then 1 else 0
  }

  lemma CountsOneMore(t: Tally, t': Tally, logs: seq<TrafficSample>, log: TrafficSample, p: Platform)
    requires CountsAre(t, logs, p) && CountsGrow(t, t', log, p)
    ensures CountsAre(t', logs + [log], p)
  {
    CountByOneMore(logs, log, DayKey);
    CountByOneMore(logs, log, HourKey);
    TableByOneMore(logs, log, HostOf);
    TableByOneMore(logs, log, DecisionOf);
    TableByOneMore(logs, log, VerdictOf);
    TableByOneMore(logs, log, VerbOf(p));
    TableByOneMore(logs, log, PortOf(p));
  }

  lemma SelectionsOneMore(logs: seq<TrafficSample>, log: TrafficSample, p: Platform)
    ensures CountSelected(logs + [log], IsBlock, DayKey) ==
            var blocked := CountSelected(logs, IsBlock, DayKey);
            if IsBlock(log) then Increment(blocked, DayKey(log)) else blocked
    ensures CountSelected(logs + [log], IsDownload(p), DayKey) ==
            var downloads := CountSelected(logs, IsDownload(p), DayKey);
            if p.isDownload(log.url) then Increment(downloads, DayKey(log)) else downloads
    ensures |Select(logs + [log], IsUpload(p))| == |Select(logs, IsUpload(p))| + if IsUpload(p)(log) then 1 else 0
  {
    CountSelectedOneMore(logs, log, IsBlock, DayKey);
    CountSelectedOneMore(logs, log, IsDownload(p), DayKey);
    SelectOneMore(logs, log, IsUpload(p));
  }

  lemma RisksOneMore(logs: seq<TrafficSample>, log: TrafficSample)
    ensures RiskSum(logs + [log]) == RiskSum(logs) + log.riskScore
    ensures RiskMax(logs + [log]) == if RiskMax(logs) > log.riskScore then RiskMax(logs) else log.riskScore
  {
  }

  lemma TotalsOneMore(t: Tally, t': Tally, logs: seq<TrafficSample>, log: TrafficSample, p: Platform)
    requires TotalsAre(t, logs, p) && TotalsGrow(t, t', log, p)
    ensures TotalsAre(t', logs + [log], p)
  {
    HourCountsOneMore(logs, log, p);
    HostsByDayOneMore(logs, log);
    SelectionsOneMore(logs, log, p);
    RisksOneMore(logs, log);
  }

  function Nothing(): Tally {
    Tally(Zeros(24), map[], map[], map[], map[], map[], map[], map[], map[], map[], map[], 0, 0, 0)
  }

  lemma NothingYet(logs: seq<TrafficSample>, p: Platform)
    ensures |Nothing().activeHours| == 24
    ensures CountsAre(Nothing(), logs[..0], p) && TotalsAre(Nothing(), logs[..0], p)
  {
  }

  /** The body of the loop. */
  method AddLog(before: Tally, log: TrafficSample, p: Platform) returns (t: Tally)
    requires |before.activeHours| == 24
    ensures |t.activeHours| == 24 && CountsGrow(before, t, log, p) && TotalsGrow(before, t, log, p)
  {
    var day, hour, verb := DayKey(log), LocalHour(log, p), p.upper(log.verb);
    var blockedPerDay, downloadsPerDay, uploads := before.blockedPerDay, before.downloadsPerDay, before.uploads;
    if log.policyDecision == "BLOCK" {
      blockedPerDay := Increment(blockedPerDay, day);
    }
    if verb == "POST" || verb == "PUT" {
      uploads := uploads + 1;
    }
    if p.isDownload(log.url) {
      downloadsPerDay := Increment(downloadsPerDay, day);
    }
    var dayHosts := if day in before.hostsPerDay then before.hostsPerDay[day] else {};
    t := Tally(
      before.activeHours[hour := before.activeHours[hour] + 1],
      Increment(before.perDay, day),
      Increment(before.perHour, HourKey(log)),
      blockedPerDay,
      downloadsPerDay,
      before.hostsPerDay[day := dayHosts + {log.destinationHost}],
      IncrementCount(before.hosts, log.destinationHost),
      IncrementCount(before.policyDecisions, log.policyDecision),
      IncrementCount(before.threatVerdicts, log.threatVerdict),
      IncrementCount(before.methods, verb),
      IncrementCount(before.ports, p.portText(log.destinationPort)),
      before.riskSum + log.riskScore,
      if before.riskMax > log.riskScore then before.riskMax else log.riskScore,
      uploads);
  }

  /** One loop fills all histograms and totals; each ends as if it had been computed on its own. */
  method Accumulate(logs: seq<TrafficSample>, p: Platform) returns (t: Tally)
    ensures CountsAre(t, logs, p) && TotalsAre(t, logs, p)
  {
    t := Nothing();
    NothingYet(logs, p);
    for i := 0 to |logs|
      invariant |t.activeHours| == 24
      invariant CountsAre(t, logs[..i], p) && TotalsAre(t, logs[..i], p)
    {
      ghost var before := t;
      t := AddLog(t, logs[i], p);
      CountsOneMore(before, t, logs[..i], logs[i], p);
      TotalsOneMore(before, t, logs[..i], logs[i], p);
      OneMore(logs, i);
    }
    AllOf(logs);
  }

  // ----- conservation -----

  lemma {:induction false} OccurrencesAreSelected<K(!new)>(logs: seq<TrafficSample>, key: TrafficSample -> K, k: K)
    ensures multiset(Project(logs, key))[k] == |Select(logs, KeyIs(key, k))|
  {
    if logs == [] {
    } else {
      var last := |logs| - 1;
      assert logs == logs[..last] + [logs[last]];
      OccurrencesAreSelected(logs[..last], key, k);
      ProjectOneMore(logs[..last], logs[last], key);
    }
  }

  /** A count in a map is what filtering by its key and counting would give. */
  lemma CountIsFilterAndCount<K(!new)>(logs: seq<TrafficSample>, key: TrafficSample -> K, k: K)
    ensures multiset(Project(logs, key))[k] == |Select(logs, KeyIs(key, k))|
    ensures k in CountBy(logs, key) ==> CountBy(logs, key)[k] == |Select(logs, KeyIs(key, k))|
    ensures k in CountBy(logs, key) <==> |Select(logs, KeyIs(key, k))| > 0
  {
    OccurrencesAreSelected(logs, key, k);
    assert k in Project(logs, key) <==> k in multiset(Project(logs, key));
  }

  // ----- every total, by filtering the logs -----

  /** How many of the logs pass a test. */
  function HowMany(logs: seq<TrafficSample>, test: TrafficSample -> bool): nat {
    if logs == [] then 0 else HowMany(logs[..|logs| - 1], test) + if test(logs[|logs| - 1]) then 1 else 0
  }

  lemma {:induction false} SelectedAreHowMany(logs: seq<TrafficSample>, keep: TrafficSample -> bool, test: TrafficSample -> bool)
    requires forall log :: keep(log) == test(log)
    ensures |Select(logs, keep)| == HowMany(logs, test)
  {
    if logs == [] {
    } else {
      SelectedAreHowMany(logs[..|logs| - 1], keep, test);
    }
  }

  lemma {:induction false} SelectedTwiceAreHowMany(logs: seq<TrafficSample>, keep: TrafficSample -> bool,
                                                   again: TrafficSample -> bool, test: TrafficSample -> bool)
    requires forall log :: (keep(log) && again(log)) == test(log)
    ensures |Select(Select(logs, keep), again)| == HowMany(logs, test)
  {
    if logs == [] {
    } else {
      var last := |logs| - 1;
      SelectedTwiceAreHowMany(logs[..last], keep, again, test);
      if keep(logs[last]) {
        SelectOneMore(Select(logs[..last], keep), logs[last], again);
      } else {
        assert Select(logs, keep) == Select(logs[..last], keep);
      }
    }
  }

  function CountAt(counts: Counts<int>, key: int): nat {
    if key in counts then counts[key] else 0
  }

  lemma CountAtIsHowMany(logs: seq<TrafficSample>, key: TrafficSample -> int, k: int, test: TrafficSample -> bool)
    requires forall log :: (key(log) == k) == test(log)
    ensures CountAt(CountBy(logs, key), k) == HowMany(logs, test)
  {
    CountIsFilterAndCount(logs, key, k);
    SelectedAreHowMany(logs, KeyIs(key, k), test);
  }

  lemma CountSelectedIsHowMany(logs: seq<TrafficSample>, keep: TrafficSample -> bool, key: TrafficSample -> int, k: int,
                               test: TrafficSample -> bool)
    requires forall log :: (keep(log) && key(log) == k) == test(log)
    ensures CountAt(CountSelected(logs, keep, key), k) == HowMany(logs, test)
  {
    CountIsFilterAndCount(Select(logs, keep), key, k);
    SelectedTwiceAreHowMany(logs, keep, KeyIs(key, k), test);
  }

  /** For each UTC hour and day: all requests, the blocked ones and the downloads, each as the number that pass one test. */
  lemma CountsPerHourAndDay(t: Tally, logs: seq<TrafficSample>, p: Platform, day: int, hour: int)
    requires CountsAre(t, logs, p) && TotalsAre(t, logs, p)
    ensures CountAt(t.perHour, hour) == HowMany(logs, (log: TrafficSample) => log.timestamp / 3_600_000 == hour)
    ensures CountAt(t.perDay, day) == HowMany(logs, (log: TrafficSample) => log.timestamp / 86_400_000 == day)
    ensures CountAt(t.blockedPerDay, day) ==
            HowMany(logs, (log: TrafficSample) => log.policyDecision == "BLOCK" && log.timestamp / 86_400_000 == day)
    ensures CountAt(t.downloadsPerDay, day) ==
            HowMany(logs, (log: TrafficSample) => p.isDownload(log.url) && log.timestamp / 86_400_000 == day)
  {
    CountAtIsHowMany(logs, HourKey, hour, (log: TrafficSample) => log.timestamp / 3_600_000 == hour);
    CountAtIsHowMany(logs, DayKey, day, (log: TrafficSample) => log.timestamp / 86_400_000 == day);
    CountSelectedIsHowMany(logs, IsBlock, DayKey, day,
      (log: TrafficSample) => log.policyDecision == "BLOCK" && log.timestamp / 86_400_000 == day);
    CountSelectedIsHowMany(logs, IsDownload(p), DayKey, day,
      (log: TrafficSample) => p.isDownload(log.url) && log.timestamp / 86_400_000 == day);
  }

  /** The uploads are the requests that post or put, and a local hour counts the requests of that hour. */
  lemma UploadsAndLocalHours(t: Tally, logs: seq<TrafficSample>, p: Platform, hour: Hour)
    requires TotalsAre(t, logs, p)
    ensures t.uploads == HowMany(logs, (log: TrafficSample) => p.upper(log.verb) in {"POST", "PUT"})
    ensures t.activeHours[hour] == HowMany(logs, (log: TrafficSample) => p.clockHour(log.timestamp) % 24 == hour)
  {
    SelectedAreHowMany(logs, IsUpload(p), (log: TrafficSample) => p.upper(log.verb) in {"POST", "PUT"});
    SelectedAreHowMany(logs, (log: TrafficSample) => LocalHour(log, p) == hour,
      (log: TrafficSample) => p.clockHour(log.timestamp) % 24 == hour);
  }

  lemma {:induction false} ZerosAddUpToNothing(n: nat)
    ensures SeqSum(Zeros(n)) == 0
  {
    if n == 0 {
    } else {
      assert Zeros(n)[..n - 1] == Zeros(n - 1);
      ZerosAddUpToNothing(n - 1);
    }
  }

  lemma {:induction false} HoursConserve(logs: seq<TrafficSample>, p: Platform)
    ensures SeqSum(HourCounts(logs, p)) == |logs|
  {
    if logs == [] {
      assert HourCounts(logs, p) == Zeros(24);
      ZerosAddUpToNothing(24);
    } else {
      var last := |logs| - 1;
      assert logs == logs[..last] + [logs[last]];
      HoursConserve(logs[..last], p);
      HourCountsOneMore(logs[..last], logs[last], p);
      var before, h := HourCounts(logs[..last], p), LocalHour(logs[last], p);
      SeqSumUpdate(before, h, before[h] + 1);
    }
  }

  /** The hours, days and hours of days each add up to the number of logs. */
  lemma HistogramsConserve(t: Tally, logs: seq<TrafficSample>, p: Platform)
    requires CountsAre(t, logs, p) && TotalsAre(t, logs, p)
    ensures SeqSum(t.activeHours) == |logs|
    ensures MapSum(t.perDay) == |logs| && MapSum(t.perHour) == |logs|
  {
    HoursConserve(logs, p);
    HistogramConserves(Project(logs, DayKey));
    HistogramConserves(Project(logs, HourKey));
  }

  predicate NoInheritedName(logs: seq<TrafficSample>, key: TrafficSample -> string) {
    forall i :: 0 <= i < |logs| ==> !IsInherited(key(logs[i]))
  }

  lemma NoneProjected(logs: seq<TrafficSample>, key: TrafficSample -> string)
    ensures NoneInherited(Project(logs, key)) <==> NoInheritedName(logs, key)
  {
    var names := Project(logs, key);
    forall i | 0 <= i < |logs| ensures names[i] == key(logs[i]) && names[i] in names {
    }
  }

  /** The numbers of a plain table add up to the number of logs exactly if no log was counted under an inherited name. */
  lemma TableConserves(logs: seq<TrafficSample>, key: TrafficSample -> string)
    ensures MapSum(Numbers(TableBy(logs, key))) <= |logs|
    ensures MapSum(Numbers(TableBy(logs, key))) == |logs| <==> NoInheritedName(logs, key)
  {
    SumIsRight(Project(logs, key));
    ProperIsAllOrLess(Project(logs, key));
    NoneProjected(logs, key);
  }

  /** Each of the five plain tables conserves the logs exactly if none of its names is inherited. */
  lemma TablesConserve(t: Tally, logs: seq<TrafficSample>, p: Platform)
    requires CountsAre(t, logs, p)
    ensures MapSum(Numbers(t.hosts)) == |logs| <==> NoInheritedName(logs, HostOf)
    ensures MapSum(Numbers(t.policyDecisions)) == |logs| <==> NoInheritedName(logs, DecisionOf)
    ensures MapSum(Numbers(t.threatVerdicts)) == |logs| <==> NoInheritedName(logs, VerdictOf)
    ensures MapSum(Numbers(t.methods)) == |logs| <==> NoInheritedName(logs, VerbOf(p))
    ensures MapSum(Numbers(t.ports)) == |logs| <==> NoInheritedName(logs, PortOf(p))
  {
    TableConserves(logs, HostOf);
    TableConserves(logs, DecisionOf);
    TableConserves(logs, VerdictOf);
    TableConserves(logs, VerbOf(p));
    TableConserves(logs, PortOf(p));
  }

  /** Under one name, a plain table holds the number of logs with that name exactly if the name is not inherited. */
  lemma TableEntryIsCount(logs: seq<TrafficSample>, key: TrafficSample -> string, k: string)
    ensures var n := |Select(logs, KeyIs(key, k))|;
            && (n == 0 ==> k !in TableBy(logs, key))
            && (n > 0 ==> (k in TableBy(logs, key) && TableBy(logs, key)[k] == Number(n) <==> !IsInherited(k)))
  {
    CountIsFilterAndCount(logs, key, k);
  }

  /** A table is numbers that agree with filtering and counting exactly if no log was counted under an inherited name. */
  lemma TableIsFilterAndCount(logs: seq<TrafficSample>, key: TrafficSample -> string)
    ensures TableBy(logs, key) == AsTable(CountBy(logs, key)) <==> NoInheritedName(logs, key)
  {
    TableIsRight(Project(logs, key));
    NoneProjected(logs, key);
  }

  /**
   * The host counts are numbers, are what filtering and counting gives, and add up to the number of logs, exactly if
   * no log went to a host with an inherited name.
   */
  lemma HostCountsAreRight(t: Tally, logs: seq<TrafficSample>, p: Platform)
    requires CountsAre(t, logs, p)
    ensures && AllNumbers(t.hosts)
            && t.hosts == AsTable(CountBy(logs, HostOf))
            && MapSum(Numbers(t.hosts)) == |logs|
            <==> NoInheritedName(logs, HostOf)
  {
    TableIsFilterAndCount(logs, HostOf);
    TableConserves(logs, HostOf);
  }

  /** One request to the host `toString` leaves a text where its count should be, one to `__proto__` leaves nothing. */
  lemma InheritedHostsAreMiscounted(log: TrafficSample)
    ensures TableBy([log.(destinationHost := "toString")], HostOf) ==
            map["toString" := Text("function toString() { [native code] }1")]
    ensures TableBy([log.(destinationHost := PROTO)], HostOf) == map[]
  {
    InheritedNamesAreMiscounted();
    HostOfOne(log, "toString");
    HostOfOne(log, PROTO);
  }

  lemma HostOfOne(log: TrafficSample, host: string)
    ensures Project([log.(destinationHost := host)], HostOf) == [host]
  {
    var names := Project([log.(destinationHost := host)], HostOf);
    assert |names| == 1 && names[0] == HostOf(log.(destinationHost := host));
  }

  lemma BlockCount(logs: seq<TrafficSample>)
    ensures var decisions := Numbers(TableBy(logs, DecisionOf));
            |Select(logs, IsBlock)| == if "BLOCK" in decisions then decisions["BLOCK"] else 0
  {
    TableEntryIsCount(logs, DecisionOf, "BLOCK");
    var hasKey := KeyIs(DecisionOf, "BLOCK");
    forall log ensures IsBlock(log) == hasKey(log) {
      assert hasKey(log) == (DecisionOf(log) == "BLOCK");
    }
    SelectTheSame(logs, IsBlock, hasKey);
  }

  /** The blocks of all days add up to the count of the decision BLOCK, whatever else was counted. */
  lemma BlocksAddUp(t: Tally, logs: seq<TrafficSample>, p: Platform)
    requires CountsAre(t, logs, p) && TotalsAre(t, logs, p)
    ensures var decisions := Numbers(t.policyDecisions);
            MapSum(t.blockedPerDay) == if "BLOCK" in decisions then decisions["BLOCK"] else 0
  {
    HistogramConserves(Project(Select(logs, IsBlock), DayKey));
    BlockCount(logs);
  }

  lemma {:induction false} SelectTheSame(logs: seq<TrafficSample>, keep: TrafficSample -> bool, keep': TrafficSample -> bool)
    requires forall log :: keep(log) == keep'(log)
    ensures Select(logs, keep) == Select(logs, keep')
  {
    if logs == [] {
    } else {
      SelectTheSame(logs[..|logs| - 1], keep, keep');
    }
  }

  lemma {:induction false} SelectedAreMembers(logs: seq<TrafficSample>, keep: TrafficSample -> bool)
    ensures forall log :: log in Select(logs, keep) <==> log in logs && keep(log)
  {
    if logs == [] {
    } else {
      var last := |logs| - 1;
      SelectedAreMembers(logs[..last], keep);
      assert logs == logs[..last] + [logs[last]];
    }
  }

  lemma HostsOnAreFew(logs: seq<TrafficSample>, day: int, ofDay: seq<TrafficSample>)
    requires forall log :: log in ofDay <==> log in logs && DayKey(log) == day
    ensures |HostsOn(logs, day)| <= |ofDay|
  {
    var names := Project(ofDay, HostOf);
    forall host | host in HostsOn(logs, day) ensures host in names {
      var log :| log in logs && DayKey(log) == day && log.destinationHost == host;
      var i :| 0 <= i < |ofDay| && ofDay[i] == log;
      assert names[i] == HostOf(ofDay[i]);
    }
    DistinctAtMostAll(names, HostsOn(logs, day));
  }

  /** On each day with traffic there are no more hosts than requests, and the days are the same in both tables. */
  lemma HostsAtMostRequests(logs: seq<TrafficSample>, day: int)
    ensures day in HostsByDay(logs) <==> day in CountBy(logs, DayKey)
    ensures day in HostsByDay(logs) ==> |HostsByDay(logs)[day]| <= CountBy(logs, DayKey)[day]
  {
    CountIsFilterAndCount(logs, DayKey, day);
    SelectedAreMembers(logs, KeyIs(DayKey, day));
    HostsOnAreFew(logs, day, Select(logs, KeyIs(DayKey, day)));
  }
}
