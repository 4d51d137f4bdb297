/** What the baseline keeps of the totals: the busiest hours, the known hosts and the rounded averages. */
module Snapshot {
  import opened Histograms
  import opened PlainObjects
  import opened Baseline
  import opened Entries
  import opened KnownHosts

  // ----- the values of a table -----

  function CountOf<K>(table: Counts<K>, key: K): nat {
    if key in table then table[key] else 0
  }

  /** The values of a table. */
  function CountsOf<K(==)>(order: seq<K>, table: Counts<K>): (r: seq<nat>)
    ensures |r| == |order|
  {
    seq(|order|, i requires 0 <= i < |order| => CountOf(table, order[i]))
  }

  ghost predicate Lists<K(!new)>(order: seq<K>, table: Counts<K>) {
    NoneTwice(order) && forall k :: k in order <==> k in table
  }

  lemma ListsWithoutLast<K(!new)>(order: seq<K>, table: Counts<K>)
    requires Lists(order, table) && order != []
    ensures var last := |order| - 1;
            var rest := table - {order[last]};
            && Lists(order[..last], rest)
            && CountsOf(order, table)[..last] == CountsOf(order[..last], rest)
  {
  }

  /** Whatever the order, the values of a table add up to the same sum. */
  lemma {:induction false} CountsOfAddUp<K(!new)>(order: seq<K>, table: Counts<K>)
    requires Lists(order, table)
    ensures SeqSum(CountsOf(order, table)) == MapSum(table)
  {
    if order == [] {
      assert table == map[];
    } else {
      var key := order[|order| - 1];
      ListsWithoutLast(order, table);
      CountsOfAddUp(order[..|order| - 1], table - {key});
      MapSumWithout(table, key);
    }
  }

  // ----- the busiest hours -----

  const MOST_ACTIVE_HOUR_SHARE := 0.05

  predicate IsBusy(count: nat, total: nat) {
    count as real >= total as real * MOST_ACTIVE_HOUR_SHARE
  }

  lemma BusyByCount(count: nat, total: nat)
    ensures IsBusy(count, total) <==> 20 * count >= total
  {
  }

  /** The hours with at least their share of all requests, in order of the clock. */
  function BusyHours(activeHours: seq<nat>, total: nat): seq<Cell<nat>> {
    if activeHours == [] then []
    else
      var hour := |activeHours| - 1;
      BusyHours(activeHours[..hour], total) + if IsBusy(activeHours[hour], total) then [Cell(hour, Number(activeHours[hour]))] else []
  }

  function MostActiveHours(activeHours: seq<nat>, total: nat): seq<nat> {
    Names(StableSort(BusyHours(activeHours, total)))
  }

  lemma {:induction false} BusyHoursAreBusy(activeHours: seq<nat>, total: nat)
    ensures forall e :: e in BusyHours(activeHours, total) <==>
      e.name < |activeHours| && e.value == Number(activeHours[e.name]) && IsBusy(activeHours[e.name], total)
  {
    if activeHours == [] {
    } else {
      BusyHoursAreBusy(activeHours[..|activeHours| - 1], total);
    }
  }

  lemma MostActiveHoursAreBusy(activeHours: seq<nat>, total: nat, hour: nat)
    requires hour < |activeHours|
    ensures hour in MostActiveHours(activeHours, total) <==> IsBusy(activeHours[hour], total)
  {
    var busy := BusyHours(activeHours, total);
    BusyHoursAreBusy(activeHours, total);
    StableSortKeepsAll(busy);
    NamesOfMembers(StableSort(busy), hour);
    assert IsBusy(activeHours[hour], total) ==> Cell(hour, Number(activeHours[hour])) in StableSort(busy);
  }

  predicate FallsBetween(hours: seq<nat>, counts: seq<nat>, i: nat, j: nat)
    requires i < j < |hours|
  {
    hours[i] < |counts| && hours[j] < |counts| && counts[hours[i]] >= counts[hours[j]]
  }

  predicate ByFallingCount(hours: seq<nat>, counts: seq<nat>) {
    forall i, j :: 0 <= i < j < |hours| ==> FallsBetween(hours, counts, i, j)
  }

  lemma MostActiveHoursFall(activeHours: seq<nat>, total: nat, i: nat, j: nat)
    requires i < j < |MostActiveHours(activeHours, total)|
    ensures FallsBetween(MostActiveHours(activeHours, total), activeHours, i, j)
  {
    var busy := BusyHours(activeHours, total);
    BusyHoursAreBusy(activeHours, total);
    StableSortKeepsAll(busy);
    StableSortSorts(busy);
    var sorted := StableSort(busy);
    assert sorted[i] in busy && sorted[j] in busy;
    assert Compare(sorted[i], sorted[j]) <= 0;
  }

  /** The most active hours come by falling count. */
  lemma MostActiveHoursAllFall(activeHours: seq<nat>, total: nat)
    ensures ByFallingCount(MostActiveHours(activeHours, total), activeHours)
  {
    var hours := MostActiveHours(activeHours, total);
    forall i, j | 0 <= i < j < |hours|
      ensures FallsBetween(hours, activeHours, i, j)
    {
      MostActiveHoursFall(activeHours, total, i, j);
    }
  }

  lemma {:induction false} BusyHoursAreFew(activeHours: seq<nat>, total: nat)
    ensures |BusyHours(activeHours, total)| * total <= 20 * SeqSum(activeHours)
  {
    if activeHours == [] {
    } else {
      var last := |activeHours| - 1;
      BusyHoursAreFew(activeHours[..last], total);
      var n := |BusyHours(activeHours[..last], total)|;
      assert (n + 1) * total == n * total + total;
    }
  }

  /** At most twenty hours have a twentieth of a total that is not zero. */
  lemma AtMostTwentyActiveHours(activeHours: seq<nat>, total: nat)
    requires SeqSum(activeHours) == total > 0
    ensures |MostActiveHours(activeHours, total)| <= 20
  {
    BusyHoursAreFew(activeHours, total);
    StableSortKeepsAll(BusyHours(activeHours, total));
    AtMostTwenty(|BusyHours(activeHours, total)|, total);
  }

  lemma AtMostTwenty(n: nat, total: nat)
    requires n * total <= 20 * total && total > 0
    ensures n <= 20
  {
  }

  // ----- averages -----

  function Round(x: real): real {
    (x * 100.0 + 0.5).Floor as real / 100.0
  }

  /** A whole number of hundredths, less than half a hundredth below x or at most half a one above: halves go up. */
  predicate NearestHundredth(r: real, x: real) {
    (r * 100.0).Floor as real == r * 100.0 && -0.005 < r - x <= 0.005
  }

  lemma WholeHundredths(x: real, k: int)
    requires k == (x * 100.0 + 0.5).Floor
    ensures Round(x) * 100.0 == k as real
    ensures (Round(x) * 100.0).Floor == k
  {
  }

  /** The rounded number is the nearest hundredth, and the only one. */
  lemma RoundIsNearestHundredth(x: real, r: real)
    ensures NearestHundredth(r, x) <==> r == Round(x)
  {
    var k := (x * 100.0 + 0.5).Floor;
    WholeHundredths(x, k);
    if NearestHundredth(r, x) {
      var m := (r * 100.0).Floor;
      assert m as real - x * 100.0 <= 0.5 && -0.5 < m as real - x * 100.0;
      assert m == k;
    }
  }

  lemma FloorIsMonotone(x: real, y: real)
    requires x <= y
    ensures x.Floor <= y.Floor
  {
  }

  lemma RoundIsMonotone(x: real, y: real)
    requires x <= y
    ensures Round(x) <= Round(y)
  {
    FloorIsMonotone(x * 100.0 + 0.5, y * 100.0 + 0.5);
  }

  function Ratio(sum: nat, count: nat): real {
    if count == 0 then 0.0 else sum as real / count as real
  }

  function Mean(values: seq<nat>): real {
    Ratio(SeqSum(values), |values|)
  }

  function WithZeroFill(counts: seq<nat>, expectedLength: nat): seq<nat> {
    if |counts| >= expectedLength then counts else counts + Zeros(expectedLength - |counts|)
  }

  lemma ZeroFillOnlyLengthens(counts: seq<nat>, expectedLength: nat)
    ensures SeqSum(WithZeroFill(counts, expectedLength)) == SeqSum(counts)
    ensures |WithZeroFill(counts, expectedLength)| == if |counts| >= expectedLength then |counts| else expectedLength
  {
    if |counts| < expectedLength {
      SeqSumOfParts(counts, Zeros(expectedLength - |counts|));
      ZerosAddUpToNothing(expectedLength - |counts|);
    }
  }

  lemma LongerMeansLower(sum: nat, count: nat, longer: nat)
    requires 0 < count <= longer
    ensures Ratio(sum, longer) <= Ratio(sum, count)
  {
    var s, c, l := sum as real, count as real, longer as real;
    var q := s / l;
    assert q * l == s && q >= 0.0;
    assert q * c <= q * l;
    assert q <= s / c;
  }

  // ----- the snapshot -----

  datatype BehaviorBaseline = BehaviorBaseline(
    sampleSize: nat,
    activeHours: seq<nat>,
    mostActiveHours: seq<nat>,
    requestsPerHour: real,
    requestsPerActiveHour: real,
    knownHosts: seq<string>)

  /** The hours in which anything happened, each once, in the order of their table. */
  function HourOrder(logs: seq<TrafficSample>): seq<int> {
    FirstSeen(Project(logs, HourKey))
  }

  function ActiveHours(logs: seq<TrafficSample>): set<int> {
    set log | log in logs :: HourKey(log)
  }

  lemma OrderOfTable<K(!new)>(logs: seq<TrafficSample>, key: TrafficSample -> K)
    ensures Lists(FirstSeen(Project(logs, key)), CountBy(logs, key))
  {
    FirstSeenListsEachOnce(Project(logs, key));
  }

  // ----- what the averages and the hosts mean -----

  lemma HoursAreFewerThanLogs(logs: seq<TrafficSample>)
    ensures |ActiveHours(logs)| <= |logs|
  {
    var keys := Project(logs, HourKey);
    forall k | k in ActiveHours(logs) ensures k in keys {
      var i :| 0 <= i < |logs| && HourKey(logs[i]) == k;
      assert keys[i] == k;
    }
    DistinctAtMostAll(keys, ActiveHours(logs));
  }

  /** An hour in which anything happened counts at least one request, so their average is at least one. */
  lemma ActiveHoursAverageAtLeastOne(logs: seq<TrafficSample>)
    requires logs != []
    ensures Round(Ratio(|logs|, |ActiveHours(logs)|)) >= 1.0
  {
    HoursAreFewerThanLogs(logs);
    assert HourKey(logs[0]) in ActiveHours(logs);
    AtLeastOne(|logs|, |ActiveHours(logs)|);
  }

  lemma AtLeastOne(sum: nat, count: nat)
    requires sum >= count > 0
    ensures Round(Ratio(sum, count)) >= 1.0
  {
    var s, c := sum as real, count as real;
    assert s / c >= 1.0;
    RoundIsMonotone(1.0, s / c);
    assert Round(1.0) == 1.0;
  }

  // ----- the snapshot -----

  /** How many hours there are to average over: those of the window, or more if more were active. */
  function HoursInWindow(logs: seq<TrafficSample>, windowDays: nat): nat {
    if |ActiveHours(logs)| >= windowDays * 24 then |ActiveHours(logs)| else windowDays * 24
  }

  lemma {:induction false} OnceEach(keys: seq<int>, members: set<int>)
    requires NoneTwice(keys) && forall k :: k in keys <==> k in members
    ensures |keys| == |members|
  {
    if keys == [] {
      assert forall k :: k !in members;
    } else {
      var last := |keys| - 1;
      assert keys == keys[..last] + [keys[last]];
      assert keys[last] !in keys[..last];
      OnceEach(keys[..last], members - {keys[last]});
    }
  }

  lemma HourOrderListsActiveHours(logs: seq<TrafficSample>)
    ensures |HourOrder(logs)| == |ActiveHours(logs)|
  {
    var keys := Project(logs, HourKey);
    FirstSeenListsEachOnce(keys);
    forall k ensures k in keys <==> k in ActiveHours(logs) {
      if k in keys {
        var i :| 0 <= i < |keys| && keys[i] == k;
        assert logs[i] in logs;
      }
      if k in ActiveHours(logs) {
        var i :| 0 <= i < |logs| && HourKey(logs[i]) == k;
        assert keys[i] == k;
      }
    }
    OnceEach(HourOrder(logs), ActiveHours(logs));
  }

  /** Both averages divide the number of logs, one by the active hours, the other by all hours of the window. */
  lemma AveragesOfLogs(perHour: Counts<int>, logs: seq<TrafficSample>, windowDays: nat)
    requires perHour == CountBy(logs, HourKey)
    ensures var active := CountsOf(HourOrder(logs), perHour);
            && Mean(active) == Ratio(|logs|, |ActiveHours(logs)|)
            && Mean(WithZeroFill(active, windowDays * 24)) == Ratio(|logs|, HoursInWindow(logs, windowDays))
  {
    var active := CountsOf(HourOrder(logs), perHour);
    OrderOfTable(logs, HourKey);
    CountsOfAddUp(HourOrder(logs), perHour);
    HistogramConserves(Project(logs, HourKey));
    HourOrderListsActiveHours(logs);
    ZeroFillOnlyLengthens(active, windowDays * 24);
  }

  /** The fields of a snapshot, each in terms of the logs alone. */
  predicate IsSnapshot(b: BehaviorBaseline, logs: seq<TrafficSample>, p: Platform, sort: Sorter, windowDays: nat, maxKnownHosts: nat) {
    && b.sampleSize == |logs|
    && b.activeHours == HourCounts(logs, p)
    && b.mostActiveHours == MostActiveHours(HourCounts(logs, p), |logs|)
    && b.requestsPerHour == Round(Ratio(|logs|, HoursInWindow(logs, windowDays)))
    && b.requestsPerActiveHour == Round(Ratio(|logs|, |ActiveHours(logs)|))
    && b.knownHosts == KnownHostsOf(logs, TableBy(logs, HostOf), maxKnownHosts, sort)
  }

  /** The averages are in order, and the most active hours are the busy ones, twenty at most. */
  lemma SnapshotHours(b: BehaviorBaseline, logs: seq<TrafficSample>, p: Platform, sort: Sorter, windowDays: nat, maxKnownHosts: nat)
    requires IsSnapshot(b, logs, p, sort, windowDays, maxKnownHosts)
    ensures b.requestsPerHour <= b.requestsPerActiveHour
    ensures logs != [] ==> |b.mostActiveHours| <= 20
    ensures forall hour: nat :: hour < 24 ==> (hour in b.mostActiveHours <==> IsBusy(HourCounts(logs, p)[hour], |logs|))
    ensures ByFallingCount(b.mostActiveHours, HourCounts(logs, p))
  {
    if logs == [] {
      assert |ActiveHours(logs)| == 0;
      RoundIsMonotone(Ratio(0, HoursInWindow(logs, windowDays)), 0.0);
    } else {
      assert HourKey(logs[0]) in ActiveHours(logs);
      LongerMeansLower(|logs|, |ActiveHours(logs)|, HoursInWindow(logs, windowDays));
      RoundIsMonotone(Ratio(|logs|, HoursInWindow(logs, windowDays)), Ratio(|logs|, |ActiveHours(logs)|));
      HoursConserve(logs, p);
      AtMostTwentyActiveHours(HourCounts(logs, p), |logs|);
    }
    forall hour: nat | hour < 24
      ensures hour in b.mostActiveHours <==> IsBusy(HourCounts(logs, p)[hour], |logs|)
    {
      MostActiveHoursAreBusy(HourCounts(logs, p), |logs|, hour);
    }
    MostActiveHoursAllFall(HourCounts(logs, p), |logs|);
  }

  /** The known hosts are all hosts while there is room, and the busiest ones otherwise, but for inherited names. */
  lemma SnapshotHosts(b: BehaviorBaseline, logs: seq<TrafficSample>, p: Platform, sort: Sorter, windowDays: nat, maxKnownHosts: nat)
    requires FollowsStandard(sort) && IsSnapshot(b, logs, p, sort, windowDays, maxKnownHosts)
    ensures |b.knownHosts| == if |OwnOrder(logs)| < maxKnownHosts then |OwnOrder(logs)| else maxKnownHosts
    ensures |OwnOrder(logs)| <= maxKnownHosts ==>
      forall host :: host in b.knownHosts <==> host in Project(logs, HostOf) && host != PROTO
    ensures NoInheritedName(logs, HostOf) ==>
      forall known, unknown :: known in b.knownHosts && unknown !in b.knownHosts ==>
        RequestsTo(logs, unknown) <= RequestsTo(logs, known)
  {
    KnownHostsCount(logs, TableBy(logs, HostOf), maxKnownHosts, sort);
    if |OwnOrder(logs)| <= maxKnownHosts {
      forall host ensures host in b.knownHosts <==> host in Project(logs, HostOf) && host != PROTO {
        KnownHostsAreTheHosts(logs, maxKnownHosts, sort, host);
      }
    }
    if NoInheritedName(logs, HostOf) {
      forall known, unknown | known in b.knownHosts && unknown !in b.knownHosts
        ensures RequestsTo(logs, unknown) <= RequestsTo(logs, known)
      {
        KnownHostsAreTheBusiest(logs, maxKnownHosts, sort, known, unknown);
      }
    }
  }

  method ComputeSnapshot(logs: seq<TrafficSample>, p: Platform, sort: Sorter, windowDays: nat, maxKnownHosts: nat)
    returns (b: BehaviorBaseline)
    requires FollowsStandard(sort)
    ensures IsSnapshot(b, logs, p, sort, windowDays, maxKnownHosts)
    ensures NearestHundredth(b.requestsPerHour, Ratio(|logs|, HoursInWindow(logs, windowDays)))
    ensures NearestHundredth(b.requestsPerActiveHour, Ratio(|logs|, |ActiveHours(logs)|))
    ensures b.requestsPerHour <= b.requestsPerActiveHour
    ensures logs != [] ==> |b.mostActiveHours| <= 20
    ensures forall hour: nat :: hour < 24 ==> (hour in b.mostActiveHours <==> 20 * HourCounts(logs, p)[hour] >= |logs|)
    ensures ByFallingCount(b.mostActiveHours, HourCounts(logs, p))
    ensures |b.knownHosts| == if |OwnOrder(logs)| < maxKnownHosts then |OwnOrder(logs)| else maxKnownHosts
    ensures |OwnOrder(logs)| <= maxKnownHosts ==>
      forall host :: host in b.knownHosts <==> host in Project(logs, HostOf) && host != PROTO
    ensures NoInheritedName(logs, HostOf) ==>
      forall known, unknown :: known in b.knownHosts && unknown !in b.knownHosts ==>
        RequestsTo(logs, unknown) <= RequestsTo(logs, known)
  {
    var t := Accumulate(logs, p);
    var activeHourCounts := CountsOf(HourOrder(logs), t.perHour);
    var hourlyCounts := WithZeroFill(activeHourCounts, windowDays * 24);
    b := BehaviorBaseline(
      |logs|,
      t.activeHours,
      MostActiveHours(t.activeHours, |logs|),
      Round(Mean(hourlyCounts)),
      Round(Mean(activeHourCounts)),
      KnownHostsOf(logs, t.hosts, maxKnownHosts, sort));
    AveragesOfLogs(t.perHour, logs, windowDays);
    RoundIsNearestHundredth(Ratio(|logs|, HoursInWindow(logs, windowDays)), b.requestsPerHour);
    RoundIsNearestHundredth(Ratio(|logs|, |ActiveHours(logs)|), b.requestsPerActiveHour);
    SnapshotHours(b, logs, p, sort, windowDays, maxKnownHosts);
    forall hour: nat | hour < 24 ensures hour in b.mostActiveHours <==> 20 * HourCounts(logs, p)[hour] >= |logs| {
      BusyByCount(HourCounts(logs, p)[hour], |logs|);
    }
    SnapshotHosts(b, logs, p, sort, windowDays, maxKnownHosts);
  }
}
