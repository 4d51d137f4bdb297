/**
 * Daily risk averages as the server computes and rounds them, and the period average that the client
 * recombines from them. All averages are exact fractions; only the two roundings lose anything.
 */
module RiskTrend {

  /** A traffic record: when, in milliseconds of UTC, and how risky. */
  datatype Row = Row(timestamp: int, riskScore: int)

  const DAY_MS := 86_400_000

  /** The UTC date of a record, as a day number; day numbers and ISO dates have the same order. */
  function Day(r: Row): int {
    r.timestamp / DAY_MS
  }

  function Round(x: real): real {
    (x * 10.0 + 0.5).Floor as real / 10.0
  }

  datatype Bucket = Bucket(totalRisk: int, count: nat)

  datatype Point = Point(date: int, averageRisk: real, requestCount: nat)

  // ----- what each day adds up to -----

  function Days(rows: seq<Row>): set<int> {
    set r | r in rows :: Day(r)
  }

  function RiskOn(rows: seq<Row>, day: int): int {
    if rows == [] then 0
    else
      var last := rows[|rows| - 1];
      RiskOn(rows[..|rows| - 1], day) + if Day(last) == day then last.riskScore else 0
  }

  function CountOn(rows: seq<Row>, day: int): (n: nat)
    ensures n > 0 <==> day in Days(rows)
  {
    if rows == [] then 0
    else
      var last := rows[|rows| - 1];
      assert rows == rows[..|rows| - 1] + [last];
      CountOn(rows[..|rows| - 1], day) + if Day(last) == day then 1 else 0
  }

  function TotalRisk(rows: seq<Row>): int {
    if rows == [] then 0 else TotalRisk(rows[..|rows| - 1]) + rows[|rows| - 1].riskScore
  }

  /** The buckets after the loop over the records. */
  function Buckets(rows: seq<Row>): map<int, Bucket> {
    map day | day in Days(rows) :: Bucket(RiskOn(rows, day), CountOn(rows, day))
  }

  predicate IsLeast(m: int, keys: set<int>) {
    m in keys && forall k :: k in keys ==> m <= k
  }

  lemma {:induction false} SmallestExists(keys: set<int>)
    requires keys != {}
    ensures exists m :: IsLeast(m, keys)
  {
    assert (forall k :: k !in keys) ==> keys == {};
    var x :| x in keys;
    var rest := keys - {x};
    if rest == {} {
      assert keys == {x};
      assert IsLeast(x, keys);
    } else {
      SmallestExists(rest);
      var m :| IsLeast(m, rest);
      var least := if x < m then x else m;
      assert keys == rest + {x};
      assert IsLeast(least, keys);
    }
  }

  /** The keys in ascending order. */
  function Sorted(keys: set<int>): seq<int> {
    if keys == {} then []
    else
      SmallestExists(keys);
      var m :| IsLeast(m, keys);
      [m] + Sorted(keys - {m})
  }

  lemma {:induction false} SortedFacts(keys: set<int>)
    ensures forall k :: k in Sorted(keys) <==> k in keys
    ensures forall i, j :: 0 <= i < j < |Sorted(keys)| ==> Sorted(keys)[i] < Sorted(keys)[j]
  {
    if keys == {} {
    } else {
      var s := Sorted(keys);
      SortedFacts(keys - {s[0]});
      assert s[1..] == Sorted(keys - {s[0]});
      forall i, j | 0 <= i < j < |s| ensures s[i] < s[j] {
        assert s[j] == s[1..][j - 1];
        assert s[j] in s[1..];
        if i > 0 {
          assert s[i] == s[1..][i - 1];
        }
      }
    }
  }

  function ToPoint(day: int, b: Bucket): Point {
    Point(day, Round(if b.count > 0 then b.totalRisk as real / b.count as real else 0.0), b.count)
  }

  function Points(days: seq<int>, buckets: map<int, Bucket>): (r: seq<Point>)
    requires forall d :: d in days ==> d in buckets
    ensures |r| == |days|
  {
    seq(|days|, i requires 0 <= i < |days| => ToPoint(days[i], buckets[days[i]]))
  }

  /** The daily points of the chart. */
  function Trend(rows: seq<Row>): seq<Point> {
    SortedFacts(Days(rows));
    Points(Sorted(Days(rows)), Buckets(rows))
  }

  lemma {:induction false} BucketsOneMore(rows: seq<Row>, r: Row)
    ensures var before := Buckets(rows);
            var current := if Day(r) in before then before[Day(r)] else Bucket(0, 0);
            Buckets(rows + [r]) == before[Day(r) := Bucket(current.totalRisk + r.riskScore, current.count + 1)]
  {
    assert (rows + [r])[..|rows|] == rows;
    assert Days(rows + [r]) == Days(rows) + {Day(r)};
    NothingOnOtherDays(rows, Day(r));
  }

  lemma {:induction false} NothingOnOtherDays(rows: seq<Row>, day: int)
    ensures day !in Days(rows) ==> RiskOn(rows, day) == 0
  {
    if rows == [] {
    } else {
      NothingOnOtherDays(rows[..|rows| - 1], day);
    }
  }

  method BuildRiskTrend(rows: seq<Row>) returns (points: seq<Point>)
    ensures points == Trend(rows)
  {
    var buckets: map<int, Bucket> := map[];
    for i := 0 to |rows|
      invariant buckets == Buckets(rows[..i])
    {
      var row := rows[i];
      var date := Day(row);
      var current := if date in buckets then buckets[date] else Bucket(0, 0);
      BucketsOneMore(rows[..i], row);
      assert rows[..i + 1] == rows[..i] + [row];
      current := Bucket(current.totalRisk + row.riskScore, current.count + 1);
      buckets := buckets[date := current];
    }
    assert rows[..|rows|] == rows;
    assert buckets.Keys == Days(rows);
    SortedFacts(buckets.Keys);
    points := Points(Sorted(buckets.Keys), buckets);
  }

  // ----- the client -----

  function WeightedRisk(points: seq<Point>): real {
    if points == [] then 0.0
    else
      var last := points[|points| - 1];
      WeightedRisk(points[..|points| - 1]) + last.averageRisk * last.requestCount as real
  }

  function RequestCount(points: seq<Point>): nat {
    if points == [] then 0 else RequestCount(points[..|points| - 1]) + points[|points| - 1].requestCount
  }

  /** What the client computes from the points. */
  function PeriodAverage(points: seq<Point>): real {
    if RequestCount(points) == 0 then 0.0 else Round(WeightedRisk(points) / RequestCount(points) as real)
  }

  method SelectPeriodAverageRisk(points: seq<Point>) returns (average: real)
    ensures average == PeriodAverage(points)
  {
    var totalRisk, totalRequests := 0.0, 0;
    for i := 0 to |points|
      invariant totalRisk == WeightedRisk(points[..i])
      invariant totalRequests == RequestCount(points[..i])
    {
      assert points[..i + 1][..i] == points[..i];
      totalRisk := totalRisk + points[i].averageRisk * points[i].requestCount as real;
      totalRequests := totalRequests + points[i].requestCount;
    }
    assert points[..|points|] == points;
    if totalRequests <= 0 {
      return 0.0;
    }
    return Round(totalRisk / totalRequests as real);
  }

  // ----- conservation -----

  function SumCounts(rows: seq<Row>, days: seq<int>): nat {
    if days == [] then 0 else SumCounts(rows, days[..|days| - 1]) + CountOn(rows, days[|days| - 1])
  }

  function SumRisks(rows: seq<Row>, days: seq<int>): int {
    if days == [] then 0 else SumRisks(rows, days[..|days| - 1]) + RiskOn(rows, days[|days| - 1])
  }

  predicate Ascending(days: seq<int>) {
    forall i, j :: 0 <= i < j < |days| ==> days[i] < days[j]
  }

  /** One more record adds itself to exactly one of the days, if its day is among them. */
  lemma {:induction false} OneMoreRow(rows: seq<Row>, r: Row, days: seq<int>)
    requires Ascending(days)
    ensures SumCounts(rows + [r], days) == SumCounts(rows, days) + if Day(r) in days then 1 else 0
    ensures SumRisks(rows + [r], days) == SumRisks(rows, days) + if Day(r) in days then r.riskScore else 0
  {
    assert (rows + [r])[..|rows|] == rows;
    if days != [] {
      var front := days[..|days| - 1];
      OneMoreRow(rows, r, front);
      assert days == front + [days[|days| - 1]];
    }
  }

  lemma {:induction false} NoRows(days: seq<int>)
    ensures SumCounts([], days) == 0 && SumRisks([], days) == 0
  {
    if days == [] {
    } else {
      NoRows(days[..|days| - 1]);
    }
  }

  /** Over all days, the daily counts add up to the number of records, and the daily risks to the whole risk. */
  lemma {:induction false} DaysAddUp(rows: seq<Row>, days: seq<int>)
    requires Ascending(days) && forall r :: r in rows ==> Day(r) in days
    ensures SumCounts(rows, days) == |rows|
    ensures SumRisks(rows, days) == TotalRisk(rows)
  {
    if rows == [] {
      NoRows(days);
    } else {
      var last := |rows| - 1;
      DaysAddUp(rows[..last], days);
      OneMoreRow(rows[..last], rows[last], days);
      assert rows == rows[..last] + [rows[last]];
    }
  }

  lemma {:induction false} TrendPointAt(rows: seq<Row>, i: nat)
    requires i < |Trend(rows)|
    ensures |Trend(rows)| == |Sorted(Days(rows))|
    ensures Sorted(Days(rows))[i] in Days(rows)
    ensures Trend(rows)[i].date == Sorted(Days(rows))[i]
    ensures Trend(rows)[i].requestCount == CountOn(rows, Trend(rows)[i].date) > 0
  {
    SortedFacts(Days(rows));
    assert Sorted(Days(rows))[i] in Sorted(Days(rows));
  }

  lemma {:induction false} TrendDatesAscend(rows: seq<Row>)
    ensures forall i, j :: 0 <= i < j < |Trend(rows)| ==> Trend(rows)[i].date < Trend(rows)[j].date
  {
    SortedFacts(Days(rows));
    forall i, j | 0 <= i < j < |Trend(rows)| ensures Trend(rows)[i].date < Trend(rows)[j].date {
      TrendPointAt(rows, i);
      TrendPointAt(rows, j);
    }
  }

  lemma {:induction false} TrendHasDay(rows: seq<Row>, day: int)
    requires day in Days(rows)
    ensures exists i :: 0 <= i < |Trend(rows)| && Trend(rows)[i].date == day
  {
    SortedFacts(Days(rows));
    var days := Sorted(Days(rows));
    assert day in days;
    var i :| 0 <= i < |days| && days[i] == day;
    assert |Trend(rows)| == |days|;
    TrendPointAt(rows, i);
  }

  /** The points of the chart are the days with traffic, in strictly ascending order, with the right counts. */
  lemma {:induction false} TrendPoints(rows: seq<Row>)
    ensures forall i, j :: 0 <= i < j < |Trend(rows)| ==> Trend(rows)[i].date < Trend(rows)[j].date
    ensures forall day :: day in Days(rows) <==> exists i :: 0 <= i < |Trend(rows)| && Trend(rows)[i].date == day
    ensures forall i :: 0 <= i < |Trend(rows)| ==> Trend(rows)[i].requestCount == CountOn(rows, Trend(rows)[i].date) > 0
  {
    TrendDatesAscend(rows);
    forall i | 0 <= i < |Trend(rows)|
      ensures Trend(rows)[i].date in Days(rows) && Trend(rows)[i].requestCount == CountOn(rows, Trend(rows)[i].date) > 0
    {
      TrendPointAt(rows, i);
    }
    forall day | day in Days(rows) ensures exists i :: 0 <= i < |Trend(rows)| && Trend(rows)[i].date == day {
      TrendHasDay(rows, day);
    }
  }

  /** A point's day is the UTC day of its records: the one that holds their time stamps, of 86,400,000 ms each. */
  lemma DaysHoldTheirRecords(rows: seq<Row>, i: nat)
    requires i < |rows|
    ensures exists k :: 0 <= k < |Trend(rows)|
              && Trend(rows)[k].date * 86_400_000 <= rows[i].timestamp < (Trend(rows)[k].date + 1) * 86_400_000
  {
    TrendHasDay(rows, Day(rows[i]));
  }

  // ----- the rounding error -----

  /** A whole number of tenths, less than half a tenth below x or at most half a one above: halves go up. */
  predicate NearestTenth(r: real, x: real) {
    (r * 10.0).Floor as real == r * 10.0 && -0.05 < r - x <= 0.05
  }

  lemma WholeTenths(x: real, k: int)
    requires k == (x * 10.0 + 0.5).Floor
    ensures Round(x) * 10.0 == k as real
    ensures (Round(x) * 10.0).Floor == k
  {
  }

  /** The rounded number is the nearest tenth, and the only one. */
  lemma RoundIsNearestTenth(x: real, r: real)
    ensures NearestTenth(r, x) <==> r == Round(x)
  {
    var k := (x * 10.0 + 0.5).Floor;
    WholeTenths(x, k);
    if NearestTenth(r, x) {
      var m := (r * 10.0).Floor;
      assert m as real - x * 10.0 <= 0.5 && -0.5 < m as real - x * 10.0;
      assert m == k;
    }
  }

  /** Each point of the chart shows the mean risk score of its day, to the nearest tenth. */
  lemma PointsShowDailyMeans(rows: seq<Row>, i: nat)
    requires i < |Trend(rows)|
    ensures var day := Trend(rows)[i].date;
            && day in Days(rows)
            && NearestTenth(Trend(rows)[i].averageRisk, RiskOn(rows, day) as real / CountOn(rows, day) as real)
  {
    TrendPointAt(rows, i);
    var day := Trend(rows)[i].date;
    PointOfTrend(rows, i);
    RoundIsNearestTenth(RiskOn(rows, day) as real / CountOn(rows, day) as real, Trend(rows)[i].averageRisk);
  }

  lemma PointOfTrend(rows: seq<Row>, i: nat)
    requires i < |Trend(rows)|
    ensures var day := Trend(rows)[i].date;
            day in Days(rows) && Trend(rows)[i] == ToPoint(day, Bucket(RiskOn(rows, day), CountOn(rows, day)))
  {
    TrendPointAt(rows, i);
  }

  /** The client shows the request-weighted mean of the points, to the nearest tenth. */
  lemma PeriodAverageIsNearestTenth(points: seq<Point>)
    requires RequestCount(points) > 0
    ensures NearestTenth(PeriodAverage(points), WeightedRisk(points) / RequestCount(points) as real)
  {
    RoundIsNearestTenth(WeightedRisk(points) / RequestCount(points) as real, PeriodAverage(points));
  }

  /** Rounding to tenths moves a number by at most one twentieth, and up only if it is exactly in the middle. */
  lemma RoundingError(x: real)
    ensures -0.05 < Round(x) - x <= 0.05
  {
  }

  lemma TimesKeepsOrder(a: real, b: real, m: real, am: real, bm: real)
    requires m > 0.0 && am == a * m && bm == b * m
    ensures a <= b <==> am <= bm
    ensures a < b <==> am < bm
  {
  }

  /** One day, weighted by its count again, is off by less than a twentieth per request. */
  lemma {:induction false} DayError(b: Bucket, weighted: real, c: real)
    requires b.count > 0 && c == b.count as real && weighted == ToPoint(0, b).averageRisk * c
    ensures -0.05 * c < weighted - b.totalRisk as real <= 0.05 * c
  {
    var mean := b.totalRisk as real / c;
    assert mean * c == b.totalRisk as real;
    RoundingError(mean);
    var rounded := Round(mean);
    var low, high := mean - 0.05, mean + 0.05;
    Shift(mean, c);
    TimesKeepsOrder(low, rounded, c, low * c, weighted);
    TimesKeepsOrder(rounded, high, c, weighted, high * c);
  }

  lemma Shift(mean: real, c: real)
    ensures (mean - 0.05) * c == mean * c - 0.05 * c
    ensures (mean + 0.05) * c == mean * c + 0.05 * c
  {
  }

  /** The points of the days given, as the server makes them. */
  function PointsOf(rows: seq<Row>, days: seq<int>): seq<Point>
    requires forall d :: d in days ==> d in Days(rows)
  {
    Points(days, Buckets(rows))
  }

  lemma {:induction false} LastPoint(rows: seq<Row>, days: seq<int>)
    requires days != [] && forall d :: d in days ==> d in Days(rows)
    ensures var last, points := |days| - 1, PointsOf(rows, days);
            && points[..last] == PointsOf(rows, days[..last])
            && points[last].requestCount == CountOn(rows, days[last]) > 0
            && points[last].averageRisk == ToPoint(0, Bucket(RiskOn(rows, days[last]), CountOn(rows, days[last]))).averageRisk
  {
  }

  /** The total weighted risk and the true total, where `bound` is a twentieth of the number of requests. */
  ghost predicate Close(points: seq<Point>, risk: int, bound: real) {
    -bound <= WeightedRisk(points) - risk as real <= bound
  }

  lemma {:induction false} OneMoreDay(points: seq<Point>, risk: int, bound: real, b: Bucket, c: real)
    requires points != [] && Close(points[..|points| - 1], risk, bound)
    requires b.count > 0 && c == b.count as real && points[|points| - 1].requestCount == b.count
    requires points[|points| - 1].averageRisk == ToPoint(0, b).averageRisk
    ensures Close(points, risk + b.totalRisk, bound + 0.05 * c)
  {
    var weighted := points[|points| - 1].averageRisk * c;
    DayError(b, weighted, c);
    assert WeightedRisk(points) == WeightedRisk(points[..|points| - 1]) + weighted;
  }

  lemma {:induction false} WeightedError(rows: seq<Row>, days: seq<int>)
    requires forall d :: d in days ==> d in Days(rows)
    ensures RequestCount(PointsOf(rows, days)) == SumCounts(rows, days)
    ensures Close(PointsOf(rows, days), SumRisks(rows, days), 0.05 * SumCounts(rows, days) as real)
  {
    if days == [] {
    } else {
      var front, day := days[..|days| - 1], days[|days| - 1];
      WeightedError(rows, front);
      LastPoint(rows, days);
      OneMoreDay(PointsOf(rows, days), SumRisks(rows, front), 0.05 * SumCounts(rows, front) as real,
                 Bucket(RiskOn(rows, day), CountOn(rows, day)), CountOn(rows, day) as real);
    }
  }

  lemma QuotientError(w: real, t: real, n: real, q: real, mean: real)
    requires n > 0.0 && -0.05 * n <= w - t <= 0.05 * n
    requires q == w / n && mean == t / n
    ensures -0.05 <= q - mean <= 0.05
  {
    var d := q - mean;
    assert q * n == w && mean * n == t;
    assert d * n == w - t;
    TimesKeepsOrder(-0.05, d, n, -0.05 * n, w - t);
    TimesKeepsOrder(d, 0.05, n, w - t, 0.05 * n);
  }

  lemma {:induction false} TrendTotals(rows: seq<Row>)
    ensures RequestCount(Trend(rows)) == |rows|
    ensures Close(Trend(rows), TotalRisk(rows), 0.05 * |rows| as real)
  {
    var days := Sorted(Days(rows));
    SortedFacts(Days(rows));
    DaysAddUp(rows, days);
    WeightedError(rows, days);
  }

  /** The client's request count for the period is the number of records the server counted. */
  lemma {:induction false} PeriodCountIsExact(rows: seq<Row>)
    ensures RequestCount(Trend(rows)) == |rows|
  {
    TrendTotals(rows);
  }

  /** The period average shown by the client is within one tenth of the true mean of all risk scores. */
  lemma {:induction false} PeriodAverageIsClose(rows: seq<Row>, mean: real)
    requires rows != [] && mean == TotalRisk(rows) as real / |rows| as real
    ensures -0.1 < PeriodAverage(Trend(rows)) - mean <= 0.1
  {
    TrendTotals(rows);
    AverageError(Trend(rows), TotalRisk(rows), |rows| as real, mean);
  }

  lemma {:induction false} AverageError(points: seq<Point>, risk: int, n: real, mean: real)
    requires n > 0.0 && RequestCount(points) as real == n
    requires Close(points, risk, 0.05 * n) && mean == risk as real / n
    ensures -0.1 < PeriodAverage(points) - mean <= 0.1
  {
    var w := WeightedRisk(points);
    var q := w / n;
    QuotientError(w, risk as real, n, q, mean);
    RoundingError(q);
  }

  /** An empty period has no points and an average of zero. */
  lemma {:induction false} EmptyPeriod()
    ensures Trend([]) == [] && PeriodAverage(Trend([])) == 0.0
  {
  }
}
