/** The in-memory cache of scan results, and the scan that goes through it. */
module ThreatScanCache {
  import opened Wrappers
  import opened Threat

  datatype Entry = Entry(result: ThreatScanResult, expiresAt: int)

  type Table = map<string, Entry>

  function PurgeExpired(table: Table, now: int): Table {
    map url | url in table && now < table[url].expiresAt :: table[url]
  }

  /** The table after one lookup; the clock may have moved between the purge and the check of the entry itself. */
  function Visited(table: Table, url: string, purgedAt: int, now: int): Table {
    var kept := PurgeExpired(table, purgedAt);
    if url in kept && kept[url].expiresAt <= now then kept - {url} else kept
  }

  /** The code's answer, from the purged table alone. */
  function Cached(table: Table, url: string, purgedAt: int, now: int): Option<ThreatScanResult> {
    var kept := Visited(table, url, purgedAt, now);
    if url in kept then Some(kept[url].result) else None
  }

  /** One result put into the cache. */
  datatype Store = Store(url: string, result: ThreatScanResult, at: int)

  /** The last result ever stored for a url, whatever its age. */
  function LastStore(history: seq<Store>, url: string): Option<Store> {
    if history == [] then None
    else if history[|history| - 1].url == url then Some(history[|history| - 1])
    else LastStore(history[..|history| - 1], url)
  }

  /** The reference answer: search the full history, then look at the age. */
  function Remembered(history: seq<Store>, url: string, now: int, ttl: int): Option<ThreatScanResult> {
    match LastStore(history, url)
    case Some(s) => if now < s.at + ttl then Some(s.result) else None
    case None => None
  }

  datatype State = State(table: Table, history: seq<Store>, clock: int)

  /** The two atomic sections of a cached scan: ask the cache, and later take in what the scanner answered. */
  datatype Event =
    | Ask(url: string, purgedAt: int, now: int)
    | Scanned(url: string, result: ThreatScanResult, now: int)

  function Next(s: State, e: Event, ttl: int): State {
    match e
    case Ask(url, purgedAt, now) =>
      s.(table := Visited(s.table, url, purgedAt, now), clock := now)
    case Scanned(url, result, now) =>
      if result.failSafe then s.(clock := now)
      else State(s.table[url := Entry(result, now + ttl)], s.history + [Store(url, result, now)], now)
  }

  /** Time does not go back. */
  predicate InTime(clock: int, e: Event) {
    if e.Ask? then clock <= e.purgedAt <= e.now else clock <= e.now
  }

  /** An entry is missing only if nothing was stored for its url, or what was stored last is too old by now. */
  ghost predicate Inv(s: State, ttl: int) {
    && (forall url :: url in s.table ==>
          && LastStore(s.history, url).Some?
          && s.table[url] == Entry(LastStore(s.history, url).value.result, LastStore(s.history, url).value.at + ttl))
    && (forall url :: url !in s.table && LastStore(s.history, url).Some? ==>
          LastStore(s.history, url).value.at + ttl <= s.clock)
    && (forall i :: 0 <= i < |s.history| ==> !s.history[i].result.failSafe)
  }

  lemma NextKeepsInv(s: State, e: Event, ttl: int)
    requires Inv(s, ttl) && InTime(s.clock, e)
    ensures Inv(Next(s, e, ttl), ttl)
  {
    if e.Scanned? && !e.result.failSafe {
      forall url
        ensures LastStore(s.history + [Store(e.url, e.result, e.now)], url) ==
                if url == e.url then Some(Store(e.url, e.result, e.now)) else LastStore(s.history, url)
      {
        assert (s.history + [Store(e.url, e.result, e.now)])[..|s.history|] == s.history;
      }
    }
  }

  /** Purging is invisible: the table answers like a search through the full, time-checked history. */
  lemma PurgeNeverChangesAnAnswer(s: State, url: string, purgedAt: int, now: int, ttl: int)
    requires Inv(s, ttl) && s.clock <= purgedAt <= now
    ensures Cached(s.table, url, purgedAt, now) == Remembered(s.history, url, now, ttl)
  {
  }

  // ----- whole runs -----

  const START := State(map[], [], 0)

  function After(run: seq<Event>, n: nat, ttl: int): State
    requires n <= |run|
  {
    if n == 0 then START else Next(After(run, n - 1, ttl), run[n - 1], ttl)
  }

  predicate InTimeAt(run: seq<Event>, i: nat)
    requires i < |run|
  {
    InTime(if i == 0 then 0 else run[i - 1].now, run[i])
  }

  predicate Chronological(run: seq<Event>) {
    forall i :: 0 <= i < |run| ==> InTimeAt(run, i)
  }

  lemma {:induction false} RunKeepsInv(run: seq<Event>, n: nat, ttl: int)
    requires Chronological(run) && n <= |run|
    ensures Inv(After(run, n, ttl), ttl)
    ensures After(run, n, ttl).clock == if n == 0 then 0 else run[n - 1].now
  {
    if n == 0 {
    } else {
      RunKeepsInv(run, n - 1, ttl);
      assert InTimeAt(run, n - 1);
      NextKeepsInv(After(run, n - 1, ttl), run[n - 1], ttl);
    }
  }

  /** What the cache answers to the i-th event of the run. */
  function Answer(run: seq<Event>, i: nat, ttl: int): Option<ThreatScanResult>
    requires i < |run| && run[i].Ask?
  {
    Cached(After(run, i, ttl).table, run[i].url, run[i].purgedAt, run[i].now)
  }

  predicate ScansFor(e: Event, url: string) {
    e.Scanned? && e.url == url && !e.result.failSafe
  }

  /** Event j of the run is the last real scan of the url before event n. */
  predicate IsLastScan(run: seq<Event>, j: nat, n: nat, url: string)
    requires j < n <= |run|
  {
    ScansFor(run[j], url) && forall k :: j < k < n ==> !ScansFor(run[k], url)
  }

  lemma {:induction false} StoredByAScan(run: seq<Event>, n: nat, ttl: int, url: string) returns (j: nat)
    requires n <= |run| && LastStore(After(run, n, ttl).history, url).Some?
    ensures j < n && IsLastScan(run, j, n, url)
    ensures LastStore(After(run, n, ttl).history, url).value == Store(url, run[j].result, run[j].now)
  {
    var before, e := After(run, n - 1, ttl), run[n - 1];
    if e.Scanned? && !e.result.failSafe {
      assert (before.history + [Store(e.url, e.result, e.now)])[..|before.history|] == before.history;
    }
    if e.Scanned? && !e.result.failSafe && e.url == url {
      j := n - 1;
    } else {
      j := StoredByAScan(run, n - 1, ttl, url);
    }
  }

  /**
   * In every interleaving of asks and scans, a cached answer is what a real scan of that same url
   * returned less than one lifetime earlier; a fail-safe stand-in is never served from the cache.
   */
  lemma CachedAnswersAreFreshScans(run: seq<Event>, i: nat, ttl: int)
    requires Chronological(run) && i < |run| && run[i].Ask?
    requires Answer(run, i, ttl).Some?
    ensures exists j: nat ::
              && j < i && run[j].Scanned? && run[j].url == run[i].url
              && run[j].result == Answer(run, i, ttl).value
              && run[i].now < run[j].now + ttl
              && !run[j].result.failSafe
  {
    RunKeepsInv(run, i, ttl);
    assert InTimeAt(run, i);
    PurgeNeverChangesAnAnswer(After(run, i, ttl), run[i].url, run[i].purgedAt, run[i].now, ttl);
    var j := StoredByAScan(run, i, ttl, run[i].url);
  }

  lemma {:induction false} LastScanIsStored(run: seq<Event>, j: nat, n: nat, ttl: int, url: string)
    requires j < n <= |run| && IsLastScan(run, j, n, url)
    ensures LastStore(After(run, n, ttl).history, url) == Some(Store(url, run[j].result, run[j].now))
    decreases n
  {
    var before, e := After(run, n - 1, ttl), run[n - 1];
    if e.Scanned? && !e.result.failSafe {
      assert (before.history + [Store(e.url, e.result, e.now)])[..|before.history|] == before.history;
    }
    if j < n - 1 {
      LastScanIsStored(run, j, n - 1, ttl, url);
    }
  }

  /** The last real scan of the url that event i asks for, and it is less than one lifetime old. */
  predicate Answers(run: seq<Event>, j: nat, i: nat, ttl: int)
    requires j < i < |run|
  {
    run[i].Ask? && IsLastScan(run, j, i, run[i].url) && run[i].now < run[j].now + ttl
  }

  /** Exactly when the cache answers, and what, read off the events: with the last real scan of the url if it is fresh. */
  lemma AnswerIsTheLastFreshScan(run: seq<Event>, i: nat, ttl: int, result: ThreatScanResult)
    requires Chronological(run) && i < |run| && run[i].Ask?
    ensures Answer(run, i, ttl) == Some(result) <==>
            exists j :: 0 <= j < i && Answers(run, j, i, ttl) && run[j].result == result
  {
    RunKeepsInv(run, i, ttl);
    assert InTimeAt(run, i);
    PurgeNeverChangesAnAnswer(After(run, i, ttl), run[i].url, run[i].purgedAt, run[i].now, ttl);
    forall j | 0 <= j < i && Answers(run, j, i, ttl) ensures Answer(run, i, ttl) == Some(run[j].result) {
      LastScanIsStored(run, j, i, ttl, run[i].url);
    }
    if Answer(run, i, ttl) == Some(result) {
      var j := StoredByAScan(run, i, ttl, run[i].url);
    }
  }

  // ----- the service object -----

  class ThreatScanCacheService {
    const ttl: int
    var cache: Table
    ghost var history: seq<Store>
    ghost var clock: int

    ghost function View(): State
      reads this
    {
      State(cache, history, clock)
    }

    ghost predicate Valid()
      reads this
    {
      Inv(View(), ttl)
    }

    constructor (ttl: int)
      ensures Valid() && View() == START && this.ttl == ttl
    {
      this.ttl := ttl;
      cache, history, clock := map[], [], 0;
    }

    method Get(url: string, purgedAt: int, now: int) returns (r: Option<ThreatScanResult>)
      requires Valid() && clock <= purgedAt <= now
      modifies this
      ensures Valid() && View() == Next(old(View()), Ask(url, purgedAt, now), ttl)
      ensures r == Remembered(history, url, now, ttl)
      ensures r.None? ==> url !in cache
    {
      NextKeepsInv(View(), Ask(url, purgedAt, now), ttl);
      PurgeNeverChangesAnAnswer(View(), url, purgedAt, now, ttl);
      PurgeExpiredEntries(purgedAt);
      clock := now;
      if url !in cache {
        return None;
      }
      if cache[url].expiresAt <= now {
        cache := cache - {url};
        return None;
      }
      return Some(cache[url].result);
    }

    /** The caller stores only results that are not fail-safe, see `Event.Scanned`. */
    method Set(url: string, result: ThreatScanResult, now: int)
      requires Valid() && clock <= now && !result.failSafe
      modifies this
      ensures Valid() && View() == Next(old(View()), Scanned(url, result, now), ttl)
      ensures Remembered(history, url, now, ttl) == if ttl > 0 then Some(result) else None
    {
      NextKeepsInv(View(), Scanned(url, result, now), ttl);
      cache := cache[url := Entry(result, now + ttl)];
      history := history + [Store(url, result, now)];
      clock := now;
    }

    method PurgeExpiredEntries(now: int)
      modifies this`cache
      ensures cache == PurgeExpired(old(cache), now)
      ensures forall url :: url in cache <==> url in old(cache) && old(cache)[url].expiresAt > now
    {
      ghost var before := cache;
      var left := cache.Keys;
      while left != {}
        invariant left <= before.Keys
        invariant cache == map url | url in before && (url in left || now < before[url].expiresAt) :: before[url]
        decreases left
      {
        var url :| url in left;
        if cache[url].expiresAt <= now {
          cache := cache - {url};
        }
        left := left - {url};
      }
    }
  }
}
