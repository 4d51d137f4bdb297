/** The pipeline over the token service and the scan cache, one request from its arrival to its answer. */
module ProxyPipeline {
  import opened Wrappers
  import opened Threat
  import opened Policy
  import opened Pipeline
  import Tokens = BypassTokens
  import Cache = ThreatScanCache

  /** The readings of the clock that one request may make, in their order. */
  datatype Times = Times(tokenPurge: int, tokenCheck: int, cachePurge: int, cacheCheck: int, scanned: int, signed: int)

  predicate InOrderFrom(start: int, t: Times) {
    start <= t.tokenPurge <= t.tokenCheck <= t.cachePurge <= t.cacheCheck <= t.scanned <= t.signed
  }

  /** What the world answers to a request: the token it brings, its matching rule, and what the scanners say. */
  datatype Answers = Answers(token: Option<Tokens.Token>, rule: Option<bool>, scan: ThreatScanResult, fileScan: Option<FileScan>)

  /** Whether a request proceeds past a warning, judged by a table that never forgets a spent token. */
  predicate MayProceed(q: Request, a: Answers, t: Times, spent: set<string>) {
    a.token.Some? &&
    Tokens.UnforgettingAnswer(spent, Tokens.Present(a.token.value, q.url, q.userId, q.sessionId, t.tokenPurge, t.tokenCheck))
  }

  /** The result to decide on, judged by a full history of scans. */
  function ResultFor(url: string, a: Answers, t: Times, history: seq<Cache.Store>, ttl: int): ThreatScanResult {
    var remembered := Cache.Remembered(history, url, t.cacheCheck, ttl);
    if remembered.Some? then remembered.value else a.scan
  }

  /** Without a token to proceed with, the rules come before the scans. */
  function GroundByRulesAndScans(q: Request, a: Answers, t: Times, history: seq<Cache.Store>, ttl: int): Ground {
    if a.rule.Some? then UserRule(a.rule.value)
    else Scans(ResultFor(q.url, a, t, history, ttl), if q.kind == Http then a.fileScan else None)
  }

  /** On what ground a request is decided: a token comes before everything else, for a browser. */
  function GroundFor(q: Request, a: Answers, t: Times, spent: set<string>, history: seq<Cache.Store>, ttl: int): Ground {
    if q.kind == Http && MayProceed(q, a, t, spent) then Bypass(a.token.value.claims.jti)
    else GroundByRulesAndScans(q, a, t, history, ttl)
  }

  /** The scans stored after the request: its own is added if it was scanned, and was not a stand-in. */
  function HistoryAfter(q: Request, a: Answers, t: Times, ground: Ground, history: seq<Cache.Store>, ttl: int): seq<Cache.Store> {
    if ground.Scans? && Cache.Remembered(history, q.url, t.cacheCheck, ttl).None? && !a.scan.failSafe
    then history + [Cache.Store(q.url, a.scan, t.scanned)]
    else history
  }

  /** The tokens signed after the request: a warning page adds one. */
  function IssuedAfter(q: Request, t: Times, jti: string, decision: Decision, issued: map<string, Tokens.Claims>, minutes: nat)
    : map<string, Tokens.Claims>
  {
    if q.kind == Http && decision == WARN
    then issued[jti := Tokens.ClaimsFor(q.url, q.userId, q.sessionId, jti, t.signed, minutes)]
    else issued
  }

  // ----- what a browser and a tunnel see, read off the rule and the verdicts -----

  /** Nobody proceeds and no rule matches, so the scans decide. */
  predicate ScansDecide(q: Request, a: Answers, t: Times, spent: set<string>) {
    a.rule.None? && !(q.kind == Http && MayProceed(q, a, t, spent))
  }

  predicate SeesWarning(q: Request, a: Answers, t: Times, spent: set<string>, scan: ThreatScanResult) {
    ScansDecide(q, a, t, spent) && Suspicion(scan, if q.kind == Http then a.fileScan else None)
  }

  predicate SeesBlock(q: Request, a: Answers, t: Times, spent: set<string>, scan: ThreatScanResult, failClosed: bool) {
    || (a.rule == Some(true) && !(q.kind == Http && MayProceed(q, a, t, spent)))
    || (ScansDecide(q, a, t, spent) && Danger(scan, if q.kind == Http then a.fileScan else None, failClosed))
  }

  lemma SeenIsDecided(q: Request, a: Answers, t: Times, spent: set<string>, history: seq<Cache.Store>, c: Config)
    ensures var decision := DecisionFor(GroundFor(q, a, t, spent, history, c.ttl), c);
            var scan := ResultFor(q.url, a, t, history, c.ttl);
            && (decision == WARN <==> SeesWarning(q, a, t, spent, scan))
            && (decision == BLOCK <==> SeesBlock(q, a, t, spent, scan, c.failClosed))
  {
    DecisionsByVerdicts(ResultFor(q.url, a, t, history, c.ttl), if q.kind == Http then a.fileScan else None, c.failClosed);
  }

  class ProxyPipelineService {
    const config: Config
    const tokens: Tokens.BypassTokenService
    const scanCache: Cache.ThreatScanCacheService

    ghost predicate Valid()
      reads tokens, scanCache
    {
      && tokens.Valid() && tokens.minutes == config.minutes
      && scanCache.Valid() && scanCache.ttl == config.ttl
    }

    constructor (config: Config)
      ensures Valid() && this.config == config && fresh(tokens) && fresh(scanCache)
      ensures tokens.View() == Tokens.START && scanCache.View() == Cache.START
    {
      this.config := config;
      tokens := new Tokens.BypassTokenService(config.minutes);
      scanCache := new Cache.ThreatScanCacheService(config.ttl);
    }

    /** A stored result is used while it is fresh; the stand-in for a failed scan is never stored. */
    method ScanWithCache(url: string, a: Answers, t: Times) returns (r: ThreatScanResult)
      requires Valid() && scanCache.clock <= t.cachePurge <= t.cacheCheck <= t.scanned
      modifies scanCache
      ensures Valid() && scanCache.clock <= t.scanned
      ensures r == ResultFor(url, a, t, old(scanCache.history), config.ttl)
      ensures scanCache.history ==
              if Cache.Remembered(old(scanCache.history), url, t.cacheCheck, config.ttl).Some? || a.scan.failSafe
              then old(scanCache.history)
              else old(scanCache.history) + [Cache.Store(url, a.scan, t.scanned)]
    {
      var cached := scanCache.Get(url, t.cachePurge, t.cacheCheck);
      if cached.Some? {
        return cached.value;
      }
      r := a.scan;
      if !r.failSafe {
        scanCache.Set(url, r, t.scanned);
      }
    }

    method HandleHttp(q: Request, inspected: bool, a: Answers, t: Times, jti: string) returns (effects: seq<Effect>)
      requires Valid() && q.kind == Http && InOrderFrom(tokens.clock, t) && InOrderFrom(scanCache.clock, t)
      requires a.token.Some? ==> Tokens.Genuine(tokens.View(), a.token.value)
      requires jti !in tokens.issued
      modifies tokens, scanCache
      ensures Valid()
      ensures !inspected ==> effects == [ErrorPage] && tokens.View() == old(tokens.View())
      ensures inspected ==>
        var ground := GroundFor(q, a, t, old(tokens.spent), old(scanCache.history), config.ttl);
        var decision := DecisionFor(ground, config);
        && effects == [Record(decision), Outcome(Http, decision, jti)]
        && tokens.spent == old(tokens.spent) + (if ground.Bypass? then {ground.jti} else {})
        && tokens.issued == IssuedAfter(q, t, jti, decision, old(tokens.issued), config.minutes)
        && scanCache.history == HistoryAfter(q, a, t, ground, old(scanCache.history), config.ttl)
      ensures inspected ==>
        var scan := ResultFor(q.url, a, t, old(scanCache.history), config.ttl);
        var warned := SeesWarning(q, a, t, old(tokens.spent), scan);
        var blocked := SeesBlock(q, a, t, old(tokens.spent), scan, config.failClosed);
        && (effects == [Record(WARN), WarnPage(jti)] <==> warned)
        && (effects == [Record(BLOCK), BlockPage] <==> blocked)
        && (effects == [Record(ALLOW), Forward] <==> !warned && !blocked)
        && (jti in tokens.issued <==> warned)
    {
      SeenIsDecided(q, a, t, tokens.spent, scanCache.history, config);
      if !inspected {
        return [ErrorPage];
      }
      var proceeds := VerifyBypass(q, a, t);
      if proceeds {
        return [Record(ALLOW), Forward];
      }
      if a.rule.Some? {
        return if a.rule.value then [Record(BLOCK), BlockPage] else [Record(ALLOW), Forward];
      }
      var threatScan := ScanWithCache(q.url, a, t);
      var policy := Decide(threatScan, a.fileScan, config.failClosed);
      effects := Act(q, policy.decision, t, jti);
    }

    /** Checks the token that the request brings, if any, and spends it. */
    method VerifyBypass(q: Request, a: Answers, t: Times) returns (proceeds: bool)
      requires Valid() && InOrderFrom(tokens.clock, t) && (a.token.Some? ==> Tokens.Genuine(tokens.View(), a.token.value))
      modifies tokens
      ensures Valid() && tokens.clock <= t.tokenCheck && tokens.issued == old(tokens.issued)
      ensures proceeds == MayProceed(q, a, t, old(tokens.spent))
      ensures tokens.spent == old(tokens.spent) + (if proceeds then {a.token.value.claims.jti} else {})
    {
      if a.token.None? {
        return false;
      }
      ghost var e := Tokens.Present(a.token.value, q.url, q.userId, q.sessionId, t.tokenPurge, t.tokenCheck);
      Tokens.PurgeNeverChangesAnAnswer(tokens.View(), e, config.minutes);
      proceeds := tokens.VerifyAndConsume(a.token.value, q.url, q.userId, q.sessionId, t.tokenPurge, t.tokenCheck);
    }

    /** Records a decision and acts on it; a warning page carries a fresh token. */
    method Act(q: Request, decision: Decision, t: Times, jti: string) returns (effects: seq<Effect>)
      requires Valid() && q.kind == Http && tokens.clock <= t.signed && jti !in tokens.issued
      modifies tokens
      ensures Valid() && tokens.spent == old(tokens.spent)
      ensures effects == [Record(decision), Outcome(Http, decision, jti)]
      ensures tokens.issued == IssuedAfter(q, t, jti, decision, old(tokens.issued), config.minutes)
    {
      if decision == BLOCK {
        return [Record(decision), BlockPage];
      }
      if decision == WARN {
        var bypassToken := tokens.Sign(q.url, q.userId, q.sessionId, jti, t.signed);
        return [Record(decision), WarnPage(jti)];
      }
      return [Record(decision), Forward];
    }

    method EvaluateConnect(q: Request, a: Answers, t: Times) returns (decision: Decision, effects: seq<Effect>)
      requires Valid() && q.kind == Connect && InOrderFrom(scanCache.clock, t)
      modifies scanCache
      ensures Valid()
      ensures var recorded := DecisionFor(GroundFor(q, a, t, tokens.spent, old(scanCache.history), config.ttl), config);
              && effects == [Record(recorded)]
              && Verdict(decision) == Outcome(Connect, recorded, "")
      ensures var ground := GroundFor(q, a, t, tokens.spent, old(scanCache.history), config.ttl);
              scanCache.history == HistoryAfter(q, a, t, ground, old(scanCache.history), config.ttl)
      ensures var scan := ResultFor(q.url, a, t, old(scanCache.history), config.ttl);
              var warned := SeesWarning(q, a, t, tokens.spent, scan);
              var blocked := SeesBlock(q, a, t, tokens.spent, scan, config.failClosed);
              && (effects == [Record(WARN)] <==> warned) && (effects == [Record(BLOCK)] <==> blocked)
              && (effects == [Record(ALLOW)] <==> !warned && !blocked)
              && decision == (if warned || blocked then BLOCK else ALLOW)
    {
      SeenIsDecided(q, a, t, tokens.spent, scanCache.history, config);
      if a.rule.Some? {
        decision := if a.rule.value then BLOCK else ALLOW;
        return decision, [Record(decision)];
      }
      var threatScan := ScanWithCache(q.url, a, t);
      var policy := Decide(threatScan, None, config.failClosed);
      decision := if policy.decision == WARN then BLOCK else policy.decision;
      return decision, [Record(policy.decision)];
    }
  }
}
