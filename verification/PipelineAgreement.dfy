/** A request that meets no other in the state machine is decided as the pipeline methods promise. */
module PipelineAgreement {
  import opened Wrappers
  import opened Threat
  import opened Policy
  import opened Pipeline
  import opened ProxyPipeline
  import Tokens = BypassTokens
  import Cache = ThreatScanCache

  /** The events are possible one after the other and end in the given state. */
  predicate Leads(c: Config, s: State, events: seq<Event>, final: State)
    decreases |events|
  {
    if events == [] then final == s
    else Possible(c, s, events[0]) && Leads(c, Next(c, s, events[0]), events[1..], final)
  }

  lemma LeadsFrom(c: Config, s: State, e: Event, rest: seq<Event>, final: State)
    requires Possible(c, s, e) && Leads(c, Next(c, s, e), rest, final)
    ensures Leads(c, s, [e] + rest, final)
  {
  }

  /** The request was decided on the ground and acted on; no token was spent since, and one was signed if it warned. */
  predicate Served(c: Config, s: State, final: State, id: nat, ground: Ground, t: Times, jti: string) {
    var decision := DecisionFor(ground, c);
    && id < |s.requests| && id < |final.requests| && final.requests[id].request == s.requests[id].request
    && final.requests[id].history == [Record(decision), Outcome(s.requests[id].request.kind, decision, jti)]
    && final.ledger.spent == s.ledger.spent
    && final.ledger.issued == IssuedAfter(s.requests[id].request, t, jti, decision, s.ledger.issued, c.minutes)
  }

  lemma FromRecorded(c: Config, s: State, id: nat, ground: Ground, t: Times, jti: string) returns (events: seq<Event>, final: State)
    requires id < |s.requests| && s.requests[id].stage == Recorded(ground)
    requires s.requests[id].history == [Record(DecisionFor(ground, c))]
    requires s.clock <= t.signed && jti !in s.ledger.issued
    ensures Leads(c, s, events, final) && Served(c, s, final, id, ground, t, jti)
    ensures final.cache == s.cache
  {
    var e := Acted(id, jti, t.signed);
    final := Next(c, s, e);
    events := [e];
    OthersStay(c, s, e);
    LedgerGrows(c, s, e);
    assert events[1..] == [];
    assert Leads(c, final, [], final);
  }

  lemma FromScanned(c: Config, s: State, id: nat, result: ThreatScanResult, fileScan: Option<FileScan>, t: Times, jti: string)
    returns (events: seq<Event>, final: State)
    requires id < |s.requests| && s.requests[id].stage == Scanned(result) && s.requests[id].history == []
    requires s.requests[id].request.kind == Connect ==> fileScan.None?
    requires s.clock <= t.scanned <= t.signed && jti !in s.ledger.issued
    ensures Leads(c, s, events, final) && Served(c, s, final, id, Scans(result, fileScan), t, jti)
    ensures final.cache == s.cache
  {
    var e := Decided(id, fileScan, t.scanned);
    var next := Next(c, s, e);
    OthersStay(c, s, e);
    LedgerGrows(c, s, e);
    events, final := FromRecorded(c, next, id, Scans(result, fileScan), t, jti);
    LeadsFrom(c, s, e, events, final);
    events := [e] + events;
  }

  lemma FromAwaitingScan(c: Config, s: State, id: nat, a: Answers, fileScan: Option<FileScan>, t: Times, jti: string)
    returns (events: seq<Event>, final: State)
    requires id < |s.requests| && s.requests[id].stage == AwaitingScan && s.requests[id].history == []
    requires s.requests[id].request.kind == Connect ==> fileScan.None?
    requires s.clock <= t.scanned <= t.signed && jti !in s.ledger.issued
    ensures Leads(c, s, events, final) && Served(c, s, final, id, Scans(a.scan, fileScan), t, jti)
    ensures final.cache.history ==
            if a.scan.failSafe then s.cache.history
            else s.cache.history + [Cache.Store(s.requests[id].request.url, a.scan, t.scanned)]
  {
    var e := ScanAnswered(id, a.scan, t.scanned);
    var next := Next(c, s, e);
    OthersStay(c, s, e);
    LedgerGrows(c, s, e);
    events, final := FromScanned(c, next, id, a.scan, fileScan, t, jti);
    LeadsFrom(c, s, e, events, final);
    events := [e] + events;
  }

  lemma FromAwaitingRules(c: Config, s: State, id: nat, a: Answers, t: Times, jti: string) returns (events: seq<Event>, final: State)
    requires TablesOk(c, s)
    requires id < |s.requests| && s.requests[id].stage == AwaitingRules && s.requests[id].history == []
    requires s.clock <= t.cachePurge <= t.cacheCheck <= t.scanned <= t.signed && jti !in s.ledger.issued
    ensures Leads(c, s, events, final)
    ensures Served(c, s, final, id, GroundByRulesAndScans(s.requests[id].request, a, t, s.cache.history, c.ttl), t, jti)
    ensures var q := s.requests[id].request;
            final.cache.history ==
            HistoryAfter(q, a, t, GroundByRulesAndScans(q, a, t, s.cache.history, c.ttl), s.cache.history, c.ttl)
  {
    var e := RulesAnswered(id, a.rule, t.cachePurge, t.cacheCheck);
    var next := Next(c, s, e);
    OthersStay(c, s, e);
    LedgerGrows(c, s, e);
    if a.rule.Some? {
      events, final := FromRecorded(c, next, id, UserRule(a.rule.value), t, jti);
    } else {
      var q := s.requests[id].request;
      var fileScan := if q.kind == Http then a.fileScan else None;
      Cache.PurgeNeverChangesAnAnswer(s.cache, q.url, t.cachePurge, t.cacheCheck, c.ttl);
      var remembered := Cache.Remembered(s.cache.history, q.url, t.cacheCheck, c.ttl);
      if remembered.Some? {
        events, final := FromScanned(c, next, id, remembered.value, fileScan, t, jti);
      } else {
        events, final := FromAwaitingScan(c, next, id, a, fileScan, t, jti);
      }
    }
    LeadsFrom(c, s, e, events, final);
    events := [e] + events;
  }

  /** What `HandleHttp` promises, of the request that arrives in the first state. */
  predicate Promised(c: Config, s: State, final: State, q: Request, a: Answers, t: Times, jti: string) {
    var id, ground := |s.requests|, GroundFor(q, a, t, s.ledger.spent, s.cache.history, c.ttl);
    var decision := DecisionFor(ground, c);
    && id < |final.requests| && final.requests[id].request == q
    && final.requests[id].history == [Record(decision), Outcome(q.kind, decision, jti)]
    && final.ledger.spent == s.ledger.spent + (if ground.Bypass? then {ground.jti} else {})
    && final.ledger.issued == IssuedAfter(q, t, jti, decision, s.ledger.issued, c.minutes)
    && final.cache.history == HistoryAfter(q, a, t, ground, s.cache.history, c.ttl)
  }

  /** An arriving token is judged as by a table that never forgets. */
  lemma ArrivalIsJudged(c: Config, s: State, q: Request, a: Answers, t: Times)
    requires TablesOk(c, s) && q.kind == Http && InOrderFrom(s.clock, t)
    requires a.token.Some? ==> Tokens.Genuine(s.ledger, a.token.value)
    ensures var e := ArriveHttp(q, true, a.token, t.tokenPurge, t.tokenCheck);
            Possible(c, s, e) && (Proceeds(s, e) <==> MayProceed(q, a, t, s.ledger.spent))
  {
    var e := ArriveHttp(q, true, a.token, t.tokenPurge, t.tokenCheck);
    if a.token.Some? {
      Tokens.PurgeNeverChangesAnAnswer(s.ledger, Presentation(e), c.minutes);
    }
  }

  lemma HttpProceeds(c: Config, s: State, q: Request, a: Answers, t: Times, jti: string) returns (events: seq<Event>, final: State)
    requires TablesOk(c, s) && q.kind == Http && InOrderFrom(s.clock, t) && jti !in s.ledger.issued
    requires a.token.Some? ==> Tokens.Genuine(s.ledger, a.token.value)
    requires MayProceed(q, a, t, s.ledger.spent)
    ensures Leads(c, s, events, final) && Promised(c, s, final, q, a, t, jti)
  {
    var e := ArriveHttp(q, true, a.token, t.tokenPurge, t.tokenCheck);
    var next, id := Next(c, s, e), |s.requests|;
    ArrivalIsJudged(c, s, q, a, t);
    LedgerGrows(c, s, e);
    events, final := FromRecorded(c, next, id, Bypass(a.token.value.claims.jti), t, jti);
    LeadsFrom(c, s, e, events, final);
    events := [e] + events;
  }

  lemma HttpGoesOn(c: Config, s: State, q: Request, a: Answers, t: Times, jti: string) returns (events: seq<Event>, final: State)
    requires TablesOk(c, s) && q.kind == Http && InOrderFrom(s.clock, t) && jti !in s.ledger.issued
    requires a.token.Some? ==> Tokens.Genuine(s.ledger, a.token.value)
    requires !MayProceed(q, a, t, s.ledger.spent)
    ensures Leads(c, s, events, final) && Promised(c, s, final, q, a, t, jti)
  {
    var e := ArriveHttp(q, true, a.token, t.tokenPurge, t.tokenCheck);
    var next, id := Next(c, s, e), |s.requests|;
    ArrivalIsJudged(c, s, q, a, t);
    NextKeepsTables(c, s, e);
    LedgerGrows(c, s, e);
    events, final := FromAwaitingRules(c, next, id, a, t, jti);
    LeadsFrom(c, s, e, events, final);
    events := [e] + events;
  }

  /**
   * From any state that can be reached, a browser request served without interruption is decided and answered
   * as `HandleHttp` promises, on the ground given by never-forgetting tables.
   */
  lemma HttpIsServedAsPromised(c: Config, s: State, q: Request, a: Answers, t: Times, jti: string)
    returns (events: seq<Event>, final: State)
    requires Inv(c, s) && q.kind == Http && InOrderFrom(s.clock, t) && jti !in s.ledger.issued
    requires a.token.Some? ==> Tokens.Genuine(s.ledger, a.token.value)
    ensures Leads(c, s, events, final) && Promised(c, s, final, q, a, t, jti)
  {
    if MayProceed(q, a, t, s.ledger.spent) {
      events, final := HttpProceeds(c, s, q, a, t, jti);
    } else {
      events, final := HttpGoesOn(c, s, q, a, t, jti);
    }
  }

  /** The same for a tunnel and `EvaluateConnect`. */
  lemma ConnectIsServedAsPromised(c: Config, s: State, q: Request, a: Answers, t: Times, jti: string)
    returns (events: seq<Event>, final: State)
    requires Inv(c, s) && q.kind == Connect && InOrderFrom(s.clock, t) && jti !in s.ledger.issued
    ensures Leads(c, s, events, final) && Promised(c, s, final, q, a, t, jti)
  {
    var e := ArriveConnect(q, t.tokenCheck);
    var next := Next(c, s, e);
    NextKeepsTables(c, s, e);
    LedgerGrows(c, s, e);
    events, final := FromAwaitingRules(c, next, |s.requests|, a, t, jti);
    LeadsFrom(c, s, e, events, final);
    events := [e] + events;
  }
}
