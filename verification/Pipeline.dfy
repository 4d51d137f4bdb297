/**
 * The proxy pipeline as a state machine. Each event is a stretch of code without a wait, so a run of events is
 * any interleaving of requests; the token table and the scan cache are shared by all of them.
 */
module Pipeline {
  import opened Wrappers
  import opened Threat
  import opened Policy
  import Tokens = BypassTokens
  import Cache = ThreatScanCache

  datatype Kind = Http | Connect

  datatype Request = Request(kind: Kind, userId: string, sessionId: string, url: string)

  /** On what ground a request is decided. */
  datatype Ground =
    | Bypass(jti: string)
    | UserRule(block: bool)
    | Scans(result: ThreatScanResult, fileScan: Option<FileScan>)

  /** Where a request is; `jti` is the id of the token for the warning page, used only if there is one. */
  datatype Stage =
    | AwaitingRules
    | AwaitingScan
    | Scanned(result: ThreatScanResult)
    | Recorded(ground: Ground)
    | Done(ground: Ground, jti: string)
    | Failed(before: Stage)

  /** What others can see of a request. */
  datatype Effect =
    | Record(decision: Decision)
    | Forward
    | BlockPage
    | WarnPage(jti: string)
    | ErrorPage
    | Verdict(decision: Decision)

  /** `obtained` is the time at which the request got its rules or its scan result. */
  datatype InFlight = InFlight(request: Request, stage: Stage, history: seq<Effect>, obtained: int)

  datatype Config = Config(minutes: nat, ttl: int, failClosed: bool)

  /** `signer` tells which request signed a token. */
  datatype State = State(requests: seq<InFlight>, ledger: Tokens.Ledger, cache: Cache.State, signer: map<string, nat>, clock: int)

  datatype Event =
    | ArriveHttp(request: Request, inspected: bool, token: Option<Tokens.Token>, purgedAt: int, now: int)
    | ArriveConnect(request: Request, now: int)
    | RulesAnswered(id: nat, blocking: Option<bool>, purgedAt: int, now: int)
    | ScanAnswered(id: nat, result: ThreatScanResult, now: int)
    | Decided(id: nat, fileScan: Option<FileScan>, now: int)
    | Acted(id: nat, jti: string, now: int)
    | Thrown(id: nat, now: int)

  function DecisionFor(ground: Ground, c: Config): Decision {
    match ground
    case Bypass(_) => ALLOW
    case UserRule(block) => if block then BLOCK else ALLOW
    case Scans(result, fileScan) => Decide(result, fileScan, c.failClosed).decision
  }

  /** What a decided request leads to. */
  function Outcome(kind: Kind, decision: Decision, jti: string): Effect {
    match kind
    case Http => (match decision case ALLOW => Forward case BLOCK => BlockPage case WARN => WarnPage(jti))
    case Connect => Verdict(if decision == WARN then BLOCK else decision)
  }

  predicate Warns(r: InFlight, ground: Ground, c: Config) {
    r.request.kind == Http && DecisionFor(ground, c) == WARN
  }

  function Presentation(e: Event): Tokens.Event
    requires e.ArriveHttp? && e.token.Some?
  {
    Tokens.Present(e.token.value, e.request.url, e.request.userId, e.request.sessionId, e.purgedAt, e.now)
  }

  predicate Proceeds(s: State, e: Event) {
    e.ArriveHttp? && e.inspected && e.token.Some? && Tokens.Answer(s.ledger.consumed, Presentation(e))
  }

  function Arrival(s: State, e: Event): InFlight
    requires e.ArriveHttp?
  {
    if !e.inspected then InFlight(e.request, Failed(AwaitingRules), [ErrorPage], e.now)
    else if Proceeds(s, e) then InFlight(e.request, Recorded(Bypass(e.token.value.claims.jti)), [Record(ALLOW)], e.now)
    else InFlight(e.request, AwaitingRules, [], e.now)
  }

  /** Whether the event makes a request act on a warning. */
  predicate Signs(c: Config, s: State, e: Event) {
    && e.Acted? && e.id < |s.requests| && s.requests[e.id].stage.Recorded?
    && Warns(s.requests[e.id], s.requests[e.id].stage.ground, c)
  }

  function SignEvent(s: State, e: Event): Tokens.Event
    requires e.Acted? && e.id < |s.requests|
  {
    var q := s.requests[e.id].request;
    Tokens.Event.Sign(q.url, q.userId, q.sessionId, e.jti, e.now)
  }

  function NextLedger(c: Config, s: State, e: Event): Tokens.Ledger {
    if e.ArriveHttp? && e.inspected && e.token.Some? then Tokens.Next(s.ledger, Presentation(e), c.minutes)
    else if Signs(c, s, e) then Tokens.Next(s.ledger, SignEvent(s, e), c.minutes)
    else s.ledger
  }

  function NextCache(c: Config, s: State, e: Event): Cache.State {
    if e.RulesAnswered? && e.blocking.None? && e.id < |s.requests| then
      Cache.Next(s.cache, Cache.Ask(s.requests[e.id].request.url, e.purgedAt, e.now), c.ttl)
    else if e.ScanAnswered? && e.id < |s.requests| then
      Cache.Next(s.cache, Cache.Event.Scanned(s.requests[e.id].request.url, e.result, e.now), c.ttl)
    else s.cache
  }

  function NextSigner(c: Config, s: State, e: Event): map<string, nat> {
    if Signs(c, s, e) then s.signer[e.jti := e.id] else s.signer
  }

  /** The effects of an error: a page for a browser, nothing more for a tunnel. */
  function OnError(kind: Kind): seq<Effect> {
    if kind == Http then [ErrorPage] else []
  }

  /** The request after its event, with the new effects. */
  function Step(c: Config, s: State, e: Event): (Stage, seq<Effect>)
    requires Possible(c, s, e) && !Arrives(e)
  {
    var r := s.requests[e.id];
    match e
    case RulesAnswered(_, Some(block), _, _) =>
      (Recorded(UserRule(block)), [Record(DecisionFor(UserRule(block), c))])
    case RulesAnswered(_, None, purgedAt, now) =>
      var cached := Cache.Cached(s.cache.table, r.request.url, purgedAt, now);
      (if cached.Some? then Scanned(cached.value) else AwaitingScan, [])
    case ScanAnswered(_, result, _) =>
      (Scanned(result), [])
    case Decided(_, fileScan, _) =>
      var ground := Scans(r.stage.result, fileScan);
      (Recorded(ground), [Record(DecisionFor(ground, c))])
    case Acted(_, jti, _) =>
      (Done(r.stage.ground, jti), [Outcome(r.request.kind, DecisionFor(r.stage.ground, c), jti)])
    case Thrown(_, _) =>
      (Failed(r.stage), OnError(r.request.kind))
  }

  function Obtained(r: InFlight, e: Event): int {
    if e.RulesAnswered? || e.ScanAnswered? then e.now else r.obtained
  }

  function NextRequests(c: Config, s: State, e: Event): seq<InFlight>
    requires Possible(c, s, e)
  {
    match e
    case ArriveHttp(_, _, _, _, _) => s.requests + [Arrival(s, e)]
    case ArriveConnect(request, _) => s.requests + [InFlight(request, AwaitingRules, [], e.now)]
    case _ =>
      var (stage, effects) := Step(c, s, e);
      var r := s.requests[e.id];
      s.requests[e.id := InFlight(r.request, stage, r.history + effects, Obtained(r, e))]
  }

  function Next(c: Config, s: State, e: Event): State
    requires Possible(c, s, e)
  {
    State(NextRequests(c, s, e), NextLedger(c, s, e), NextCache(c, s, e), NextSigner(c, s, e), e.now)
  }

  /** A request fails while something is awaited; a finished one only while it is being forwarded. */
  predicate CanThrow(r: InFlight, c: Config) {
    && !r.stage.Failed?
    && (r.stage.Done? ==> r.request.kind == Http && DecisionFor(r.stage.ground, c) == ALLOW)
  }

  /** Time does not go back, token ids are fresh, signatures cannot be forged, and each stage has its own events. */
  predicate Possible(c: Config, s: State, e: Event) {
    s.clock <= e.now &&
    match e
    case ArriveHttp(request, _, token, purgedAt, now) =>
      request.kind == Http && s.clock <= purgedAt <= now && (token.Some? ==> Tokens.Genuine(s.ledger, token.value))
    case ArriveConnect(request, _) => request.kind == Connect
    case RulesAnswered(id, _, purgedAt, now) =>
      id < |s.requests| && s.requests[id].stage.AwaitingRules? && s.clock <= purgedAt <= now
    case ScanAnswered(id, _, _) => id < |s.requests| && s.requests[id].stage.AwaitingScan?
    case Decided(id, fileScan, _) =>
      && id < |s.requests| && s.requests[id].stage.Scanned?
      && (s.requests[id].request.kind == Connect ==> fileScan.None?)
    case Acted(id, jti, _) => id < |s.requests| && s.requests[id].stage.Recorded? && jti !in s.ledger.issued
    case Thrown(id, _) => id < |s.requests| && CanThrow(s.requests[id], c)
  }

  // ----- the shape of every request -----

  /** All effects of a request, from its stage alone. */
  function Shape(kind: Kind, stage: Stage, c: Config): seq<Effect> {
    match stage
    case AwaitingRules => []
    case AwaitingScan => []
    case Scanned(_) => []
    case Recorded(ground) => [Record(DecisionFor(ground, c))]
    case Done(ground, jti) => [Record(DecisionFor(ground, c)), Outcome(kind, DecisionFor(ground, c), jti)]
    case Failed(before) => Shape(kind, before, c) + OnError(kind)
  }

  /** Only what `CanThrow` allows has failed, and only browsers bring tokens and downloads. */
  predicate StageOk(r: InFlight, c: Config) {
    && (r.stage.Failed? ==> CanThrow(r.(stage := r.stage.before), c))
    && (r.request.kind == Connect ==> GroundOf(r.stage).None? || !GroundOf(r.stage).value.Bypass?)
  }

  function GroundOf(stage: Stage): Option<Ground> {
    match stage
    case Recorded(ground) => Some(ground)
    case Done(ground, _) => Some(ground)
    case Failed(before) => GroundOf(before)
    case _ => None
  }

  predicate RequestOk(r: InFlight, c: Config) {
    r.history == Shape(r.request.kind, r.stage, c) && StageOk(r, c)
  }

  predicate Shapes(c: Config, s: State) {
    forall i :: 0 <= i < |s.requests| ==> RequestOk(s.requests[i], c)
  }

  predicate Arrives(e: Event) {
    e.ArriveHttp? || e.ArriveConnect?
  }

  lemma OthersStay(c: Config, s: State, e: Event)
    requires Possible(c, s, e)
    ensures |NextRequests(c, s, e)| == |s.requests| + if Arrives(e) then 1 else 0
    ensures forall i :: 0 <= i < |s.requests| && (Arrives(e) || i != e.id) ==> NextRequests(c, s, e)[i] == s.requests[i]
  {
  }

  lemma ArrivalHasShape(c: Config, s: State, e: Event)
    requires Possible(c, s, e) && Arrives(e)
    ensures |NextRequests(c, s, e)| > |s.requests| && RequestOk(NextRequests(c, s, e)[|s.requests|], c)
  {
  }

  lemma StepKeepsShape(c: Config, s: State, e: Event)
    requires Possible(c, s, e) && !Arrives(e) && RequestOk(s.requests[e.id], c)
    ensures RequestOk(NextRequests(c, s, e)[e.id], c)
  {
  }

  lemma NextKeepsShapes(c: Config, s: State, e: Event)
    requires Possible(c, s, e) && Shapes(c, s)
    ensures Shapes(c, Next(c, s, e))
  {
    var after := NextRequests(c, s, e);
    OthersStay(c, s, e);
    if Arrives(e) {
      ArrivalHasShape(c, s, e);
    } else {
      StepKeepsShape(c, s, e);
    }
    forall i | 0 <= i < |after| ensures RequestOk(after[i], c) {
      assert i < |s.requests| ==> RequestOk(s.requests[i], c);
    }
  }

  // ----- the shared tables -----

  ghost predicate TablesOk(c: Config, s: State) {
    && Tokens.Inv(s.ledger, c.minutes) && s.ledger.clock <= s.clock
    && Cache.Inv(s.cache, c.ttl) && s.cache.clock <= s.clock
  }

  lemma NextKeepsLedger(c: Config, s: State, e: Event)
    requires Possible(c, s, e) && Tokens.Inv(s.ledger, c.minutes) && s.ledger.clock <= s.clock
    ensures Tokens.Inv(NextLedger(c, s, e), c.minutes) && NextLedger(c, s, e).clock <= e.now
  {
    if e.ArriveHttp? && e.inspected && e.token.Some? {
      Tokens.NextKeepsInv(s.ledger, Presentation(e), c.minutes);
    } else if Signs(c, s, e) {
      Tokens.NextKeepsInv(s.ledger, SignEvent(s, e), c.minutes);
    }
  }

  lemma NextKeepsCache(c: Config, s: State, e: Event)
    requires Possible(c, s, e) && Cache.Inv(s.cache, c.ttl) && s.cache.clock <= s.clock
    ensures Cache.Inv(NextCache(c, s, e), c.ttl) && NextCache(c, s, e).clock <= e.now
  {
    if e.RulesAnswered? && e.blocking.None? {
      Cache.NextKeepsInv(s.cache, Cache.Ask(s.requests[e.id].request.url, e.purgedAt, e.now), c.ttl);
    } else if e.ScanAnswered? {
      Cache.NextKeepsInv(s.cache, Cache.Event.Scanned(s.requests[e.id].request.url, e.result, e.now), c.ttl);
    }
  }

  lemma NextKeepsTables(c: Config, s: State, e: Event)
    requires Possible(c, s, e) && TablesOk(c, s)
    ensures TablesOk(c, Next(c, s, e))
  {
    NextKeepsLedger(c, s, e);
    NextKeepsCache(c, s, e);
  }

  // ----- every proceed has a warning page of its own -----

  /** The token id that a request spent, and the one that it gave out. */
  function SpentBy(r: InFlight): Option<string> {
    match GroundOf(r.stage)
    case Some(Bypass(jti)) => Some(jti)
    case _ => None
  }

  function SignedBy(r: InFlight, c: Config): Option<string> {
    if r.stage.Done? && Warns(r, r.stage.ground, c) then Some(r.stage.jti) else None
  }

  predicate SameParty(claims: Tokens.Claims, q: Request) {
    claims.sub == q.userId && claims.sid == q.sessionId && claims.url == q.url
  }

  predicate SignedAt(c: Config, s: State, jti: string) {
    && jti in s.signer && s.signer[jti] < |s.requests| && jti in s.ledger.issued
    && SignedBy(s.requests[s.signer[jti]], c) == Some(jti)
    && SameParty(s.ledger.issued[jti], s.requests[s.signer[jti]].request)
  }

  predicate Signatures(c: Config, s: State) {
    forall jti :: jti in s.ledger.issued ==> SignedAt(c, s, jti)
  }

  predicate SpentAt(s: State, i: nat)
    requires i < |s.requests|
  {
    SpentBy(s.requests[i]).Some? ==>
      var jti := SpentBy(s.requests[i]).value;
      jti in s.ledger.spent && jti in s.ledger.issued && SameParty(s.ledger.issued[jti], s.requests[i].request)
  }

  predicate SpentOnce(s: State, i: nat, j: nat)
    requires i < |s.requests| && j < |s.requests|
  {
    SpentBy(s.requests[i]).Some? && SpentBy(s.requests[j]).Some? ==> SpentBy(s.requests[i]) != SpentBy(s.requests[j])
  }

  predicate Spendings(s: State) {
    && (forall i :: 0 <= i < |s.requests| ==> SpentAt(s, i))
    && (forall i, j :: 0 <= i < j < |s.requests| ==> SpentOnce(s, i, j))
  }

  /** A request that goes on spends nothing new, and what it signed stays signed. */
  lemma StepSpendsNothing(c: Config, s: State, e: Event)
    requires Possible(c, s, e) && !Arrives(e)
    ensures var r, r' := s.requests[e.id], NextRequests(c, s, e)[e.id];
            && r'.request == r.request && SpentBy(r') == SpentBy(r)
            && SignedBy(r, c).None?
            && SignedBy(r', c) == if Signs(c, s, e) then Some(e.jti) else None
  {
  }

  lemma LedgerGrows(c: Config, s: State, e: Event)
    requires Possible(c, s, e)
    ensures NextLedger(c, s, e).spent == if Proceeds(s, e) then s.ledger.spent + {e.token.value.claims.jti} else s.ledger.spent
    ensures NextLedger(c, s, e).issued ==
            if Signs(c, s, e) then
              var q := s.requests[e.id].request;
              s.ledger.issued[e.jti := Tokens.ClaimsFor(q.url, q.userId, q.sessionId, e.jti, e.now, c.minutes)]
            else s.ledger.issued
  {
  }

  lemma OldSignatureStays(c: Config, s: State, e: Event, jti: string)
    requires Possible(c, s, e) && SignedAt(c, s, jti)
    ensures SignedAt(c, Next(c, s, e), jti)
  {
    var w := s.signer[jti];
    OthersStay(c, s, e);
    LedgerGrows(c, s, e);
    if !Arrives(e) {
      StepSpendsNothing(c, s, e);
      assert w != e.id;
    }
    assert NextRequests(c, s, e)[w] == s.requests[w];
  }

  lemma NewSignature(c: Config, s: State, e: Event)
    requires Possible(c, s, e) && Signs(c, s, e)
    ensures SignedAt(c, Next(c, s, e), e.jti)
  {
  }

  lemma NextKeepsSignatures(c: Config, s: State, e: Event)
    requires Possible(c, s, e) && Signatures(c, s)
    ensures Signatures(c, Next(c, s, e))
  {
    LedgerGrows(c, s, e);
    forall jti | jti in NextLedger(c, s, e).issued ensures SignedAt(c, Next(c, s, e), jti) {
      if jti in s.ledger.issued {
        OldSignatureStays(c, s, e, jti);
      } else {
        NewSignature(c, s, e);
      }
    }
  }

  lemma ProceedingIsNew(c: Config, s: State, e: Event)
    requires Possible(c, s, e) && TablesOk(c, s) && Proceeds(s, e)
    ensures var claims := e.token.value.claims;
            claims.jti !in s.ledger.spent && claims.jti in s.ledger.issued
            && s.ledger.issued[claims.jti] == claims && SameParty(claims, e.request)
  {
  }

  lemma OldSpendingStays(c: Config, s: State, e: Event, i: nat)
    requires Possible(c, s, e) && i < |s.requests| && SpentAt(s, i)
    ensures i < |Next(c, s, e).requests| && SpentAt(Next(c, s, e), i)
    ensures SpentBy(Next(c, s, e).requests[i]) == SpentBy(s.requests[i])
  {
    OthersStay(c, s, e);
    LedgerGrows(c, s, e);
    if !Arrives(e) {
      StepSpendsNothing(c, s, e);
    }
  }

  lemma NewSpending(c: Config, s: State, e: Event)
    requires Possible(c, s, e) && TablesOk(c, s) && Arrives(e)
    ensures var s', n := Next(c, s, e), |s.requests|;
            && n < |s'.requests| && SpentAt(s', n)
            && (SpentBy(s'.requests[n]).Some? ==> SpentBy(s'.requests[n]).value !in s.ledger.spent)
  {
    LedgerGrows(c, s, e);
    if Proceeds(s, e) {
      ProceedingIsNew(c, s, e);
    }
  }

  lemma NextKeepsSpendings(c: Config, s: State, e: Event)
    requires Possible(c, s, e) && TablesOk(c, s) && Spendings(s)
    ensures Spendings(Next(c, s, e))
  {
    var s' := Next(c, s, e);
    OthersStay(c, s, e);
    if Arrives(e) {
      NewSpending(c, s, e);
    }
    forall i | 0 <= i < |s'.requests| ensures SpentAt(s', i) {
      if i < |s.requests| {
        OldSpendingStays(c, s, e, i);
      }
    }
    forall i, j | 0 <= i < j < |s'.requests| ensures SpentOnce(s', i, j) {
      assert SpentAt(s, i);
      OldSpendingStays(c, s, e, i);
      if j < |s.requests| {
        assert SpentAt(s, j) && SpentOnce(s, i, j);
        OldSpendingStays(c, s, e, j);
      }
    }
  }

  // ----- every result is for the url it decides on -----

  function ResultOf(stage: Stage): Option<ThreatScanResult> {
    match stage
    case Scanned(result) => Some(result)
    case Recorded(Scans(result, _)) => Some(result)
    case Done(Scans(result, _), _) => Some(result)
    case Failed(before) => ResultOf(before)
    case _ => None
  }

  /** The result was stored for the url, at this very time or less than one lifetime before it. */
  ghost predicate WasStored(cache: Cache.State, url: string, result: ThreatScanResult, when: int, ttl: int) {
    exists k :: 0 <= k < |cache.history| && IsFresh(cache.history[k], url, result, when, ttl)
  }

  predicate IsFresh(store: Cache.Store, url: string, result: ThreatScanResult, when: int, ttl: int) {
    store.url == url && store.result == result && (store.at == when || when < store.at + ttl)
  }

  ghost predicate ResultAt(c: Config, s: State, i: nat)
    requires i < |s.requests|
  {
    var r := s.requests[i];
    var result := ResultOf(r.stage);
    result.Some? ==> result.value.failSafe || WasStored(s.cache, r.request.url, result.value, r.obtained, c.ttl)
  }

  ghost predicate Results(c: Config, s: State) {
    forall i :: 0 <= i < |s.requests| ==> ResultAt(c, s, i)
  }

  lemma {:induction false} LastStoreIsStored(history: seq<Cache.Store>, url: string) returns (k: nat)
    requires Cache.LastStore(history, url).Some?
    ensures k < |history| && history[k] == Cache.LastStore(history, url).value && history[k].url == url
  {
    if history[|history| - 1].url == url {
      k := |history| - 1;
    } else {
      k := LastStoreIsStored(history[..|history| - 1], url);
    }
  }

  lemma HistoryGrowsAtTheEnd(c: Config, s: State, e: Event)
    requires Possible(c, s, e)
    ensures s.cache.history <= NextCache(c, s, e).history
  {
  }

  lemma StoredStays(c: Config, s: State, e: Event, url: string, result: ThreatScanResult, when: int)
    requires Possible(c, s, e) && WasStored(s.cache, url, result, when, c.ttl)
    ensures WasStored(NextCache(c, s, e), url, result, when, c.ttl)
  {
    HistoryGrowsAtTheEnd(c, s, e);
    var k :| 0 <= k < |s.cache.history| && IsFresh(s.cache.history[k], url, result, when, c.ttl);
    assert NextCache(c, s, e).history[k] == s.cache.history[k];
  }

  /** A hit was stored for the url less than one lifetime ago. */
  lemma HitIsFresh(c: Config, s: State, e: Event)
    requires Possible(c, s, e) && TablesOk(c, s) && e.RulesAnswered? && e.blocking.None?
    requires ResultOf(NextRequests(c, s, e)[e.id].stage).Some?
    ensures var result, url := ResultOf(NextRequests(c, s, e)[e.id].stage).value, s.requests[e.id].request.url;
            exists k :: && 0 <= k < |s.cache.history| && IsFresh(s.cache.history[k], url, result, e.now, c.ttl)
                        && e.now < s.cache.history[k].at + c.ttl
  {
    var url := s.requests[e.id].request.url;
    Cache.PurgeNeverChangesAnAnswer(s.cache, url, e.purgedAt, e.now, c.ttl);
    var k := LastStoreIsStored(s.cache.history, url);
  }

  /** A result that is not a stand-in was stored when it starts to be used: just now, or less than one lifetime ago. */
  lemma NewResultIsStored(c: Config, s: State, e: Event)
    requires Possible(c, s, e) && TablesOk(c, s) && !Arrives(e)
    ensures var before, after := ResultOf(s.requests[e.id].stage), ResultOf(NextRequests(c, s, e)[e.id].stage);
            after.Some? && before.None? ==>
              after.value.failSafe || WasStored(NextCache(c, s, e), s.requests[e.id].request.url, after.value, e.now, c.ttl)
  {
    var url, after := s.requests[e.id].request.url, ResultOf(NextRequests(c, s, e)[e.id].stage);
    if e.RulesAnswered? && e.blocking.None? && after.Some? {
      HitIsFresh(c, s, e);
      StoredStays(c, s, e, url, after.value, e.now);
    } else if e.ScanAnswered? && !e.result.failSafe {
      var k := |s.cache.history|;
      assert NextCache(c, s, e).history[k] == Cache.Store(url, e.result, e.now);
      assert IsFresh(NextCache(c, s, e).history[k], url, e.result, e.now, c.ttl);
    }
  }

  lemma ResultStays(c: Config, s: State, e: Event)
    requires Possible(c, s, e) && !Arrives(e) && ResultOf(s.requests[e.id].stage).Some?
    ensures ResultOf(NextRequests(c, s, e)[e.id].stage) == ResultOf(s.requests[e.id].stage)
    ensures NextRequests(c, s, e)[e.id].obtained == s.requests[e.id].obtained
  {
  }

  lemma NewResultIsTimed(c: Config, s: State, e: Event)
    requires Possible(c, s, e) && !Arrives(e)
    requires ResultOf(s.requests[e.id].stage).None? && ResultOf(NextRequests(c, s, e)[e.id].stage).Some?
    ensures NextRequests(c, s, e)[e.id].obtained == e.now
  {
  }

  lemma NextKeepsResultAt(c: Config, s: State, e: Event, i: nat)
    requires Possible(c, s, e) && TablesOk(c, s) && i < |s.requests| && ResultAt(c, s, i)
    ensures i < |Next(c, s, e).requests| && ResultAt(c, Next(c, s, e), i)
  {
    OthersStay(c, s, e);
    var r := s.requests[i];
    var result := ResultOf(r.stage);
    if result.Some? && !result.value.failSafe {
      StoredStays(c, s, e, r.request.url, result.value, r.obtained);
    }
    if !Arrives(e) && i == e.id {
      if result.Some? {
        ResultStays(c, s, e);
      } else if ResultOf(NextRequests(c, s, e)[i].stage).Some? {
        NewResultIsStored(c, s, e);
        NewResultIsTimed(c, s, e);
      }
    }
  }

  lemma NextKeepsResults(c: Config, s: State, e: Event)
    requires Possible(c, s, e) && TablesOk(c, s) && Results(c, s)
    ensures Results(c, Next(c, s, e))
  {
    OthersStay(c, s, e);
    forall i | 0 <= i < |Next(c, s, e).requests| ensures ResultAt(c, Next(c, s, e), i) {
      if i < |s.requests| {
        NextKeepsResultAt(c, s, e, i);
      }
    }
  }

  /** What every interleaving keeps. */
  ghost predicate Inv(c: Config, s: State) {
    TablesOk(c, s) && Shapes(c, s) && Signatures(c, s) && Spendings(s) && Results(c, s)
  }

  lemma NextKeepsInv(c: Config, s: State, e: Event)
    requires Inv(c, s) && Possible(c, s, e)
    ensures Inv(c, Next(c, s, e))
  {
    NextKeepsTables(c, s, e);
    NextKeepsShapes(c, s, e);
    NextKeepsSignatures(c, s, e);
    NextKeepsSpendings(c, s, e);
    NextKeepsResults(c, s, e);
  }

  // ----- whole runs -----

  const START := State([], Tokens.START, Cache.START, map[], 0)

  predicate StepAt(c: Config, states: seq<State>, run: seq<Event>, i: nat)
    requires i < |run| && |states| == |run| + 1
  {
    Possible(c, states[i], run[i]) && states[i + 1] == Next(c, states[i], run[i])
  }

  /** The states that a run of events goes through. */
  predicate IsRun(c: Config, states: seq<State>, run: seq<Event>) {
    && |states| == |run| + 1 && states[0] == START
    && (forall i :: 0 <= i < |run| ==> StepAt(c, states, run, i))
  }

  lemma {:induction false} RunKeepsInv(c: Config, states: seq<State>, run: seq<Event>, n: nat)
    requires IsRun(c, states, run) && n < |states|
    ensures Inv(c, states[n])
  {
    if n == 0 {
    } else {
      RunKeepsInv(c, states, run, n - 1);
      assert StepAt(c, states, run, n - 1);
      NextKeepsInv(c, states[n - 1], run[n - 1]);
    }
  }

  lemma {:induction false} HistoriesGrow(c: Config, states: seq<State>, run: seq<Event>, m: nat, n: nat, i: nat)
    requires IsRun(c, states, run) && m <= n < |states| && i < |states[m].requests|
    ensures i < |states[n].requests| && states[n].requests[i].request == states[m].requests[i].request
    ensures states[m].requests[i].history <= states[n].requests[i].history
    decreases n
  {
    if m == n {
    } else {
      HistoriesGrow(c, states, run, m, n - 1, i);
      assert StepAt(c, states, run, n - 1);
      HistoryGrows(c, states[n - 1], run[n - 1], i);
    }
  }

  lemma HistoryGrows(c: Config, s: State, e: Event, i: nat)
    requires Possible(c, s, e) && i < |s.requests|
    ensures i < |Next(c, s, e).requests| && Next(c, s, e).requests[i].request == s.requests[i].request
    ensures s.requests[i].history <= Next(c, s, e).requests[i].history
  {
  }

  // ----- what a request can show -----

  predicate IsAnswer(effect: Effect) {
    effect.Forward? || effect.BlockPage? || effect.WarnPage? || effect.Verdict?
  }

  /** One record comes first, one answer second, and an error page can only come last. */
  predicate InOrder(history: seq<Effect>) {
    && (forall k :: 0 <= k < |history| && history[k].Record? ==> k == 0)
    && (forall k :: 0 <= k < |history| && IsAnswer(history[k]) ==> k == 1 && history[0].Record?)
    && (forall k :: 0 <= k < |history| && history[k].ErrorPage? ==> k == |history| - 1)
  }

  lemma ShapesAreInOrder(r: InFlight, c: Config)
    requires RequestOk(r, c)
    ensures InOrder(r.history)
  {
    if r.stage.Failed? {
      var before := Shape(r.request.kind, r.stage.before, c);
      assert !r.stage.before.Failed?;
      assert r.history == before + OnError(r.request.kind);
    }
  }

  /** In every run a request leaves at most one traffic record and gets at most one answer, after its record. */
  lemma EveryRequestIsInOrder(c: Config, states: seq<State>, run: seq<Event>, n: nat, i: nat)
    requires IsRun(c, states, run) && n < |states| && i < |states[n].requests|
    ensures InOrder(states[n].requests[i].history)
  {
    RunKeepsInv(c, states, run, n);
    ShapesAreInOrder(states[n].requests[i], c);
  }

  lemma ForwardShape(r: InFlight, c: Config)
    requires RequestOk(r, c) && Forward in r.history
    ensures r.request.kind == Http && r.history[0] == Record(ALLOW)
    ensures GroundOf(r.stage).Some? && DecisionFor(GroundOf(r.stage).value, c) == ALLOW
  {
    if r.stage.Failed? {
      assert r.history == Shape(r.request.kind, r.stage.before, c) + OnError(r.request.kind);
      assert !r.stage.before.Failed?;
    }
  }

  /**
   * In every run, what is forwarded upstream was recorded with decision ALLOW before, and, unless the user
   * proceeded past a warning or has a rule for it, on scans that found nothing: on a result of the scanner for
   * this very url that was new or, if it came from the cache, less than one lifetime old when it was read; or, if
   * scanning failed and that is tolerated, on its stand-in.
   */
  lemma ForwardsAreAllowed(c: Config, states: seq<State>, run: seq<Event>, n: nat, i: nat)
    requires IsRun(c, states, run) && n < |states| && i < |states[n].requests|
    requires Forward in states[n].requests[i].history
    ensures var r := states[n].requests[i];
            && r.request.kind == Http && r.history[0] == Record(ALLOW) && GroundOf(r.stage).Some?
            && match GroundOf(r.stage).value
               case Bypass(_) => true
               case UserRule(block) => !block
               case Scans(result, fileScan) =>
                 && !IsFinding(result.verdict) && !(fileScan.Some? && IsFinding(fileScan.value.verdict))
                 && (if result.failSafe then !(c.failClosed && result.verdict == UNVERIFIED)
                     else WasStored(states[n].cache, r.request.url, result, r.obtained, c.ttl))
  {
    RunKeepsInv(c, states, run, n);
    var r := states[n].requests[i];
    ForwardShape(r, c);
    match GroundOf(r.stage).value {
      case Scans(result, fileScan) =>
        AllowedMeansNothingFound(result, fileScan, c.failClosed);
        ScansHaveResults(r.stage);
        assert ResultAt(c, states[n], i);
      case _ =>
    }
  }

  predicate MeansWarning(ground: Ground) {
    ground.Scans? && Suspicion(ground.result, ground.fileScan)
  }

  predicate MeansBlock(ground: Ground, c: Config) {
    match ground
    case Bypass(_) => false
    case UserRule(block) => block
    case Scans(result, fileScan) => Danger(result, fileScan, c.failClosed)
  }

  lemma DecisionsByGrounds(ground: Ground, c: Config)
    ensures DecisionFor(ground, c) == WARN <==> MeansWarning(ground)
    ensures DecisionFor(ground, c) == BLOCK <==> MeansBlock(ground, c)
  {
    if ground.Scans? {
      DecisionsByVerdicts(ground.result, ground.fileScan, c.failClosed);
    }
  }

  /** In every run, what an answered request has recorded and was answered, read off its ground. */
  lemma AnswersByGrounds(c: Config, states: seq<State>, run: seq<Event>, n: nat, i: nat)
    requires IsRun(c, states, run) && n < |states| && i < |states[n].requests|
    requires states[n].requests[i].stage.Done?
    ensures var r := states[n].requests[i];
            var ground := r.stage.ground;
            if r.request.kind == Http then
              && (r.history == [Record(WARN), WarnPage(r.stage.jti)] <==> MeansWarning(ground))
              && (r.history == [Record(BLOCK), BlockPage] <==> MeansBlock(ground, c))
              && (r.history == [Record(ALLOW), Forward] <==> !MeansWarning(ground) && !MeansBlock(ground, c))
            else
              && (r.history == [Record(WARN), Verdict(BLOCK)] <==> MeansWarning(ground))
              && (r.history == [Record(BLOCK), Verdict(BLOCK)] <==> MeansBlock(ground, c))
              && (r.history == [Record(ALLOW), Verdict(ALLOW)] <==> !MeansWarning(ground) && !MeansBlock(ground, c))
  {
    RunKeepsInv(c, states, run, n);
    assert RequestOk(states[n].requests[i], c);
    DecisionsByGrounds(states[n].requests[i].stage.ground, c);
  }

  lemma {:induction false} ScansHaveResults(stage: Stage)
    requires GroundOf(stage).Some? && GroundOf(stage).value.Scans?
    ensures ResultOf(stage) == Some(GroundOf(stage).value.result)
    decreases stage
  {
    if stage.Failed? {
      ScansHaveResults(stage.before);
    }
  }

  /** In every run a tunnel request is never answered with a warning, and never forwarded as a page. */
  lemma ConnectNeverWarns(c: Config, states: seq<State>, run: seq<Event>, n: nat, i: nat, k: nat)
    requires IsRun(c, states, run) && n < |states| && i < |states[n].requests|
    requires states[n].requests[i].request.kind == Connect && k < |states[n].requests[i].history|
    ensures var r := states[n].requests[i];
            && (r.history[k].Record? || r.history[k].Verdict?)
            && r.history[k] != Verdict(WARN)
            && (r.history[k] == Verdict(ALLOW) ==> r.history[0] == Record(ALLOW))
  {
    RunKeepsInv(c, states, run, n);
    ConnectShape(states[n].requests[i], c, k);
  }

  lemma ConnectShape(r: InFlight, c: Config, k: nat)
    requires RequestOk(r, c) && r.request.kind == Connect && k < |r.history|
    ensures (r.history[k].Record? || r.history[k].Verdict?) && r.history[k] != Verdict(WARN)
    ensures r.history[k] == Verdict(ALLOW) ==> r.history[0] == Record(ALLOW)
  {
    if r.stage.Failed? {
      assert r.history == Shape(r.request.kind, r.stage.before, c);
    }
  }

  // ----- proceeding past warnings -----

  predicate SameUse(q: Request, party: Request) {
    (q.userId, q.sessionId, q.url) == (party.userId, party.sessionId, party.url)
  }

  predicate WasWarned(r: InFlight) {
    exists k :: 0 <= k < |r.history| && r.history[k].WarnPage?
  }

  /** The requests of a user, session and url that were let past a warning. */
  function Proceeded(s: State, party: Request): set<nat> {
    set i: nat | i < |s.requests| && SameUse(s.requests[i].request, party) && SpentBy(s.requests[i]).Some?
  }

  /** The requests of a user, session and url that were answered with a warning page. */
  function Warned(s: State, party: Request): set<nat> {
    set i: nat | i < |s.requests| && SameUse(s.requests[i].request, party) && WasWarned(s.requests[i])
  }

  /** The request whose warning page carried the token that was spent. */
  function WarnedBy(s: State, i: nat): nat {
    if i < |s.requests| && SpentBy(s.requests[i]).Some? && SpentBy(s.requests[i]).value in s.signer then
      s.signer[SpentBy(s.requests[i]).value]
    else 0
  }

  lemma ProceededWasWarned(c: Config, s: State, party: Request, i: nat)
    requires Inv(c, s) && i in Proceeded(s, party)
    ensures WarnedBy(s, i) in Warned(s, party)
    ensures SignedBy(s.requests[WarnedBy(s, i)], c) == SpentBy(s.requests[i])
  {
    assert SpentAt(s, i);
    var jti := SpentBy(s.requests[i]).value;
    assert SignedAt(c, s, jti);
    var w := s.signer[jti];
    assert RequestOk(s.requests[w], c);
    assert s.requests[w].history[1] == WarnPage(jti);
  }

  lemma DifferentWarnings(c: Config, s: State, party: Request, i: nat, j: nat)
    requires Inv(c, s) && i in Proceeded(s, party) && j in Proceeded(s, party) && i != j
    ensures WarnedBy(s, i) != WarnedBy(s, j)
  {
    ProceededWasWarned(c, s, party, i);
    ProceededWasWarned(c, s, party, j);
    assert if i < j then SpentOnce(s, i, j) else SpentOnce(s, j, i);
  }

  lemma {:induction false} MappedIsNoLarger(from: set<nat>, to: set<nat>, f: nat -> nat)
    requires forall i :: i in from ==> f(i) in to
    requires forall i, j :: i in from && j in from && i != j ==> f(i) != f(j)
    ensures |from| <= |to|
  {
    if from == {} {
    } else {
      var i :| i in from;
      MappedIsNoLarger(from - {i}, to - {f(i)}, f);
    }
  }

  /**
   * In every run, at every moment: for any user, session and url, no more requests were let past a warning
   * than warning pages for the same user, session and url were shown before, and each had a page of its own.
   */
  lemma ProceedsAtMostWarnings(c: Config, states: seq<State>, run: seq<Event>, n: nat, party: Request)
    requires IsRun(c, states, run) && n < |states|
    ensures |Proceeded(states[n], party)| <= |Warned(states[n], party)|
    ensures forall i :: i in Proceeded(states[n], party) ==> WarnedBy(states[n], i) in Warned(states[n], party)
    ensures forall i, j :: i in Proceeded(states[n], party) && j in Proceeded(states[n], party) && i != j ==>
      WarnedBy(states[n], i) != WarnedBy(states[n], j)
  {
    var s := states[n];
    RunKeepsInv(c, states, run, n);
    forall i | i in Proceeded(s, party) ensures WarnedBy(s, i) in Warned(s, party) {
      ProceededWasWarned(c, s, party, i);
    }
    forall i, j | i in Proceeded(s, party) && j in Proceeded(s, party) && i != j ensures WarnedBy(s, i) != WarnedBy(s, j) {
      DifferentWarnings(c, s, party, i, j);
    }
    MappedIsNoLarger(Proceeded(s, party), Warned(s, party), i => WarnedBy(s, i));
  }
}
