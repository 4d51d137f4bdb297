/**
 * One-time tokens that let a user proceed past a warning page.
 * The table of consumed token ids is purged by time; the theorems say that nobody can tell.
 */
module BypassTokens {

  const BYPASS_TYPE := "guardme_bypass"

  /** The content of a signed token. `exp` is in whole seconds, see section 4.1.4 of RFC 7519. */
  datatype Claims = Claims(typ: string, sub: string, sid: string, url: string, jti: string, exp: int)

  /** A presented string: either its signature is good and it carries claims, or it is nothing. */
  datatype Token = Malformed | Signed(claims: Claims)

  function Second(ms: int): int {
    ms / 1000
  }

  /** The signature library accepts a token strictly before the second `exp`. */
  predicate Verifies(token: Token, now: int) {
    token.Signed? && Second(now) < token.claims.exp
  }

  function ClaimsFor(url: string, userId: string, sessionId: string, jti: string, now: int, minutes: nat): Claims {
    Claims(BYPASS_TYPE, userId, sessionId, url, jti, Second(now) + minutes * 60)
  }

  /** All checks of a presented token except the one against the consumed ids. */
  predicate Fits(token: Token, url: string, userId: string, sessionId: string, now: int) {
    && Verifies(token, now)
    && token.claims.typ == BYPASS_TYPE
    && token.claims.sub == userId
    && token.claims.sid == sessionId
    && token.claims.url == url
  }

  /** Token id to the time from which its entry may be dropped. */
  type Consumed = map<string, int>

  function PurgeConsumed(consumed: Consumed, now: int): Consumed {
    map jti | jti in consumed && now < consumed[jti] :: consumed[jti]
  }

  /** What is known of a run: the purged table, every token ever signed, every id ever accepted, and the time. */
  datatype Ledger = Ledger(consumed: Consumed, issued: map<string, Claims>, spent: set<string>, clock: int)

  /** The two calls of the service; the clock may move between the purge and the later readings of a presentation. */
  datatype Event =
    | Sign(url: string, userId: string, sessionId: string, jti: string, now: int)
    | Present(token: Token, url: string, userId: string, sessionId: string, purgedAt: int, now: int)

  /** The code's answer, from the purged table alone. */
  predicate Answer(consumed: Consumed, e: Event)
    requires e.Present?
  {
    && Fits(e.token, e.url, e.userId, e.sessionId, e.now)
    && e.token.claims.jti !in PurgeConsumed(consumed, e.purgedAt)
  }

  /** The answer of a table that never forgets an id. */
  predicate UnforgettingAnswer(spent: set<string>, e: Event)
    requires e.Present?
  {
    && Fits(e.token, e.url, e.userId, e.sessionId, e.now)
    && e.token.claims.jti !in spent
  }

  function Next(l: Ledger, e: Event, minutes: nat): Ledger {
    match e
    case Sign(url, userId, sessionId, jti, now) =>
      l.(issued := l.issued[jti := ClaimsFor(url, userId, sessionId, jti, now, minutes)], clock := now)
    case Present(token, url, userId, sessionId, purgedAt, now) =>
      var kept := PurgeConsumed(l.consumed, purgedAt);
      if Answer(l.consumed, e) then
        var jti := token.claims.jti;
        l.(consumed := kept[jti := now + minutes * 60000], spent := l.spent + {jti}, clock := now)
      else
        l.(consumed := kept, clock := now)
  }

  /** The environment's part: time does not go back, token ids are fresh, signatures cannot be forged. */
  predicate Plausible(l: Ledger, e: Event) {
    && l.clock <= e.now
    && (e.Sign? ==> e.jti !in l.issued)
    && (e.Present? ==> l.clock <= e.purgedAt <= e.now && Genuine(l, e.token))
  }

  predicate Genuine(l: Ledger, token: Token) {
    token.Signed? && token.claims.typ == BYPASS_TYPE ==>
      token.claims.jti in l.issued && l.issued[token.claims.jti] == token.claims
  }

  /** What every run keeps: an id is dropped from the table only once its token has expired. */
  ghost predicate Inv(l: Ledger, minutes: nat) {
    && l.spent <= l.issued.Keys
    && l.consumed.Keys <= l.spent
    && (forall jti :: jti in l.issued ==>
          && l.issued[jti].jti == jti
          && l.issued[jti].typ == BYPASS_TYPE
          && l.issued[jti].exp <= Second(l.clock) + minutes * 60)
    && (forall jti :: jti in l.spent ==>
          l.issued[jti].exp <= if jti in l.consumed then Second(l.consumed[jti]) else Second(l.clock))
  }

  lemma SecondGrows(a: int, b: int)
    requires a <= b
    ensures Second(a) <= Second(b)
  {
  }

  lemma NextKeepsInv(l: Ledger, e: Event, minutes: nat)
    requires Inv(l, minutes) && Plausible(l, e)
    ensures Inv(Next(l, e, minutes), minutes)
  {
    SecondGrows(l.clock, e.now);
    if e.Present? {
      forall jti | jti in l.consumed && l.consumed[jti] <= e.purgedAt
        ensures l.issued[jti].exp <= Second(e.now)
      {
        SecondGrows(l.consumed[jti], e.now);
      }
      assert Second(e.now + minutes * 60000) == Second(e.now) + minutes * 60;
    }
  }

  /** Forgetting is invisible: a plausible presentation gets the answer of the table that never forgets. */
  lemma PurgeNeverChangesAnAnswer(l: Ledger, e: Event, minutes: nat)
    requires Inv(l, minutes) && Plausible(l, e) && e.Present?
    ensures Answer(l.consumed, e) <==> UnforgettingAnswer(l.spent, e)
  {
  }

  // ----- whole runs -----

  const START := Ledger(map[], map[], {}, 0)

  /** The ledger after the first n events. */
  function After(run: seq<Event>, n: nat, minutes: nat): Ledger
    requires n <= |run|
  {
    if n == 0 then START else Next(After(run, n - 1, minutes), run[n - 1], minutes)
  }

  predicate PlausibleAt(run: seq<Event>, i: nat, minutes: nat)
    requires i < |run|
  {
    Plausible(After(run, i, minutes), run[i])
  }

  predicate PlausibleRun(run: seq<Event>, minutes: nat) {
    forall i :: 0 <= i < |run| ==> PlausibleAt(run, i, minutes)
  }

  /** The i-th event is a presentation that the code accepts. */
  predicate Accepted(run: seq<Event>, i: nat, minutes: nat)
    requires i < |run|
  {
    run[i].Present? && Answer(After(run, i, minutes).consumed, run[i])
  }

  lemma {:induction false} RunKeepsInv(run: seq<Event>, n: nat, minutes: nat)
    requires PlausibleRun(run, minutes) && n <= |run|
    ensures Inv(After(run, n, minutes), minutes)
  {
    if n == 0 {
    } else {
      RunKeepsInv(run, n - 1, minutes);
      assert PlausibleAt(run, n - 1, minutes);
      NextKeepsInv(After(run, n - 1, minutes), run[n - 1], minutes);
    }
  }

  lemma {:induction false} SpentForGood(run: seq<Event>, i: nat, j: nat, minutes: nat)
    requires i <= j <= |run|
    ensures After(run, i, minutes).spent <= After(run, j, minutes).spent
    decreases j
  {
    if i == j {
    } else {
      SpentForGood(run, i, j - 1, minutes);
    }
  }

  lemma AcceptingSpends(run: seq<Event>, i: nat, minutes: nat)
    requires i < |run| && Accepted(run, i, minutes)
    ensures run[i].token.claims.jti in After(run, i + 1, minutes).spent
  {
  }

  lemma AcceptedWasUnspent(run: seq<Event>, i: nat, minutes: nat)
    requires PlausibleRun(run, minutes) && i < |run| && Accepted(run, i, minutes)
    ensures run[i].token.claims.jti !in After(run, i, minutes).spent
  {
    RunKeepsInv(run, i, minutes);
    assert PlausibleAt(run, i, minutes);
    PurgeNeverChangesAnAnswer(After(run, i, minutes), run[i], minutes);
  }

  /** In every plausible run a token id is accepted at most once, although consumed ids are forgotten. */
  lemma SingleUse(run: seq<Event>, i: nat, j: nat, minutes: nat)
    requires PlausibleRun(run, minutes) && i < j < |run|
    requires Accepted(run, i, minutes) && Accepted(run, j, minutes)
    ensures run[i].token.claims.jti != run[j].token.claims.jti
  {
    AcceptingSpends(run, i, minutes);
    SpentForGood(run, i + 1, j, minutes);
    AcceptedWasUnspent(run, j, minutes);
  }

  /** Event s of the run signs exactly the token that event i presents, for the same user, session and url. */
  predicate SignsFor(run: seq<Event>, s: nat, i: nat)
    requires s < |run| && i < |run|
  {
    && run[s].Sign? && run[i].Present? && run[i].token.Signed?
    && run[s].jti == run[i].token.claims.jti
    && (run[s].url, run[s].userId, run[s].sessionId) == (run[i].url, run[i].userId, run[i].sessionId)
  }

  lemma {:induction false} IssuedBySomeSign(run: seq<Event>, n: nat, jti: string, minutes: nat) returns (s: nat)
    requires n <= |run| && jti in After(run, n, minutes).issued
    ensures s < n && run[s].Sign? && run[s].jti == jti
    ensures After(run, n, minutes).issued[jti] ==
            ClaimsFor(run[s].url, run[s].userId, run[s].sessionId, jti, run[s].now, minutes)
  {
    if run[n - 1].Sign? && run[n - 1].jti == jti {
      s := n - 1;
    } else {
      s := IssuedBySomeSign(run, n - 1, jti, minutes);
    }
  }

  /** An accepted token was signed earlier, for this very user, session and url, and less than its lifetime ago. */
  lemma AcceptedWasSigned(run: seq<Event>, i: nat, minutes: nat)
    requires PlausibleRun(run, minutes) && i < |run| && Accepted(run, i, minutes)
    ensures exists s: nat :: s < i && SignsFor(run, s, i) && run[i].now < run[s].now + minutes * 60000
  {
    assert PlausibleAt(run, i, minutes);
    var s := IssuedBySomeSign(run, i, run[i].token.claims.jti, minutes);
    assert SignsFor(run, s, i);
    assert run[i].now < (Second(run[s].now) + minutes * 60) * 1000;
  }

  lemma {:induction false} SignedStays(run: seq<Event>, s: nat, n: nat, minutes: nat)
    requires PlausibleRun(run, minutes) && s < n <= |run| && run[s].Sign?
    ensures run[s].jti in After(run, n, minutes).issued
    ensures After(run, n, minutes).issued[run[s].jti] ==
            ClaimsFor(run[s].url, run[s].userId, run[s].sessionId, run[s].jti, run[s].now, minutes)
    decreases n
  {
    assert PlausibleAt(run, n - 1, minutes);
    if n > s + 1 {
      SignedStays(run, s, n - 1, minutes);
    }
  }

  /** An id that got spent between two points of the run was accepted in between. */
  lemma {:induction false} SpentWasAccepted(run: seq<Event>, s: nat, n: nat, jti: string, minutes: nat) returns (k: nat)
    requires s <= n <= |run|
    requires jti !in After(run, s, minutes).spent && jti in After(run, n, minutes).spent
    ensures s <= k < n && Accepted(run, k, minutes) && run[k].token.claims.jti == jti
    decreases n
  {
    if jti in After(run, n - 1, minutes).spent {
      k := SpentWasAccepted(run, s, n - 1, jti, minutes);
    } else {
      k := n - 1;
    }
  }

  /** No event between s and i is an accepted presentation of the id that event i presents. */
  predicate UnspentSince(run: seq<Event>, s: nat, i: nat, minutes: nat)
    requires s < i < |run| && run[i].Present? && run[i].token.Signed?
  {
    forall k :: s <= k < i && Accepted(run, k, minutes) ==> run[k].token.claims.jti != run[i].token.claims.jti
  }

  /** Everything that a presentation needs: its token signed by event s, unspent since, and younger than the setting. */
  predicate Deserves(run: seq<Event>, s: nat, i: nat, minutes: nat)
    requires s < i < |run|
  {
    && SignsFor(run, s, i) && run[i].token.claims.typ == "guardme_bypass"
    && UnspentSince(run, s, i, minutes)
    && run[i].now / 1000 < run[s].now / 1000 + minutes * 60
  }

  lemma DeservingIsAccepted(run: seq<Event>, s: nat, i: nat, minutes: nat)
    requires PlausibleRun(run, minutes) && s < i < |run| && Deserves(run, s, i, minutes)
    ensures Accepted(run, i, minutes)
  {
    var jti := run[i].token.claims.jti;
    assert PlausibleAt(run, s, minutes) && PlausibleAt(run, i, minutes);
    RunKeepsInv(run, s, minutes);
    RunKeepsInv(run, i, minutes);
    SignedStays(run, s, i, minutes);
    if jti in After(run, i, minutes).spent {
      var k := SpentWasAccepted(run, s, i, jti, minutes);
    }
    PurgeNeverChangesAnAnswer(After(run, i, minutes), run[i], minutes);
  }

  lemma AcceptedDeserves(run: seq<Event>, i: nat, minutes: nat) returns (s: nat)
    requires PlausibleRun(run, minutes) && i < |run| && Accepted(run, i, minutes)
    ensures s < i && Deserves(run, s, i, minutes)
  {
    assert PlausibleAt(run, i, minutes);
    s := IssuedBySomeSign(run, i, run[i].token.claims.jti, minutes);
    forall k | s <= k < i && Accepted(run, k, minutes) ensures run[k].token.claims.jti != run[i].token.claims.jti {
      SingleUse(run, k, i, minutes);
    }
  }

  /**
   * Exactly when a presentation is accepted, read off the events: an earlier signing of this very token for this user,
   * session and url, so many minutes ago at most, and no acceptance of its id since.
   */
  lemma AcceptedIffDeserved(run: seq<Event>, i: nat, minutes: nat)
    requires PlausibleRun(run, minutes) && i < |run|
    ensures Accepted(run, i, minutes) <==> exists s :: 0 <= s < i && Deserves(run, s, i, minutes)
  {
    forall s | 0 <= s < i && Deserves(run, s, i, minutes) ensures Accepted(run, i, minutes) {
      DeservingIsAccepted(run, s, i, minutes);
    }
    if Accepted(run, i, minutes) {
      var s := AcceptedDeserves(run, i, minutes);
    }
  }

  // ----- the service object -----

  class BypassTokenService {
    const minutes: nat
    var consumedTokenIds: Consumed
    ghost var issued: map<string, Claims>
    ghost var spent: set<string>
    ghost var clock: int

    ghost function View(): Ledger
      reads this
    {
      Ledger(consumedTokenIds, issued, spent, clock)
    }

    ghost predicate Valid()
      reads this
    {
      Inv(View(), minutes)
    }

    constructor (minutes: nat)
      ensures Valid() && View() == START && this.minutes == minutes
    {
      this.minutes := minutes;
      consumedTokenIds, issued, spent, clock := map[], map[], {}, 0;
    }

    /** `jti` is the fresh random id; times are in milliseconds. */
    method Sign(url: string, userId: string, sessionId: string, jti: string, now: int) returns (token: Token)
      requires Valid() && Plausible(View(), Event.Sign(url, userId, sessionId, jti, now))
      modifies this
      ensures Valid() && View() == Next(old(View()), Event.Sign(url, userId, sessionId, jti, now), minutes)
      ensures token.Signed? && Genuine(View(), token) && Fits(token, url, userId, sessionId, now) == (minutes > 0)
      ensures token.claims.sub == userId && token.claims.sid == sessionId && token.claims.url == url
      ensures token.claims.typ == "guardme_bypass" && token.claims.jti == jti
      ensures token.claims.exp == now / 1000 + minutes * 60
    {
      NextKeepsInv(View(), Event.Sign(url, userId, sessionId, jti, now), minutes);
      token := Signed(ClaimsFor(url, userId, sessionId, jti, now, minutes));
      issued, clock := issued[jti := token.claims], now;
    }

    method VerifyAndConsume(token: Token, url: string, userId: string, sessionId: string, purgedAt: int, now: int) returns (ok: bool)
      requires Valid() && Plausible(View(), Present(token, url, userId, sessionId, purgedAt, now))
      modifies this
      ensures Valid() && View() == Next(old(View()), Present(token, url, userId, sessionId, purgedAt, now), minutes)
      ensures ok == UnforgettingAnswer(old(spent), Present(token, url, userId, sessionId, purgedAt, now))
      ensures ok ==> token.claims.jti in consumedTokenIds && consumedTokenIds[token.claims.jti] == now + minutes * 60000
    {
      ghost var e := Present(token, url, userId, sessionId, purgedAt, now);
      NextKeepsInv(View(), e, minutes);
      PurgeNeverChangesAnAnswer(View(), e, minutes);
      PurgeConsumedIds(purgedAt);
      clock := now;
      if !Verifies(token, now) || token.claims.typ != BYPASS_TYPE {
        return false;
      }
      var payload := token.claims;
      if payload.sub != userId || payload.sid != sessionId || payload.url != url {
        return false;
      }
      if payload.jti in consumedTokenIds {
        return false;
      }
      consumedTokenIds := consumedTokenIds[payload.jti := now + minutes * 60000];
      spent := spent + {payload.jti};
      return true;
    }

    method PurgeConsumedIds(now: int)
      modifies this`consumedTokenIds
      ensures consumedTokenIds == PurgeConsumed(old(consumedTokenIds), now)
      ensures forall jti :: jti in consumedTokenIds <==> jti in old(consumedTokenIds) && old(consumedTokenIds)[jti] > now
    {
      ghost var before := consumedTokenIds;
      var left := consumedTokenIds.Keys;
      while left != {}
        invariant left <= before.Keys
        invariant consumedTokenIds == map jti | jti in before && (jti in left || now < before[jti]) :: before[jti]
        decreases left
      {
        var jti :| jti in left;
        if consumedTokenIds[jti] <= now {
          consumedTokenIds := consumedTokenIds - {jti};
        }
        left := left - {jti};
      }
    }
  }
}
