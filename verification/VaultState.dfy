/**
 * The vault as a state machine: rows, unlocked keys, and what was ever encrypted. Each event is a stretch of
 * code without a wait, so a run of events is any interleaving of requests.
 */
module VaultState {
  import opened Wrappers

  type Byte = b: int | 0 <= b < 256

  datatype Payload = Payload(ciphertext: string, iv: string, authTag: string)

  datatype User = User(passwordHash: string, kdfSalt: string)

  /** The foreign cryptography; decryption fails by returning nothing. */
  datatype Crypto = Crypto(
    verify: (string, string) -> bool,
    derive: (string, string) -> seq<Byte>,
    encrypt: (string, seq<Byte>, string) -> Payload,
    decrypt: (Payload, seq<Byte>) -> Option<string>)

  datatype Row = Row(userId: string, serviceName: string, username: string, payload: Payload)

  /** A plaintext that was encrypted for a user, with its encryption. */
  datatype Sealed = Sealed(userId: string, payload: Payload, plaintext: string)

  /** What does not change during a run; `passwords` are the users' own passwords. */
  datatype World = World(crypto: Crypto, users: map<string, User>, passwords: map<string, string>)

  function KeyOf(w: World, userId: string): seq<Byte>
    requires userId in w.users && userId in w.passwords
  {
    w.crypto.derive(w.passwords[userId], w.users[userId].kdfSalt)
  }

  /** Decryption undoes encryption under the same key, and only a user's own password passes for it. */
  ghost predicate Lawful(w: World) {
    && (forall plaintext, key, iv :: w.crypto.decrypt(w.crypto.encrypt(plaintext, key, iv), key) == Some(plaintext))
    && (forall userId :: userId in w.users ==> userId in w.passwords)
    && (forall userId, password :: userId in w.users && w.crypto.verify(password, w.users[userId].passwordHash) ==>
          password == w.passwords[userId])
  }

  /** `written` holds the last password stored in each row; `owners` knows every row there ever was. */
  datatype State = State(
    keys: map<string, seq<Byte>>,
    rows: map<string, Row>,
    written: map<string, string>,
    owners: map<string, string>,
    encrypted: set<Sealed>)

  datatype Event =
    | Unlock(userId: string, password: string)
    | Lock(userId: string)
    | Encrypt(userId: string, plaintext: string, iv: string)
    | InsertRow(id: string, serviceName: string, username: string, item: Sealed)
    | UpdateRow(id: string, userId: string, newServiceName: Option<string>, newUsername: Option<string>, newItem: Option<Sealed>)
    | DeleteRow(id: string)

  predicate Unlocks(w: World, userId: string, password: string) {
    userId in w.users && w.crypto.verify(password, w.users[userId].passwordHash)
  }

  function Changed<T>(change: Option<T>, current: T): T {
    if change.Some? then change.value else current
  }

  function PayloadOf(item: Option<Sealed>): Option<Payload> {
    if item.Some? then Some(item.value.payload) else None
  }

  function Updated(row: Row, serviceName: Option<string>, username: Option<string>, payload: Option<Payload>): Row {
    Row(row.userId, Changed(serviceName, row.serviceName), Changed(username, row.username), Changed(payload, row.payload))
  }

  function Next(w: World, s: State, e: Event): State {
    match e
    case Unlock(userId, password) =>
      if Unlocks(w, userId, password) then s.(keys := s.keys[userId := w.crypto.derive(password, w.users[userId].kdfSalt)]) else s
    case Lock(userId) =>
      s.(keys := s.keys - {userId})
    case Encrypt(userId, plaintext, iv) =>
      if userId in s.keys then
        s.(encrypted := s.encrypted + {Sealed(userId, w.crypto.encrypt(plaintext, s.keys[userId], iv), plaintext)})
      else s
    case InsertRow(id, serviceName, username, item) =>
      s.(rows := s.rows[id := Row(item.userId, serviceName, username, item.payload)],
         written := s.written[id := item.plaintext],
         owners := s.owners[id := item.userId])
    case UpdateRow(id, _, serviceName, username, newItem) =>
      if id !in s.rows then s
      else
        s.(rows := s.rows[id := Updated(s.rows[id], serviceName, username, PayloadOf(newItem))],
           written := if newItem.Some? then s.written[id := newItem.value.plaintext] else s.written)
    case DeleteRow(id) =>
      s.(rows := s.rows - {id}, written := s.written - {id})
  }

  /**
   * Row ids are never used twice; what is stored was encrypted before, for the same user; and who updates a
   * row found it among its own rows before, though it may be gone by now.
   */
  predicate Possible(s: State, e: Event) {
    match e
    case InsertRow(id, _, _, item) => id !in s.owners && item in s.encrypted
    case UpdateRow(id, userId, _, _, newItem) =>
      && id in s.owners && s.owners[id] == userId
      && (newItem.Some? ==> newItem.value in s.encrypted && newItem.value.userId == userId)
    case _ => true
  }

  predicate Opens(w: World, userId: string, payload: Payload, plaintext: string) {
    userId in w.users && userId in w.passwords && w.crypto.decrypt(payload, KeyOf(w, userId)) == Some(plaintext)
  }

  predicate RowOpens(w: World, s: State, id: string) {
    id in s.rows && id in s.written && Opens(w, s.rows[id].userId, s.rows[id].payload, s.written[id])
  }

  ghost predicate Inv(w: World, s: State) {
    && (forall userId :: userId in s.keys ==> userId in w.users && userId in w.passwords && s.keys[userId] == KeyOf(w, userId))
    && (forall item :: item in s.encrypted ==> Opens(w, item.userId, item.payload, item.plaintext))
    && s.rows.Keys == s.written.Keys
    && (forall id :: id in s.rows ==> RowOpens(w, s, id) && id in s.owners && s.owners[id] == s.rows[id].userId)
  }

  lemma KeyEventKeepsInv(w: World, s: State, e: Event)
    requires Lawful(w) && Inv(w, s) && (e.Unlock? || e.Lock? || e.Encrypt?)
    ensures Inv(w, Next(w, s, e))
  {
    forall id | id in s.rows ensures RowOpens(w, Next(w, s, e), id) {
      assert RowOpens(w, s, id);
    }
  }

  lemma InsertKeepsInv(w: World, s: State, e: Event)
    requires Inv(w, s) && Possible(s, e) && e.InsertRow?
    ensures Inv(w, Next(w, s, e))
  {
    assert Opens(w, e.item.userId, e.item.payload, e.item.plaintext);
    forall id | id in Next(w, s, e).rows ensures RowOpens(w, Next(w, s, e), id) {
      if id != e.id {
        assert RowOpens(w, s, id);
      }
    }
  }

  lemma UpdatedRowsOpen(w: World, s: State, e: Event, id: string)
    requires Inv(w, s) && Possible(s, e) && e.UpdateRow? && id in s.rows
    ensures RowOpens(w, Next(w, s, e), id) && Next(w, s, e).rows[id].userId == s.rows[id].userId
  {
    assert RowOpens(w, s, id);
    if e.newItem.Some? {
      var item := e.newItem.value;
      assert Opens(w, item.userId, item.payload, item.plaintext);
    }
  }

  lemma UpdateKeepsInv(w: World, s: State, e: Event)
    requires Inv(w, s) && Possible(s, e) && e.UpdateRow?
    ensures Inv(w, Next(w, s, e))
  {
    var after := Next(w, s, e);
    assert after.rows.Keys == s.rows.Keys && after.written.Keys == s.written.Keys;
    assert after.keys == s.keys && after.encrypted == s.encrypted && after.owners == s.owners;
    forall id | id in s.rows ensures RowOpens(w, after, id) && after.rows[id].userId == s.rows[id].userId {
      UpdatedRowsOpen(w, s, e, id);
    }
  }

  lemma DeleteKeepsInv(w: World, s: State, e: Event)
    requires Inv(w, s) && e.DeleteRow?
    ensures Inv(w, Next(w, s, e))
  {
    forall id | id in Next(w, s, e).rows ensures RowOpens(w, Next(w, s, e), id) {
      assert RowOpens(w, s, id);
    }
  }

  lemma NextKeepsInv(w: World, s: State, e: Event)
    requires Lawful(w) && Inv(w, s) && Possible(s, e)
    ensures Inv(w, Next(w, s, e))
  {
    match e {
      case InsertRow(_, _, _, _) => InsertKeepsInv(w, s, e);
      case UpdateRow(_, _, _, _, _) => UpdateKeepsInv(w, s, e);
      case DeleteRow(_) => DeleteKeepsInv(w, s, e);
      case _ => KeyEventKeepsInv(w, s, e);
    }
  }

  lemma EffectOfLock(w: World, s: State, userId: string)
    ensures Next(w, s, Event.Lock(userId)).rows == s.rows
    ensures Next(w, s, Event.Lock(userId)).keys == s.keys - {userId}
  {
  }

  lemma EffectOfUnlock(w: World, s: State, userId: string, password: string)
    ensures Next(w, s, Event.Unlock(userId, password)).rows == s.rows
    ensures Next(w, s, Event.Unlock(userId, password)).keys ==
            if Unlocks(w, userId, password) then s.keys[userId := w.crypto.derive(password, w.users[userId].kdfSalt)] else s.keys
  {
  }

  lemma EffectOfUpdate(w: World, s: State, e: Event)
    requires e.UpdateRow?
    ensures Next(w, s, e).keys == s.keys
    ensures Next(w, s, e).rows ==
            if e.id !in s.rows then s.rows
            else s.rows[e.id := Updated(s.rows[e.id], e.newServiceName, e.newUsername, PayloadOf(e.newItem))]
    ensures e.id in s.rows ==>
      Next(w, s, e).written == if e.newItem.Some? then s.written[e.id := e.newItem.value.plaintext] else s.written
  {
  }

  /** Everything that holds between two events. */
  ghost predicate Good(w: World, s: State) {
    Lawful(w) && Inv(w, s)
  }

  lemma NextStaysGood(w: World, s: State, e: Event)
    requires Good(w, s) && Possible(s, e)
    ensures Good(w, Next(w, s, e))
  {
    NextKeepsInv(w, s, e);
  }

  lemma CachedKeyIsRight(w: World, s: State, userId: string)
    requires Good(w, s) && userId in s.keys
    ensures userId in w.users && userId in w.passwords && s.keys[userId] == KeyOf(w, userId)
  {
  }

  lemma RowIsReadable(w: World, s: State, id: string)
    requires Good(w, s) && id in s.rows
    ensures id in s.written && Opens(w, s.rows[id].userId, s.rows[id].payload, s.written[id])
    ensures id in s.owners && s.owners[id] == s.rows[id].userId
  {
  }

  // ----- whole runs -----

  const START := State(map[], map[], map[], map[], {})

  function After(w: World, run: seq<Event>, n: nat): State
    requires n <= |run|
  {
    if n == 0 then START else Next(w, After(w, run, n - 1), run[n - 1])
  }

  predicate PossibleAt(w: World, run: seq<Event>, i: nat)
    requires i < |run|
  {
    Possible(After(w, run, i), run[i])
  }

  predicate PossibleRun(w: World, run: seq<Event>) {
    forall i :: 0 <= i < |run| ==> PossibleAt(w, run, i)
  }

  lemma {:induction false} RunKeepsInv(w: World, run: seq<Event>, n: nat)
    requires Lawful(w) && PossibleRun(w, run) && n <= |run|
    ensures Inv(w, After(w, run, n))
  {
    if n == 0 {
    } else {
      RunKeepsInv(w, run, n - 1);
      assert PossibleAt(w, run, n - 1);
      NextKeepsInv(w, After(w, run, n - 1), run[n - 1]);
    }
  }

  /** The password that an event stores in a row, if it does. */
  function Stored(e: Event, id: string): Option<string> {
    match e
    case InsertRow(i, _, _, item) => if i == id then Some(item.plaintext) else None
    case UpdateRow(i, _, _, _, Some(item)) => if i == id then Some(item.plaintext) else None
    case _ => None
  }

  /** The password that the first n events stored last in a row, read off the events alone. */
  function LastWritten(run: seq<Event>, n: nat, id: string): Option<string>
    requires n <= |run|
  {
    if n == 0 then None
    else if Stored(run[n - 1], id).Some? then Stored(run[n - 1], id)
    else LastWritten(run, n - 1, id)
  }

  lemma WrittenAfterOne(w: World, s: State, e: Event, id: string)
    requires Inv(w, s) && Possible(s, e) && id in Next(w, s, e).rows
    ensures id in Next(w, s, e).written
    ensures Stored(e, id).Some? ==> Next(w, s, e).written[id] == Stored(e, id).value
    ensures Stored(e, id).None? ==> id in s.rows && id in s.written && Next(w, s, e).written[id] == s.written[id]
  {
  }

  lemma {:induction false} WrittenIsLastWritten(w: World, run: seq<Event>, n: nat, id: string)
    requires Lawful(w) && PossibleRun(w, run) && n <= |run|
    requires id in After(w, run, n).rows
    ensures id in After(w, run, n).written && LastWritten(run, n, id) == Some(After(w, run, n).written[id])
  {
    RunKeepsInv(w, run, n - 1);
    assert PossibleAt(w, run, n - 1);
    WrittenAfterOne(w, After(w, run, n - 1), run[n - 1], id);
    if Stored(run[n - 1], id).None? {
      WrittenIsLastWritten(w, run, n - 1, id);
    }
  }

  /**
   * In every run, every stored credential decrypts, under the key of its owner's password and salt, to the
   * password stored last, whatever was locked and unlocked in between.
   */
  lemma EveryRowDecrypts(w: World, run: seq<Event>, n: nat, id: string)
    requires Lawful(w) && PossibleRun(w, run) && n <= |run|
    requires id in After(w, run, n).rows
    ensures var row := After(w, run, n).rows[id];
            && row.userId in w.users && row.userId in w.passwords
            && w.crypto.decrypt(row.payload, KeyOf(w, row.userId)) == LastWritten(run, n, id)
            && LastWritten(run, n, id).Some?
  {
    RunKeepsInv(w, run, n);
    assert RowOpens(w, After(w, run, n), id);
    WrittenIsLastWritten(w, run, n, id);
  }

  // ----- the names in the rows, which rows there are, and who is unlocked -----

  function GivenServiceName(e: Event, id: string): Option<string> {
    match e
    case InsertRow(i, serviceName, _, _) => if i == id then Some(serviceName) else None
    case UpdateRow(i, _, serviceName, _, _) => if i == id then serviceName else None
    case _ => None
  }

  function GivenUsername(e: Event, id: string): Option<string> {
    match e
    case InsertRow(i, _, username, _) => if i == id then Some(username) else None
    case UpdateRow(i, _, _, username, _) => if i == id then username else None
    case _ => None
  }

  /** The service name that the first n events gave a row last. */
  function LastServiceName(run: seq<Event>, n: nat, id: string): Option<string>
    requires n <= |run|
  {
    if n == 0 then None
    else if GivenServiceName(run[n - 1], id).Some? then GivenServiceName(run[n - 1], id)
    else LastServiceName(run, n - 1, id)
  }

  function LastUsername(run: seq<Event>, n: nat, id: string): Option<string>
    requires n <= |run|
  {
    if n == 0 then None
    else if GivenUsername(run[n - 1], id).Some? then GivenUsername(run[n - 1], id)
    else LastUsername(run, n - 1, id)
  }

  lemma RowAfterOne(w: World, s: State, e: Event, id: string)
    requires id in Next(w, s, e).rows
    ensures var row := Next(w, s, e).rows[id];
            if e.InsertRow? && e.id == id then row == Row(e.item.userId, e.serviceName, e.username, e.item.payload)
            else
              && id in s.rows && row.userId == s.rows[id].userId && e != DeleteRow(id)
              && row.serviceName == (var g := GivenServiceName(e, id); if g.Some? then g.value else s.rows[id].serviceName)
              && row.username == (var g := GivenUsername(e, id); if g.Some? then g.value else s.rows[id].username)
  {
  }

  /** In every run, a row's service name and username are the last ones given for it. */
  lemma {:induction false} NamesAreLastGiven(w: World, run: seq<Event>, n: nat, id: string)
    requires n <= |run| && id in After(w, run, n).rows
    ensures LastServiceName(run, n, id) == Some(After(w, run, n).rows[id].serviceName)
    ensures LastUsername(run, n, id) == Some(After(w, run, n).rows[id].username)
  {
    var e := run[n - 1];
    RowAfterOne(w, After(w, run, n - 1), e, id);
    if !(e.InsertRow? && e.id == id) {
      NamesAreLastGiven(w, run, n - 1, id);
    }
  }

  /** Event k inserts the row for this user, and no event before n deletes it. */
  predicate InsertedAndKept(run: seq<Event>, k: nat, n: nat, id: string, userId: string)
    requires k < n <= |run|
  {
    && run[k].InsertRow? && run[k].id == id && run[k].item.userId == userId
    && forall i :: k < i < n ==> run[i] != DeleteRow(id)
  }

  lemma {:induction false} RowWasInserted(w: World, run: seq<Event>, n: nat, id: string) returns (k: nat)
    requires n <= |run| && id in After(w, run, n).rows
    ensures k < n && InsertedAndKept(run, k, n, id, After(w, run, n).rows[id].userId)
  {
    var e := run[n - 1];
    RowAfterOne(w, After(w, run, n - 1), e, id);
    if e.InsertRow? && e.id == id {
      k := n - 1;
    } else {
      k := RowWasInserted(w, run, n - 1, id);
    }
  }

  lemma InsertedAfterOne(w: World, s: State, e: Event, id: string)
    requires id in s.owners
    ensures id in Next(w, s, e).owners
    ensures Possible(s, e) && id in s.rows && e != DeleteRow(id) ==>
      id in Next(w, s, e).rows && Next(w, s, e).rows[id].userId == s.rows[id].userId
  {
  }

  lemma {:induction false} InsertedRowStays(w: World, run: seq<Event>, k: nat, n: nat, id: string, userId: string)
    requires PossibleRun(w, run) && k < n <= |run| && InsertedAndKept(run, k, n, id, userId)
    ensures id in After(w, run, n).owners
    ensures id in After(w, run, n).rows && After(w, run, n).rows[id].userId == userId
    decreases n
  {
    assert PossibleAt(w, run, n - 1);
    if k < n - 1 {
      InsertedRowStays(w, run, k, n - 1, id, userId);
      InsertedAfterOne(w, After(w, run, n - 1), run[n - 1], id);
    }
  }

  /** Which rows a user has after any run: exactly those inserted for that user and not deleted since. */
  lemma RowsAreTheInsertedOnes(w: World, run: seq<Event>, n: nat, id: string, userId: string)
    requires PossibleRun(w, run) && n <= |run|
    ensures id in After(w, run, n).rows && After(w, run, n).rows[id].userId == userId
       <==> exists k :: 0 <= k < n && InsertedAndKept(run, k, n, id, userId)
  {
    forall k | 0 <= k < n && InsertedAndKept(run, k, n, id, userId)
      ensures id in After(w, run, n).rows && After(w, run, n).rows[id].userId == userId
    {
      InsertedRowStays(w, run, k, n, id, userId);
    }
    if id in After(w, run, n).rows {
      var k := RowWasInserted(w, run, n, id);
    }
  }

  /** Event k unlocks the vault of a known user with a password that is verified, and nothing locks it before n. */
  predicate UnlockedAndKept(w: World, run: seq<Event>, k: nat, n: nat, userId: string)
    requires k < n <= |run|
  {
    && run[k].Unlock? && run[k].userId == userId
    && userId in w.users && w.crypto.verify(run[k].password, w.users[userId].passwordHash)
    && forall i :: k < i < n ==> run[i] != Lock(userId)
  }

  lemma KeysAfterOne(w: World, s: State, e: Event, userId: string)
    ensures userId in Next(w, s, e).keys <==>
      || (userId in s.keys && e != Lock(userId))
      || (e.Unlock? && e.userId == userId && userId in w.users && w.crypto.verify(e.password, w.users[userId].passwordHash))
  {
  }

  /** Who is unlocked after any run: exactly the users who unlocked with a verified password and did not lock since. */
  lemma {:induction false} UnlockedExactly(w: World, run: seq<Event>, n: nat, userId: string)
    requires n <= |run|
    ensures userId in After(w, run, n).keys <==> exists k :: 0 <= k < n && UnlockedAndKept(w, run, k, n, userId)
  {
    if n == 0 {
    } else {
      UnlockedExactly(w, run, n - 1, userId);
      KeysAfterOne(w, After(w, run, n - 1), run[n - 1], userId);
      if userId in After(w, run, n - 1).keys && run[n - 1] != Lock(userId) {
        var k :| 0 <= k < n - 1 && UnlockedAndKept(w, run, k, n - 1, userId);
        assert UnlockedAndKept(w, run, k, n, userId);
      }
      forall k | 0 <= k < n && UnlockedAndKept(w, run, k, n, userId) ensures userId in After(w, run, n).keys {
        assert k < n - 1 ==> UnlockedAndKept(w, run, k, n - 1, userId);
      }
      assert UnlockedAndKept(w, run, n - 1, n, userId) <==>
             run[n - 1].Unlock? && run[n - 1].userId == userId && userId in w.users
             && w.crypto.verify(run[n - 1].password, w.users[userId].passwordHash);
    }
  }

  /** Whoever is unlocked has the right key: reading a row through the cache gives the password stored last. */
  lemma UnlockedOwnersCanRead(w: World, run: seq<Event>, n: nat, id: string)
    requires Lawful(w) && PossibleRun(w, run) && n <= |run|
    requires var s := After(w, run, n); id in s.rows && s.rows[id].userId in s.keys
    ensures var s := After(w, run, n);
            w.crypto.decrypt(s.rows[id].payload, s.keys[s.rows[id].userId]) == LastWritten(run, n, id)
  {
    RunKeepsInv(w, run, n);
    EveryRowDecrypts(w, run, n, id);
  }
}
