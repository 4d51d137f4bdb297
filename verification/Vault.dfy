/** The vault service over real key buffers; each of its steps is one event of the vault as a state machine. */
module Vault {
  import opened Wrappers
  import opened VaultState
  import opened VaultKeyCache

  datatype VaultError = InvalidPassword | VaultLocked | CredentialNotFound | Undecryptable

  class VaultService {
    const crypto: Crypto
    const users: map<string, User>
    const trim: string -> string
    const cache: VaultKeyCacheService
    var rows: map<string, Row>
    ghost const passwords: map<string, string>
    /** The vault as the state machine sees it. */
    ghost var state: State

    ghost function Setting(): World {
      World(crypto, users, passwords)
    }

    ghost predicate Valid()
      reads this, cache, cache.keys.Values, cache.retired
    {
      && cache.Valid()
      && state.keys == cache.Bytes()
      && state.rows == rows
      && Good(Setting(), state)
    }

    constructor (crypto: Crypto, users: map<string, User>, trim: string -> string, ghost passwords: map<string, string>)
      requires Lawful(World(crypto, users, passwords))
      ensures Valid() && state == START && Setting() == World(crypto, users, passwords) && fresh(cache)
    {
      this.crypto, this.users, this.trim, this.passwords := crypto, users, trim, passwords;
      rows, state := map[], START;
      cache := new VaultKeyCacheService();
    }

    /** Puts the derived key into a buffer of its own. */
    method DeriveVaultKey(password: string, kdfSalt: string) returns (key: Key)
      ensures fresh(key) && key[..] == crypto.derive(password, kdfSalt)
    {
      var bytes := crypto.derive(password, kdfSalt);
      key := new Byte[|bytes|](i requires 0 <= i < |bytes| => bytes[i]);
    }

    // ----- steps without a wait -----

    method Unlock(userId: string, password: string) returns (r: Result<(), VaultError>)
      requires Valid()
      modifies this`state, cache, cache.BufferOf(userId)
      ensures Valid() && state == Next(Setting(), old(state), Event.Unlock(userId, password))
      ensures r.Ok? <==> userId in users && crypto.verify(password, users[userId].passwordHash)
      ensures r.Err? ==> r == Err(InvalidPassword)
      ensures rows == old(rows)
      ensures r.Ok? ==> userId in cache.keys && cache.keys[userId][..] == crypto.derive(password, users[userId].kdfSalt)
    {
      if userId !in users {
        return Err(InvalidPassword);
      }
      var dbUser := users[userId];
      if !crypto.verify(password, dbUser.passwordHash) {
        return Err(InvalidPassword);
      }
      var vaultKey := DeriveVaultKey(password, dbUser.kdfSalt);
      StoreKey(userId, vaultKey, password);
      return Ok(());
    }

    /** Hands a derived key over to the cache. */
    method StoreKey(userId: string, vaultKey: Key, ghost password: string)
      requires Valid() && Unlocks(Setting(), userId, password)
      requires vaultKey[..] == crypto.derive(password, users[userId].kdfSalt)
      requires vaultKey !in cache.keys.Values && vaultKey !in cache.retired
      modifies this`state, cache, cache.BufferOf(userId)
      ensures Valid() && state == Next(Setting(), old(state), Event.Unlock(userId, password))
    {
      NextStaysGood(Setting(), state, Event.Unlock(userId, password));
      EffectOfUnlock(Setting(), state, userId, password);
      cache.SetKey(userId, vaultKey);
      state := Next(Setting(), state, Event.Unlock(userId, password));
    }

    method Lock(userId: string)
      requires Valid()
      modifies this`state, cache, cache.BufferOf(userId)
      ensures Valid() && state == Next(Setting(), old(state), Event.Lock(userId))
      ensures userId !in cache.keys
    {
      NextStaysGood(Setting(), state, Event.Lock(userId));
      EffectOfLock(Setting(), state, userId);
      ghost var after := Next(Setting(), state, Event.Lock(userId));
      cache.ClearKey(userId);
      assert cache.Bytes() == after.keys;
      state := after;
    }

    method RequireVaultKey(userId: string) returns (r: Result<Key, VaultError>)
      ensures r == if userId in cache.keys then Ok(cache.keys[userId]) else Err(VaultLocked)
    {
      var key := cache.GetKey(userId);
      if key == null {
        return Err(VaultLocked);
      }
      return Ok(key);
    }

    /** Encrypts with a fresh initialisation vector; the key was looked up just before, without a wait in between. */
    method Encrypt(userId: string, vaultKey: Key, plaintext: string, iv: string) returns (payload: Payload)
      requires Valid() && userId in cache.keys && vaultKey == cache.keys[userId]
      modifies this`state
      ensures Valid() && state == Next(Setting(), old(state), Event.Encrypt(userId, plaintext, iv))
      ensures Sealed(userId, payload, plaintext) in state.encrypted
    {
      NextStaysGood(Setting(), state, Event.Encrypt(userId, plaintext, iv));
      payload := crypto.encrypt(plaintext, vaultKey[..], iv);
      state := Next(Setting(), state, Event.Encrypt(userId, plaintext, iv));
    }

    method InsertRow(id: string, serviceName: string, username: string, userId: string, payload: Payload, ghost plaintext: string)
      requires Valid() && id !in state.owners && Sealed(userId, payload, plaintext) in state.encrypted
      modifies this`rows, this`state
      ensures Valid()
      ensures state == Next(Setting(), old(state), Event.InsertRow(id, serviceName, username, Sealed(userId, payload, plaintext)))
    {
      ghost var e := Event.InsertRow(id, serviceName, username, Sealed(userId, payload, plaintext));
      NextStaysGood(Setting(), state, e);
      rows := rows[id := Row(userId, serviceName, username, payload)];
      state := Next(Setting(), state, e);
    }

    method FindOwned(userId: string, id: string) returns (r: Result<Row, VaultError>)
      requires Valid()
      ensures r == if Owns(userId, id, rows) then Ok(rows[id]) else Err(CredentialNotFound)
    {
      if Owns(userId, id, rows) {
        return Ok(rows[id]);
      }
      return Err(CredentialNotFound);
    }

    /** Looks up the key and decrypts at once a row that was found before, maybe long before. */
    method DecryptRow(userId: string, row: Row, ghost plaintext: string) returns (r: Result<string, VaultError>)
      requires Valid() && Opens(Setting(), userId, row.payload, plaintext)
      ensures r == if userId in cache.keys then Ok(plaintext) else Err(VaultLocked)
    {
      var vaultKey :- RequireVaultKey(userId);
      CachedKeyIsRight(Setting(), state, userId);
      match crypto.decrypt(row.payload, vaultKey[..])
      case Some(password) => return Ok(password);
      case None => return Err(Undecryptable);
    }

    /** Changes what is given; without a new password the stored encryption stays as it is. */
    method UpdateRow(id: string, userId: string, serviceName: Option<string>, username: Option<string>, payload: Option<Payload>,
                     ghost newItem: Option<Sealed>)
      requires Valid() && Possible(state, Event.UpdateRow(id, userId, serviceName, username, newItem))
      requires payload == PayloadOf(newItem)
      modifies this`rows, this`state
      ensures Valid() && state == Next(Setting(), old(state), Event.UpdateRow(id, userId, serviceName, username, newItem))
    {
      ghost var e := Event.UpdateRow(id, userId, serviceName, username, newItem);
      NextStaysGood(Setting(), state, e);
      EffectOfUpdate(Setting(), state, e);
      rows := if id in rows then rows[id := Updated(rows[id], serviceName, username, payload)] else rows;
      state := Next(Setting(), state, e);
    }

    method DeleteRow(id: string)
      requires Valid()
      modifies this`rows, this`state
      ensures Valid() && state == Next(Setting(), old(state), Event.DeleteRow(id))
    {
      NextStaysGood(Setting(), state, Event.DeleteRow(id));
      rows := rows - {id};
      state := Next(Setting(), state, Event.DeleteRow(id));
    }

    // ----- whole requests, when nothing comes in between -----

    method CreateCredential(userId: string, serviceName: string, username: string, password: string, id: string, iv: string)
      returns (r: Result<(), VaultError>)
      requires Valid() && id !in state.owners
      modifies this`rows, this`state
      ensures Valid()
      ensures r == if userId in cache.keys then Ok(()) else Err(VaultLocked)
      ensures r.Err? ==> rows == old(rows) && state.written == old(state.written)
      ensures r.Ok? ==> id in rows && state.written == old(state.written)[id := password]
      ensures r.Ok? ==> rows == old(rows)[id := rows[id]] && rows[id].userId == userId
      ensures r.Ok? ==> rows[id].serviceName == trim(serviceName) && rows[id].username == trim(username)
    {
      var vaultKey :- RequireVaultKey(userId);
      var sealed := Encrypt(userId, vaultKey, password, iv);
      InsertRow(id, trim(serviceName), trim(username), userId, sealed, password);
      return Ok(());
    }

    method GetCredential(userId: string, id: string) returns (r: Result<string, VaultError>)
      requires Valid()
      ensures r == Err(CredentialNotFound) <==> !Owns(userId, id, rows)
      ensures r == Err(VaultLocked) <==> Owns(userId, id, rows) && userId !in cache.keys
      ensures r.Ok? <==> Owns(userId, id, rows) && userId in cache.keys
      ensures r.Ok? ==> StoredPassword(id) == Some(r.value)
    {
      var row :- FindOwned(userId, id);
      RowIsReadable(Setting(), state, id);
      r := DecryptRow(userId, row, state.written[id]);
    }

    method UpdateCredential(userId: string, id: string, serviceName: Option<string>, username: Option<string>,
                            password: Option<string>, iv: string)
      returns (r: Result<(), VaultError>)
      requires Valid()
      modifies this`rows, this`state
      ensures Valid()
      ensures r == if !Owns(userId, id, old(rows)) then Err(CredentialNotFound)
                   else if userId !in cache.keys then Err(VaultLocked)
                   else Ok(())
      ensures r.Err? ==> rows == old(rows) && state.written == old(state.written)
      ensures r.Ok? ==>
        && id in rows
        && var newPayload := if password.Some? then Some(rows[id].payload) else None;
           rows == old(rows)[id := Updated(old(rows)[id], Trimmed(serviceName), Trimmed(username), newPayload)]
      ensures r.Ok? ==> rows[id].serviceName == if serviceName.Some? then trim(serviceName.value) else old(rows)[id].serviceName
      ensures r.Ok? ==> rows[id].username == if username.Some? then trim(username.value) else old(rows)[id].username
      ensures r.Ok? ==> rows[id].userId == userId && (password.None? ==> rows[id].payload == old(rows)[id].payload)
      ensures r.Ok? ==>
        state.written == if password.Some? then old(state.written)[id := password.value] else old(state.written)
    {
      var existing :- FindOwned(userId, id);
      var vaultKey :- RequireVaultKey(userId);
      RowIsReadable(Setting(), state, id);
      ghost var newItem;
      var payload;
      payload, newItem := EncryptIfGiven(userId, vaultKey, password, iv);
      EffectOfUpdate(Setting(), state, Event.UpdateRow(id, userId, Trimmed(serviceName), Trimmed(username), newItem));
      UpdateRow(id, userId, Trimmed(serviceName), Trimmed(username), payload, newItem);
      return Ok(());
    }

    method EncryptIfGiven(userId: string, vaultKey: Key, password: Option<string>, iv: string)
      returns (payload: Option<Payload>, ghost newItem: Option<Sealed>)
      requires Valid() && userId in cache.keys && vaultKey == cache.keys[userId]
      modifies this`state
      ensures Valid() && state.written == old(state.written) && state.owners == old(state.owners)
      ensures payload == PayloadOf(newItem) && (newItem.Some? <==> password.Some?)
      ensures newItem.Some? ==>
        newItem.value in state.encrypted && newItem.value.userId == userId && newItem.value.plaintext == password.value
    {
      if password.None? {
        return None, None;
      }
      var p := Encrypt(userId, vaultKey, password.value, iv);
      return Some(p), Some(Sealed(userId, p, password.value));
    }

    method DeleteCredential(userId: string, id: string) returns (r: Result<(), VaultError>)
      requires Valid()
      modifies this`rows, this`state
      ensures Valid()
      ensures r == if Owns(userId, id, old(rows)) then Ok(()) else Err(CredentialNotFound)
      ensures rows == if r.Ok? then old(rows) - {id} else old(rows)
    {
      var existing :- FindOwned(userId, id);
      DeleteRow(id);
      return Ok(());
    }

    predicate Owns(userId: string, id: string, rows: map<string, Row>) {
      id in rows && rows[id].userId == userId
    }

    function Trimmed(text: Option<string>): Option<string> {
      if text.Some? then Some(trim(text.value)) else None
    }

    ghost function StoredPassword(id: string): Option<string>
      reads this
    {
      if id in state.written then Some(state.written[id]) else None
    }
  }
}
