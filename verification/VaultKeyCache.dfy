/** Derived vault keys of unlocked users. A buffer is overwritten with zeros, in place, before it is let go. */
module VaultKeyCache {
  import opened VaultState

  type Key = array<Byte>

  class VaultKeyCacheService {
    var keys: map<string, Key>
    /** Every buffer that was once in the cache and has left it. */
    ghost var retired: set<Key>

    /** No two users share a buffer, and nothing that left the cache holds key bytes any more. */
    ghost predicate Valid()
      reads this, keys.Values, retired
    {
      && (forall u, v :: u in keys && v in keys && u != v ==> keys[u] != keys[v])
      && (forall u :: u in keys ==> keys[u] !in retired)
      && (forall key, i :: key in retired && 0 <= i < key.Length ==> key[i] == 0)
    }

    /** The buffer of a user, if there is one. */
    ghost function BufferOf(userId: string): set<Key>
      reads this
    {
      if userId in keys then {keys[userId]} else {}
    }

    /** The key bytes of every unlocked user. */
    ghost function Bytes(): map<string, seq<Byte>>
      reads this, keys.Values
    {
      map u | u in keys :: keys[u][..]
    }

    constructor ()
      ensures Valid() && keys == map[] && retired == {} && Bytes() == map[]
    {
      keys, retired := map[], {};
    }

    method IsUnlocked(userId: string) returns (unlocked: bool)
      ensures unlocked <==> userId in keys
    {
      return userId in keys;
    }

    method GetKey(userId: string) returns (key: array?<Byte>)
      ensures key == null <==> userId !in keys
      ensures userId in keys ==> key == keys[userId]
    {
      if userId !in keys {
        return null;
      }
      return keys[userId];
    }

    method ClearKey(userId: string)
      requires Valid()
      modifies this, BufferOf(userId)
      ensures Valid() && keys == old(keys) - {userId} && retired == old(retired) + old(BufferOf(userId))
      ensures Bytes() == old(Bytes()) - {userId}
      ensures forall key :: key in old(BufferOf(userId)) ==> forall i :: 0 <= i < key.Length ==> key[i] == 0
    {
      if userId in keys {
        var key := keys[userId];
        for i := 0 to key.Length
          modifies key
          invariant forall j :: 0 <= j < i ==> key[j] == 0
        {
          key[i] := 0;
        }
        retired := retired + {key};
      }
      keys := keys - {userId};
    }

    /** The caller hands over a buffer of its own that is not, and was not, in the cache. */
    method SetKey(userId: string, key: Key)
      requires Valid() && key !in keys.Values && key !in retired
      modifies this, BufferOf(userId)
      ensures Valid() && keys == old(keys)[userId := key] && retired == old(retired) + old(BufferOf(userId))
      ensures Bytes() == old(Bytes())[userId := key[..]] && key[..] == old(key[..])
    {
      ClearKey(userId);
      AddKey(userId, key);
    }

    method AddKey(userId: string, key: Key)
      requires Valid() && userId !in keys && key !in keys.Values && key !in retired
      modifies this`keys
      ensures Valid() && keys == old(keys)[userId := key]
      ensures Bytes() == old(Bytes())[userId := key[..]]
    {
      keys := keys[userId := key];
    }
  }
}
