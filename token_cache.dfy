/**
 * The key-value cache that records live token pairs (the Redis client used by
 * app/api/endpoints/auth/service.py and app/api/deps.py). A key is a token, its
 * value the paired token, and each entry keeps the time-to-live it was stored
 * with, in seconds; expiry of entries by the cache itself is not modelled.
 */
module TokenCache {
  import opened Wrappers
  import opened Security

  datatype Entry = Entry(value: Token, ttl: int)

  /** The entries after storing a pair: access maps to refresh, refresh maps to access. */
  function Stored(m: map<Token, Entry>, access: Token, refresh: Token, accessTtl: int, refreshTtl: int): map<Token, Entry> {
    m[access := Entry(refresh, accessTtl)][refresh := Entry(access, refreshTtl)]
  }

  /** The entries after revoking `access`: the key itself and the token it points to are gone. */
  function Revoked(m: map<Token, Entry>, access: Token): map<Token, Entry> {
    if access in m then m - {access, m[access].value} else m
  }

  /** After a pair is stored, each of its two tokens is live and points at the other. */
  lemma StoredPairIsLive(m: map<Token, Entry>, a: Token, r: Token, at: int, rt: int)
    requires a != r
    ensures var s := Stored(m, a, r, at, rt);
      a in s && r in s && s[a] == Entry(r, at) && s[r] == Entry(a, rt)
    ensures forall k :: k != a && k != r ==> (k in Stored(m, a, r, at, rt) <==> k in m)
  {
  }

  /** Storing a pair and then revoking its access token leaves neither token live, and every other key as it was. */
  lemma StoreThenRevoke(m: map<Token, Entry>, a: Token, r: Token, at: int, rt: int)
    ensures var s := Revoked(Stored(m, a, r, at, rt), a);
      a !in s && r !in s && forall k :: k != a && k != r ==> (k in s <==> k in m) && (k in s ==> s[k] == m[k])
  {
  }

  /** Revoking twice has the effect of revoking once. */
  lemma RevokeIdempotent(m: map<Token, Entry>, a: Token)
    ensures Revoked(Revoked(m, a), a) == Revoked(m, a)
  {
  }

  /** The cache service. */
  class RedisCache {
    var entries: map<Token, Entry>

    constructor ()
      ensures entries == map[]
    {
      entries := map[];
    }

    /** `get`: the stored value, or None for a missing key. */
    function Get(key: Token): (r: Option<Token>)
      reads this
      ensures r.Some? <==> key in entries
      ensures r.Some? ==> r.value == entries[key].value
    {
      if key in entries then Some(entries[key].value) else None
    }

    /** `set(key, value, ttl)`. */
    method Set(key: Token, value: Token, ttl: int)
      modifies this
      ensures entries == old(entries)[key := Entry(value, ttl)]
    {
      entries := entries[key := Entry(value, ttl)];
    }

    /** `delete(key)`: removing a missing key is a no-op. */
    method Delete(key: Token)
      modifies this
      ensures entries == old(entries) - {key}
    {
      entries := entries - {key};
    }
  }
}
