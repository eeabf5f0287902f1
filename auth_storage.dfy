/**
 * Clearing the identity provider's client state from the browser's two
 * key-value stores: first the six known keys, then every key carrying one
 * of the provider's two prefixes, each store swept over a snapshot of its
 * own keys.
 */
module AuthStorage {
  import opened Text

  /** A browser key-value store (`localStorage` or `sessionStorage`). */
  class Storage {
    var items: map<string, string>

    constructor(items: map<string, string>)
      ensures this.items == items
    {
      this.items := items;
    }

    /** Deletes the key; a missing key is ignored. */
    method RemoveItem(key: string)
      modifies this
      ensures items == old(items) - {key}
    {
      items := items - {key};
    }

    /** A snapshot of the store's keys, in some order. */
    method Keys() returns (keys: seq<string>)
      ensures forall k :: k in keys <==> k in items
    {
      keys := [];
      var rest := items.Keys;
      while rest != {}
        invariant rest <= items.Keys
        invariant forall k :: k in keys <==> k in items && k !in rest
        decreases |rest|
      {
        var k :| k in rest;
        keys := keys + [k];
        rest := rest - {k};
      }
    }
  }

  /** The keys removed by name before the sweeps. */
  const KeysToRemove: seq<string> := [
    "auth0.is.authenticated",
    "auth0.user",
    "auth0.access.token",
    "auth0.id.token",
    "auth0.refresh.token",
    "a0.spajs.txs"
  ]

  /** A key the provider's client library owns. */
  predicate IsAuthKey(key: string) {
    StartsWith(key, "auth0") || StartsWith(key, "a0.spajs")
  }

  /** The store without any of the provider's keys. */
  function StripAuth(m: map<string, string>): (r: map<string, string>)
    ensures forall k :: k in r ==> !IsAuthKey(k)
    ensures forall k :: k in m && !IsAuthKey(k) ==> k in r && r[k] == m[k]
    ensures forall k :: k in r ==> k in m
  {
    map k | k in m && !IsAuthKey(k) :: m[k]
  }

  /** Removes every key of `keys` that has one of the provider's prefixes. */
  method Sweep(store: Storage, keys: seq<string>)
    modifies store
    ensures forall k :: k in store.items <==> k in old(store.items) && !(IsAuthKey(k) && k in keys)
    ensures forall k :: k in store.items ==> store.items[k] == old(store.items)[k]
  {
    for i := 0 to |keys|
      invariant forall k :: k in store.items <==> k in old(store.items) && !(IsAuthKey(k) && k in keys[..i])
      invariant forall k :: k in store.items ==> store.items[k] == old(store.items)[k]
    {
      if IsAuthKey(keys[i]) {
        store.RemoveItem(keys[i]);
      }
      assert keys[..i + 1] == keys[..i] + [keys[i]];
    }
    assert keys[..|keys|] == keys;
  }

  /**
   * Afterwards each store is exactly what it was, less the provider's keys;
   * every other entry keeps its value.
   */
  method ClearAuth0State(local: Storage, session: Storage)
    requires local != session
    modifies local, session
    ensures local.items == StripAuth(old(local.items))
    ensures session.items == StripAuth(old(session.items))
  {
    for i := 0 to |KeysToRemove|
      invariant local.items == old(local.items) - set j | 0 <= j < i :: KeysToRemove[j]
      invariant session.items == old(session.items) - set j | 0 <= j < i :: KeysToRemove[j]
    {
      local.RemoveItem(KeysToRemove[i]);
      session.RemoveItem(KeysToRemove[i]);
      assert (set j | 0 <= j < i + 1 :: KeysToRemove[j]) == (set j | 0 <= j < i :: KeysToRemove[j]) + {KeysToRemove[i]};
    }
    ListedKeysAreAuthKeys();

    ghost var localMid := local.items;
    var localKeys := local.Keys();
    Sweep(local, localKeys);
    SweepStrips(old(local.items), localMid, local.items);

    ghost var sessionMid := session.items;
    var sessionKeys := session.Keys();
    Sweep(session, sessionKeys);
    SweepStrips(old(session.items), sessionMid, session.items);
  }

  /**
   * A store from which some of the provider's keys were removed, then swept
   * of every provider key it still held, equals the original store stripped.
   */
  lemma SweepStrips(original: map<string, string>, mid: map<string, string>, swept: map<string, string>)
    requires forall k :: k in mid ==> k in original && mid[k] == original[k]
    requires forall k :: k in original && !IsAuthKey(k) ==> k in mid
    requires forall k :: k in swept <==> k in mid && !IsAuthKey(k)
    requires forall k :: k in swept ==> swept[k] == mid[k]
    ensures swept == StripAuth(original)
  {
    assert swept.Keys == StripAuth(original).Keys;
  }

  /** Every key removed by name already carries one of the two prefixes. */
  lemma ListedKeysAreAuthKeys()
    ensures forall i :: 0 <= i < |KeysToRemove| ==> IsAuthKey(KeysToRemove[i])
  {
    assert StartsWith("auth0.is.authenticated", "auth0");
    assert StartsWith("auth0.user", "auth0");
    assert StartsWith("auth0.access.token", "auth0");
    assert StartsWith("auth0.id.token", "auth0");
    assert StartsWith("auth0.refresh.token", "auth0");
    assert StartsWith("a0.spajs.txs", "a0.spajs");
  }

  /** None of the six listed keys survives in a cleared store. */
  lemma ListedKeysGone(m: map<string, string>)
    ensures forall i :: 0 <= i < |KeysToRemove| ==> KeysToRemove[i] !in StripAuth(m)
  {
    ListedKeysAreAuthKeys();
  }

  /** Clearing a cleared store changes nothing. */
  lemma StripAuthIdempotent(m: map<string, string>)
    ensures StripAuth(StripAuth(m)) == StripAuth(m)
  {
    assert StripAuth(StripAuth(m)).Keys == StripAuth(m).Keys;
  }
}
