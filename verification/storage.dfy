/**
 * The extension's configuration store (`chrome.storage.sync`): default-filling reads,
 * merging writes, and the idempotent creation of the user identifier.
 *
 * The store holds the three fields of the configuration record (`apiBaseUrl`,
 * `sharedSecret`, `userIdentifier`) and the three authentication fields the evaluator reads
 * (`clerkToken`, `clerkUserId`, `clerkTokenExpiresAt`).
 */
module ExtensionStorage {
  import opened Wrappers
  import Text
  import Numbers

  /** A stored value: every key holds a string except the numeric token expiry. A value of
      the wrong kind for its key reads as absent. */
  datatype StoredValue = Str(s: string) | Num(n: int)

  type Store = map<string, StoredValue>

  const ApiBaseUrlKey: string := "apiBaseUrl"
  const SharedSecretKey: string := "sharedSecret"
  const UserIdentifierKey: string := "userIdentifier"
  const ClerkTokenKey: string := "clerkToken"
  const ClerkUserIdKey: string := "clerkUserId"
  const ClerkTokenExpiresAtKey: string := "clerkTokenExpiresAt"

  /** The keys cleared when authentication is dropped. */
  const AuthKeys: set<string> := {ClerkTokenKey, ClerkUserIdKey, ClerkTokenExpiresAtKey}

  const DefaultApiBaseUrl: string := "http://localhost:8080"

  /** The configuration as `getConfig` returns it. An expiry of 0 means "not set". */
  datatype Config = Config(
    apiBaseUrl: string,
    sharedSecret: string,
    userIdentifier: string,
    clerkToken: string,
    clerkUserId: string,
    clerkTokenExpiresAt: int)

  /** True when `key` holds a non-empty string, the only case JavaScript's `||` keeps. */
  predicate HasText(data: Store, key: string) {
    key in data && data[key].Str? && data[key].s != ""
  }

  /** `result[key] || default` for a string field. */
  function TextOr(data: Store, key: string, default: string): (v: string)
    ensures HasText(data, key) ==> v == data[key].s
    ensures !HasText(data, key) ==> v == default
  {
    if HasText(data, key) then data[key].s else default
  }

  /** A numeric field: a missing value reads as 0. */
  function NumberOrZero(data: Store, key: string): (v: int)
    ensures key in data && data[key].Num? ==> v == data[key].n
    ensures !(key in data && data[key].Num?) ==> v == 0
  {
    if key in data && data[key].Num? then data[key].n else 0
  }

  /** `getConfig`: every absent or empty field is replaced by its default, so the API base
      URL is never empty. */
  function ReadConfig(data: Store): (c: Config)
    ensures c.apiBaseUrl != ""
    ensures c.apiBaseUrl == (if HasText(data, ApiBaseUrlKey) then data[ApiBaseUrlKey].s else DefaultApiBaseUrl)
    ensures c.sharedSecret == (if HasText(data, SharedSecretKey) then data[SharedSecretKey].s else "")
    ensures c.userIdentifier == (if HasText(data, UserIdentifierKey) then data[UserIdentifierKey].s else "")
    ensures c.clerkToken == (if HasText(data, ClerkTokenKey) then data[ClerkTokenKey].s else "")
    ensures c.clerkUserId == (if HasText(data, ClerkUserIdKey) then data[ClerkUserIdKey].s else "")
  {
    Config(
      TextOr(data, ApiBaseUrlKey, DefaultApiBaseUrl),
      TextOr(data, SharedSecretKey, ""),
      TextOr(data, UserIdentifierKey, ""),
      TextOr(data, ClerkTokenKey, ""),
      TextOr(data, ClerkUserIdKey, ""),
      NumberOrZero(data, ClerkTokenExpiresAtKey))
  }

  /** The store after `clearAuthData`: the authentication keys are removed, nothing else. */
  function WithoutAuth(data: Store): (r: Store)
    ensures forall k :: k in r <==> k in data && k !in AuthKeys
    ensures forall k :: k in r ==> r[k] == data[k]
  {
    data - AuthKeys
  }

  /** Dropping authentication empties the three authentication fields and keeps the others. */
  lemma WithoutAuthReadsEmpty(data: Store)
    ensures ReadConfig(WithoutAuth(data)).clerkToken == ""
    ensures ReadConfig(WithoutAuth(data)).clerkUserId == ""
    ensures ReadConfig(WithoutAuth(data)).clerkTokenExpiresAt == 0
    ensures ReadConfig(WithoutAuth(data)).apiBaseUrl == ReadConfig(data).apiBaseUrl
    ensures ReadConfig(WithoutAuth(data)).sharedSecret == ReadConfig(data).sharedSecret
    ensures ReadConfig(WithoutAuth(data)).userIdentifier == ReadConfig(data).userIdentifier
  {
    var r := WithoutAuth(data);
    assert ClerkTokenKey !in r && ClerkUserIdKey !in r && ClerkTokenExpiresAtKey !in r;
    assert ApiBaseUrlKey !in AuthKeys && SharedSecretKey !in AuthKeys && UserIdentifierKey !in AuthKeys;
  }

  /** The identifier `ensureUserIdentifier` creates: `ext_<now>_<random>`, where `now` stands
      for `Date.now()` and `randomPart` for the base-36 digits taken from `Math.random()`. */
  function GeneratedIdentifier(now: nat, randomPart: string): (id: string)
    ensures Text.HasPrefix(id, "ext_")
  {
    "ext_" + Numbers.NatToString(now) + "_" + randomPart
  }

  /** What `ensureUserIdentifier` returns and the store it leaves behind. */
  datatype Ensured = Ensured(id: string, store: Store)

  /** `ensureUserIdentifier`: a stored identifier is returned with no write; otherwise a new
      `ext_` identifier is written under `userIdentifier`, and that same value is returned. */
  function EnsureIdentifier(data: Store, now: nat, randomPart: string): (r: Ensured)
    ensures r.id != ""
    ensures ReadConfig(r.store).userIdentifier == r.id
    ensures HasText(data, UserIdentifierKey) ==> r == Ensured(data[UserIdentifierKey].s, data)
    ensures !HasText(data, UserIdentifierKey) ==>
      Text.HasPrefix(r.id, "ext_") && r.store == data[UserIdentifierKey := Str(r.id)]
  {
    var current := ReadConfig(data).userIdentifier;
    if current != "" then Ensured(current, data)
    else
      var id := GeneratedIdentifier(now, randomPart);
      Ensured(id, data + map[UserIdentifierKey := Str(id)])
  }

  /** A second call returns the identifier of the first and writes nothing, whatever the
      clock and the random generator give the second time. */
  lemma EnsureIdentifierIdempotent(data: Store, now1: nat, random1: string, now2: nat, random2: string)
    ensures EnsureIdentifier(EnsureIdentifier(data, now1, random1).store, now2, random2)
         == EnsureIdentifier(data, now1, random1)
  {
    var first := EnsureIdentifier(data, now1, random1);
    assert HasText(first.store, UserIdentifierKey);
  }

  /** The `chrome.storage.sync` area the extension reads and writes. */
  class SyncStore {
    var data: Store

    constructor (initial: Store)
      ensures data == initial
    {
      data := initial;
    }

    /** `getConfig`: a read that changes nothing. */
    method GetConfig() returns (c: Config)
      ensures c == ReadConfig(data)
      ensures c.apiBaseUrl != ""
    {
      c := ReadConfig(data);
    }

    /** `saveConfig`: merges the given keys into the store; every other key keeps its value. */
    method SaveConfig(partial: Store)
      modifies this
      ensures data == old(data) + partial
      ensures forall k :: k in partial ==> k in data && data[k] == partial[k]
      ensures forall k :: k !in partial ==> (k in data <==> k in old(data))
      ensures forall k :: k !in partial && k in old(data) ==> data[k] == old(data)[k]
    {
      data := data + partial;
    }

    /** `clearAuthData`: removes the authentication keys. */
    method ClearAuthData()
      modifies this
      ensures data == WithoutAuth(old(data))
    {
      data := data - AuthKeys;
    }

    /** `ensureUserIdentifier`. */
    method EnsureUserIdentifier(now: nat, randomPart: string) returns (id: string)
      modifies this
      ensures Ensured(id, data) == EnsureIdentifier(old(data), now, randomPart)
      ensures id != "" && ReadConfig(data).userIdentifier == id
    {
      var config := GetConfig();
      if config.userIdentifier != "" {
        return config.userIdentifier;
      }
      id := GeneratedIdentifier(now, randomPart);
      SaveConfig(map[UserIdentifierKey := Str(id)]);
    }
  }
}
