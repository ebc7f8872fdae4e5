/**
 * The key-pair resolution pipeline of the key manager, as functions of the
 * keychain contents: the one-slot cache (`E2EE.keyPair`), then the keychain
 * (`E2EE.getKeyPair`), then creation and persistence
 * (`E2EE.createNewKeyPair`). The stateful methods of `KeyManager.E2EE` are
 * specified by these functions, and the lemmas here state what the
 * pipeline guarantees across calls.
 */
module KeyResolution {
  import opened Results
  import opened Base64
  import opened Cipher
  import opened Keychain

  /** What the collaborators do during one resolution: whether the keychain
      read throws for a reason other than a missing item, what
      `Cipher.getKeyPair()` produces, and whether the keychain insert throws. */
  datatype Env = Env(readFault: Option<Error>, generated: Result<PrivKey>, insertFault: Option<Error>)

  /** A result together with the keychain contents afterwards. */
  datatype Step = Step(result: Result<KeyPair>, items: Items)

  /** In addition, the cache slot afterwards. */
  datatype CacheStep = CacheStep(result: Result<KeyPair>, cache: Option<KeyPair>, items: Items)

  datatype PubKeyStep = PubKeyStep(result: Result<string>, cache: Option<KeyPair>, items: Items)

  /** `E2EE.createNewKeyPair(keyQuery:)`: the pair the library generates,
      with its private key's raw bytes inserted under the query. */
  function CreateNewKeyPairStep(c: Provider, items: Items, q: KeyQuery, generated: Result<PrivKey>, insertFault: Option<Error>): (s: Step)
    ensures s.result.Success? <==> generated.Success? && insertFault.None?
    ensures s.result.Success? ==> s.result.value == PairOf(c, generated.value)
    ensures s.result.Success? ==> s.items == items[Id(q) := Blob(generated.value.raw)]
    ensures generated.Failure? ==> s == Step(Failure(generated.error), items)
    ensures generated.Success? && insertFault.Some? ==> s == Step(Failure(insertFault.value), items)
  {
    match generated
    case Failure(e) => Step(Failure(e), items)
    case Success(priv) =>
      var keyPair := PairOf(c, priv);
      match insertFault
      case Some(e) => Step(Failure(e), items)
      case None => Step(Success(keyPair), InsertItem(items, priv.raw, q, None))
  }

  /** The closure in `E2EE.getKeyPair`: the bytes of a successful read that
      returned `Data`, and nothing for a failed read or any other object. */
  function KeyData(read: Result<Item>): (r: Option<Bytes>)
    ensures r.Some? <==> read.Success? && read.value.Blob?
    ensures r.Some? ==> r.value == read.value.data
  {
    match read
    case Failure(_) => None
    case Success(Foreign(_)) => None
    case Success(Blob(data)) => Some(data)
  }

  /** `E2EE.getKeyPair(keyName:service:)`. */
  function GetKeyPairStep(c: Provider, items: Items, keyName: string, service: string, env: Env): (s: Step)
    ensures s.result.Success? ==> Consistent(c, s.result.value)
  {
    var q := GetKeyQuery(keyName, service);
    match KeyData(ReadItem(items, q, env.readFault))
    case None => CreateNewKeyPairStep(c, items, q, env.generated, env.insertFault)
    case Some(data) =>
      match c.privKeyFromRaw(data)
      case Failure(e) => Step(Failure(e), items)
      case Success(privKey) => Step(Success(KeyPair(privKey, c.publicKey(privKey))), items)
  }

  /** `E2EE.keyPair(key:service:)`: the cached pair if there is one, and
      otherwise the resolved pair, which then fills the cache. */
  function KeyPairStep(c: Provider, cache: Option<KeyPair>, items: Items, key: string, service: string, env: Env): (t: CacheStep)
    ensures t.result.Success? ==> t.cache == Some(t.result.value)
    ensures t.result.Failure? ==> cache.None? && t.cache.None?
    ensures cache.Some? ==> t.result == Success(cache.value)
  {
    match cache
    case Some(keyPair) => CacheStep(Success(keyPair), cache, items)
    case None =>
      var s := GetKeyPairStep(c, items, key, service, env);
      CacheStep(s.result, if s.result.Success? then Some(s.result.value) else None, s.items)
  }

  /** `E2EE.getPubKey(keyName:service:)`. */
  function GetPubKeyStep(c: Provider, cache: Option<KeyPair>, items: Items, keyName: string, service: string, env: Env): (p: PubKeyStep)
    ensures p.result.Success? ==> p.cache.Some? && p.result == c.exportPubKey(p.cache.value.pub)
    ensures var t := KeyPairStep(c, cache, items, keyName, service, env); p.cache == t.cache && p.items == t.items
  {
    var s := KeyPairStep(c, cache, items, keyName, service, env);
    match s.result
    case Failure(e) => PubKeyStep(Failure(e), s.cache, s.items)
    case Success(keyPair) => PubKeyStep(c.exportPubKey(keyPair.pub), s.cache, s.items)
  }

  // ---- the keychain pipeline

  predicate HoldsData(items: Items, keyName: string, service: string) {
    (keyName, service) in items && items[(keyName, service)].Blob?
  }

  /** Bytes found in the keychain are used and the keychain is left alone; a
      pair is built from exactly those bytes, or, when they are not a valid
      private key, the error is returned and no new key is generated. */
  lemma StoredKeyIsUsed(c: Provider, items: Items, keyName: string, service: string, env: Env)
    requires Lawful(c)
    requires env.readFault.None? && HoldsData(items, keyName, service)
    ensures var s := GetKeyPairStep(c, items, keyName, service, env);
      var data := items[(keyName, service)].data;
      && s.items == items
      && (c.privKeyFromRaw(data).Success? ==>
            s.result == Success(KeyPair(PrivKey(data), c.publicKey(PrivKey(data)))))
      && (c.privKeyFromRaw(data).Failure? ==> s.result == Failure(c.privKeyFromRaw(data).error))
  {
  }

  /** A missing item, a read that throws and a non-`Data` object all lead to
      a new key pair; no error from the read is ever returned. */
  lemma AbsentKeyIsCreated(c: Provider, items: Items, keyName: string, service: string, env: Env)
    requires env.readFault.Some? || !HoldsData(items, keyName, service)
    ensures GetKeyPairStep(c, items, keyName, service, env) ==
      CreateNewKeyPairStep(c, items, GetKeyQuery(keyName, service), env.generated, env.insertFault)
    ensures var s := GetKeyPairStep(c, items, keyName, service, env);
      s.result.Failure? ==>
        (env.generated.Failure? && s.result.error == env.generated.error) ||
        (env.insertFault.Some? && s.result.error == env.insertFault.value)
  {
  }

  /** Only the entry of the resolved identity can change, and it changes only
      by receiving the raw bytes of the returned private key. */
  lemma GetKeyPairFrame(c: Provider, items: Items, keyName: string, service: string, env: Env)
    ensures var s := GetKeyPairStep(c, items, keyName, service, env);
      && (forall id :: id != (keyName, service) ==> (id in s.items <==> id in items) && (id in s.items ==> s.items[id] == items[id]))
      && (s.items != items ==> s.result.Success? && s.items == items[(keyName, service) := Blob(s.result.value.priv.raw)])
  {
  }

  /** Persistence stability: once a resolution succeeds, resolving the same
      identity again from the resulting keychain (say, in a new process with
      an empty cache) gives the same pair, provided that read does not fail
      and that a freshly generated key is accepted back from its raw bytes. */
  lemma PersistedKeyIsStable(c: Provider, items: Items, keyName: string, service: string, env: Env, later: Env)
    requires env.generated.Success? ==> Restorable(c, env.generated.value)
    requires GetKeyPairStep(c, items, keyName, service, env).result.Success?
    requires later.readFault.None?
    ensures var s := GetKeyPairStep(c, items, keyName, service, env);
      GetKeyPairStep(c, s.items, keyName, service, later) == Step(s.result, s.items)
  {
    var q := GetKeyQuery(keyName, service);
    if KeyData(ReadItem(items, q, env.readFault)).None? {
      var priv := env.generated.value;
      var s := GetKeyPairStep(c, items, keyName, service, env);
      assert s.items[Id(q)] == Blob(priv.raw);
      assert KeyData(ReadItem(s.items, q, later.readFault)) == Some(priv.raw);
    }
  }

  /** Because a failed read is taken for a missing item, a transient read
      failure replaces a persisted key by a new one: the returned private key
      differs from the one that was stored, and the stored bytes are gone. */
  lemma ReadFailureReplacesStoredKey(c: Provider, items: Items, keyName: string, service: string, env: Env, stored: Bytes)
    requires (keyName, service) in items && items[(keyName, service)] == Blob(stored)
    requires env.readFault.Some? && env.generated.Success? && env.insertFault.None?
    requires env.generated.value.raw != stored
    ensures var s := GetKeyPairStep(c, items, keyName, service, env);
      && s.result.Success? && s.result.value.priv.raw != stored
      && s.items[(keyName, service)] == Blob(env.generated.value.raw)
  {
  }

  // ---- the cache

  /** Once the cache holds a pair, that pair is returned whatever identity is
      asked for, and neither the cache nor the keychain is touched. */
  lemma CachedPairIgnoresIdentity(c: Provider, keyPair: KeyPair, items: Items, key: string, service: string, env: Env)
    ensures KeyPairStep(c, Some(keyPair), items, key, service, env) == CacheStep(Success(keyPair), Some(keyPair), items)
  {
  }

  /** With an empty cache, the result and the keychain are those of the
      resolution; the cache is filled with the pair on success and stays
      empty when the resolution throws. */
  lemma EmptyCacheResolves(c: Provider, items: Items, key: string, service: string, env: Env)
    ensures var s := GetKeyPairStep(c, items, key, service, env);
      var t := KeyPairStep(c, None, items, key, service, env);
      && t.result == s.result && t.items == s.items
      && (t.result.Success? ==> t.cache == Some(t.result.value))
      && (t.result.Failure? ==> t.cache.None?)
  {
  }

  /** Two successive calls return the same pair, even for different
      identities and whatever the collaborators do on the second call; the
      second call changes nothing. */
  lemma KeyPairIsIdempotent(c: Provider, cache: Option<KeyPair>, items: Items,
                            key1: string, service1: string, env1: Env,
                            key2: string, service2: string, env2: Env)
    requires KeyPairStep(c, cache, items, key1, service1, env1).result.Success?
    ensures var t1 := KeyPairStep(c, cache, items, key1, service1, env1);
      KeyPairStep(c, t1.cache, t1.items, key2, service2, env2) == t1
  {
  }

  /** The cache only ever holds a pair whose public key is the projection of
      its private key. */
  lemma CacheStaysConsistent(c: Provider, cache: Option<KeyPair>, items: Items, key: string, service: string, env: Env)
    requires cache.Some? ==> Consistent(c, cache.value)
    ensures var t := KeyPairStep(c, cache, items, key, service, env);
      && (t.cache.Some? ==> Consistent(c, t.cache.value))
      && (t.result.Success? ==> Consistent(c, t.result.value))
  {
  }

  /** `getPubKey` exports the public half of whatever `keyPair` returns, so
      with a filled cache it ignores the identity asked for. */
  lemma PubKeyFollowsCache(c: Provider, keyPair: KeyPair, items: Items, keyName: string, service: string, env: Env)
    ensures GetPubKeyStep(c, Some(keyPair), items, keyName, service, env) ==
      PubKeyStep(c.exportPubKey(keyPair.pub), Some(keyPair), items)
  {
  }

  /** Export failures propagate, but the cache has been filled by then. */
  lemma PubKeyFillsCache(c: Provider, items: Items, keyName: string, service: string, env: Env)
    ensures var t := KeyPairStep(c, None, items, keyName, service, env);
      var p := GetPubKeyStep(c, None, items, keyName, service, env);
      && p.cache == t.cache && p.items == t.items
      && (t.result.Failure? ==> p.result == Failure(t.result.error))
      && (t.result.Success? ==> p.result == c.exportPubKey(t.result.value.pub))
  {
  }
}
