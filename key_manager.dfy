/**
 * The key manager: the static state and the static methods of the `E2EE`
 * class. The process-wide cache `E2EE._keyPair` is a field of one `E2EE`
 * object; the keychain and the cipher library are given to it when it is
 * created.
 */
module KeyManager {
  import opened Results
  import opened Base64
  import opened Cipher
  import opened Keychain
  import opened KeyResolution

  class E2EE {
    /** `E2EE._keyPair`, the one cache slot of the process. */
    var keyPairCache: Option<KeyPair>
    const cipher: Provider
    const keychain: Keychain

    constructor(cipher: Provider, keychain: Keychain)
      ensures this.cipher == cipher && this.keychain == keychain
      ensures keyPairCache.None?
    {
      this.cipher := cipher;
      this.keychain := keychain;
      keyPairCache := None;
    }

    /** `E2EE.createNewKeyPair(keyQuery:)`: generates a pair and persists its
        private key; changes the keychain and nothing else. */
    method CreateNewKeyPair(q: KeyQuery, generated: Result<PrivKey>, insertFault: Option<Error>) returns (r: Result<KeyPair>)
      modifies keychain
      ensures Step(r, keychain.items) == CreateNewKeyPairStep(cipher, old(keychain.items), q, generated, insertFault)
    {
      var priv :- generated;
      var keyPair := PairOf(cipher, priv);
      var inserted := keychain.Insert(priv.raw, q, insertFault);
      if inserted.Fail? {
        return Failure(inserted.error);
      }
      return Success(keyPair);
    }

    /** `E2EE.getKeyPair(keyName:service:)`: reads the keychain, and creates
        a new pair when the read yields no `Data`; the cache is not touched. */
    method GetKeyPair(keyName: string, service: string, env: Env) returns (r: Result<KeyPair>)
      modifies keychain
      ensures Step(r, keychain.items) == GetKeyPairStep(cipher, old(keychain.items), keyName, service, env)
    {
      var q := GetKeyQuery(keyName, service);
      var read := keychain.Read(q, env.readFault);
      var keyData := KeyData(read);
      if keyData.None? {
        r := CreateNewKeyPair(q, env.generated, env.insertFault);
        return;
      }
      var privKey :- cipher.privKeyFromRaw(keyData.value);
      return Success(KeyPair(privKey, cipher.publicKey(privKey)));
    }

    /** `E2EE.keyPair(key:service:)`: the cached pair, or the resolved pair,
        which is then cached. */
    method KeyPairFor(key: string, service: string, env: Env) returns (r: Result<KeyPair>)
      modifies this, keychain
      ensures CacheStep(r, keyPairCache, keychain.items) ==
        KeyPairStep(cipher, old(keyPairCache), old(keychain.items), key, service, env)
    {
      if keyPairCache.Some? {
        return Success(keyPairCache.value);
      }
      var keyPair :- GetKeyPair(key, service, env);
      if keyPairCache.None? {
        keyPairCache := Some(keyPair);
      }
      return Success(keyPair);
    }

    /** `E2EE.getPubKey(keyName:service:)`: the exported public key of
        `keyPair(key:service:)`. */
    method GetPubKey(keyName: string, service: string, env: Env) returns (r: Result<string>)
      modifies this, keychain
      ensures PubKeyStep(r, keyPairCache, keychain.items) ==
        GetPubKeyStep(cipher, old(keyPairCache), old(keychain.items), keyName, service, env)
    {
      var keyPair :- KeyPairFor(keyName, service, env);
      r := cipher.exportPubKey(keyPair.pub);
    }
  }

  /** A caller's view of the cache: once one call succeeds, a second call
      for any identity returns the same pair and leaves the keychain alone. */
  method ResolveTwice(m: E2EE, key1: string, service1: string, env1: Env, key2: string, service2: string, env2: Env)
    returns (first: Result<KeyPair>, second: Result<KeyPair>)
    modifies m, m.keychain
    ensures first.Success? ==> second == first && m.keyPairCache == Some(first.value)
    ensures first.Success? ==>
      m.keychain.items == KeyPairStep(m.cipher, old(m.keyPairCache), old(m.keychain.items), key1, service1, env1).items
  {
    first := m.KeyPairFor(key1, service1, env1);
    second := m.KeyPairFor(key2, service2, env2);
  }
}
