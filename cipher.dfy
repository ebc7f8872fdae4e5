/**
 * The cipher library (`Cipher`, over CryptoKit) as the key manager and the
 * confirmation-code protocol use it.
 *
 * The library is not part of this model. Its operations are the function
 * fields of a `Provider`, and what the model relies on about them is stated
 * once, in `Lawful`. The lemmas that need those laws take `Lawful(c)` as a
 * precondition; `ToyLawful` shows that the laws can all hold at once.
 */
module Cipher {
  import opened Results
  import opened Base64

  /** A private key, identified with its `rawRepresentation`. */
  datatype PrivKey = PrivKey(raw: Bytes)
  datatype PubKey = PubKey(raw: Bytes)
  /** A symmetric key for the AEAD cipher. */
  datatype SymKey = SymKey(raw: Bytes)

  /** `KeyPair`: the tuple `(priv, pub)`. */
  datatype KeyPair = KeyPair(priv: PrivKey, pub: PubKey)

  datatype Provider = Provider(
    /** `privKey.publicKey` */
    publicKey: PrivKey -> PubKey,
    /** `PrivKey(rawRepresentation:)`, which throws on bytes that are not a key */
    privKeyFromRaw: Bytes -> Result<PrivKey>,
    /** `Cipher.exportPubKey(pubKey:)` */
    exportPubKey: PubKey -> Result<string>,
    /** `Cipher.importPubKey(pubKey:)` */
    importPubKey: string -> Result<PubKey>,
    /** `Cipher.getSharedKey(privKey:pubKey:salt:)`: ECDH followed by key derivation with the salt */
    sharedKey: (PrivKey, PubKey, Bytes) -> Result<SymKey>,
    /** `Cipher.encrypt(data:key:)` */
    encrypt: (Bytes, SymKey) -> Result<Bytes>,
    /** `Cipher.decrypt(data:key:)` */
    decrypt: (Bytes, SymKey) -> Result<Bytes>)

  /** The laws of the cipher library that the model relies on. */
  ghost predicate Lawful(c: Provider) {
    // a key rebuilt from raw bytes has exactly those bytes as its raw representation
    && (forall b :: c.privKeyFromRaw(b).Success? ==> c.privKeyFromRaw(b).value == PrivKey(b))
    // importing an exported public key gives the key back
    && (forall p :: c.exportPubKey(p).Success? ==> c.importPubKey(c.exportPubKey(p).value) == Success(p))
    // Diffie-Hellman symmetry: each side combines its own private key with the other's public key
    && (forall a, b, salt :: c.sharedKey(a, c.publicKey(b), salt) == c.sharedKey(b, c.publicKey(a), salt))
    // authenticated decryption inverts encryption under the same key
    && (forall d, k :: c.encrypt(d, k).Success? ==> c.decrypt(c.encrypt(d, k).value, k) == Success(d))
  }

  /** `Cipher.getKeyPair()`: the library pairs a fresh private key with its public key. */
  function PairOf(c: Provider, priv: PrivKey): (kp: KeyPair) {
    KeyPair(priv, c.publicKey(priv))
  }

  /** The public half of the pair is the projection of its private half. */
  predicate Consistent(c: Provider, kp: KeyPair) {
    kp.pub == c.publicKey(kp.priv)
  }

  /** A private key that the library accepts back from its own raw bytes. */
  predicate Restorable(c: Provider, priv: PrivKey) {
    c.privKeyFromRaw(priv.raw) == Success(priv)
  }

  // A symbolic provider, used only to show that `Lawful` is satisfiable.

  /** Byte-wise sum modulo 256 of the common prefix of two byte strings. */
  function Mix(x: Bytes, y: Bytes): (m: Bytes)
    ensures |m| <= |x| && |m| <= |y|
  {
    var n := if |x| <= |y| then |x| else |y|;
    seq(n, i requires 0 <= i < n => ((x[i] as int + y[i] as int) % 256) as Byte)
  }

  lemma MixCommutes(x: Bytes, y: Bytes)
    ensures Mix(x, y) == Mix(y, x)
  {
    assert forall i :: 0 <= i < |Mix(x, y)| ==> Mix(x, y)[i] == Mix(y, x)[i];
  }

  /** Public keys are the private bytes themselves, exported as base64; the
      shared key mixes both keys' bytes and appends the salt; encryption
      prefixes the key, and decryption fails unless the prefix matches. */
  function Toy(): (c: Provider) {
    Provider(
      (a: PrivKey) => PubKey(a.raw),
      (b: Bytes) => if |b| == 32 then Success(PrivKey(b)) else Failure(CipherFailure("invalid key size")),
      (p: PubKey) => Success(Encode(p.raw)),
      (t: string) => match Decode(t)
           case Some(b) => Success(PubKey(b))
           case None => Failure(CipherFailure("invalid public key")),
      (a: PrivKey, p: PubKey, salt: Bytes) => Success(SymKey(Mix(a.raw, p.raw) + salt)),
      (d: Bytes, k: SymKey) => Success(k.raw + d),
      (e: Bytes, k: SymKey) => if |k.raw| <= |e| && e[..|k.raw|] == k.raw
                then Success(e[|k.raw|..])
                else Failure(CipherFailure("authentication failure")))
  }

  lemma ToyLawful()
    ensures Lawful(Toy())
  {
    var c := Toy();
    forall p: PubKey | c.exportPubKey(p).Success?
      ensures c.importPubKey(c.exportPubKey(p).value) == Success(p)
    {
      DecodeEncode(p.raw);
    }
    forall a: PrivKey, b: PrivKey, salt: Bytes
      ensures c.sharedKey(a, c.publicKey(b), salt) == c.sharedKey(b, c.publicKey(a), salt)
    {
      MixCommutes(a.raw, b.raw);
    }
    forall d: Bytes, k: SymKey | c.encrypt(d, k).Success?
      ensures c.decrypt(c.encrypt(d, k).value, k) == Success(d)
    {
      var e := k.raw + d;
      assert e[..|k.raw|] == k.raw && e[|k.raw|..] == d;
    }
  }
}
