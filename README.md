# E2EE key manager and confirmation-code handshake, modelled in Dafny

This project models the core of the E2EE Swift package. That package lets two
peers bootstrap an end-to-end-encrypted channel. It has two parts.

- **Key manager** (`E2EE.keyPair`, `getKeyPair`, `createNewKeyPair`, `getKeyQuery`,
  `getPubKey`). It resolves the local key pair in three stages:
  - a process-wide one-slot cache (`E2EE._keyPair`);
  - the keychain, which holds the private key's raw bytes under a (key, service) pair;
  - generating a new pair and inserting its private key into the keychain.
- **Confirmation-code protocol** (`getEncryptedCode`, `getDecryptedCode`). The
  invite helpers are built on it (`encryptedConfirmCode`, `getDecryptedConfirmCode`,
  `getConfirmationCode`). The inviter draws a random four-digit code and encrypts
  it for the invitee's public key, using a key derived by ECDH and a salt. The
  invitee decrypts it with the inviter's public key and its own private key.

## Layout

- `results.dfy`, module `Results`: `Option`, `Result`, `Outcome` and the errors
  thrown (the two base64 guards of `getEncryptedCode`/`getDecryptedCode`, and
  opaque failures of the cipher library, the keychain and the random-word generator).
- `base64.dfy`, module `Base64`: base64 per section 4 of RFC 4648. It stands in
  for Foundation's `base64EncodedString()` and `Data(base64Encoded:)`. It is
  written out concretely, with the two round-trip lemmas.
- `cipher.dfy`, module `Cipher`: key types and the cipher library as a
  `Provider` record of function values.
  - `Lawful(c)` states the four laws the model relies on, besides the pairing of
    a generated key with its public key (see "## Left out"):
    - a private key rebuilt from raw bytes has those bytes;
    - import inverts export;
    - ECDH symmetry;
    - decryption inverts encryption.
  - `ToyLawful` shows that a concrete provider satisfies them, so `Lawful` is not contradictory.
- `keychain.dfy`, module `Keychain`:
  - `getKeyQuery`;
  - the keychain as a class over `map<(key, service), Item>`, where an item is
    `Data` (`Blob`) or some other object (`Foreign`);
  - `Key.read` and `Key.insert`.
- `key_resolution.dfy`, module `KeyResolution`: the resolution pipeline as
  functions of the cache and the keychain contents, and lemmas about one call and
  about several calls.
- `key_manager.dfy`, module `KeyManager`: the class `E2EE`. Its field
  `keyPairCache` is `_keyPair`, and its methods update the cache and the keychain.
  Each method is proved against the corresponding function of `KeyResolution`.
- `confirm_code.dfy`, module `ConfirmCode`: `getEncryptedCode`,
  `getDecryptedCode`, and the round-trip lemmas.
- `invite.dfy`, module `Invite`: the helpers of the `InviteKind` protocol, the
  confirmation-code recipe, and the handshake theorem `InviteeRecoversCode`.

Collaborators become parameters:
- **`Env`, one per resolution**: whether the keychain read throws for a reason
  other than a missing item, what `Cipher.getKeyPair()` produces, and whether
  the keychain insert throws.
- **`dice`**: the random-word generator, as a function from recipe to word.
- **`ownKeyPair`**: the outcome of the invite conformer's `Self.getKeyPair()`.
- **Logging**: dropped.

Three behaviours of the code are worth knowing, and the model keeps each of them.
- `getKeyPair` (Sources/E2EE/E2EE+Getter.swift:45-56) catches every keychain
  read error and every non-`Data` object, and then generates and inserts a new
  key (`AbsentKeyIsCreated`). So when a read fails transiently and the insert
  of the new key then succeeds, the new key replaces the persisted one
  (`ReadFailureReplacesStoredKey`). When that insert throws, `getKeyPair`
  throws the insert error and the stored key stays.
- `getDecryptedCode` returns the base64 text of the decrypted bytes
  (Sources/E2EE/E2EE+Code.swift:79). A four-digit code comes back unchanged
  only because it is one canonical base64 quantum (`FourDigitCodeIsCanonical`).
  `PadBitsIgnored` gives an input (`"AB=="`) for which decode-then-encode is
  not the identity.
- The cache (Sources/E2EE/E2EE.swift:45-46) is one slot that ignores `key` and
  `service` once filled (`CachedPairIgnoresIdentity`, `PubKeyFollowsCache`).

## Model

| member | source | states |
|---|---|---|
| `Base64.Encode` | Sources/E2EE/E2EE+Code.swift:42 | the text is 4·⌈n/3⌉ characters long and each character is in the base64 alphabet or is padding |
| `Base64.Decode` | Sources/E2EE/E2EE+Code.swift:28-30 | text that decodes has a length that is a multiple of four, and at most three bytes per quantum; which characters and padding it accepts is stated by `DecodeAcceptsOnlyBase64` |
| `Base64.DecodeAcceptsOnlyBase64` | Sources/E2EE/E2EE+Code.swift:28-30 | text that decodes has every character in the alphabet except padding among the last two characters, and nothing but padding after padding; so `"AB-D"` or `"AB=C"` makes the guard throw |
| `Base64.DecodeEncode` | Sources/E2EE/E2EE+Code.swift:42-64 | decoding the base64 text of any byte string gives back that byte string |
| `Base64.EncodeDecodeUnpadded` | Sources/E2EE/E2EE+Code.swift:28-42 | input with no padding and length a multiple of four decodes, and re-encoding gives back the input |
| `Base64.PadBitsIgnored` | Sources/E2EE/E2EE+Code.swift:64-79 | `"AB=="` decodes to one zero byte, which encodes as `"AA=="`, so decode-then-encode is not the identity in general |
| `Keychain.GetKeyQuery` | Sources/E2EE/E2EE+Keychain.swift:55-61 | the query carries the given key name and service unchanged, with no access group and no context |
| `Keychain.ReadItem` | Sources/E2EE/E2EE+Getter.swift:48 | a read succeeds exactly when the platform does not fail and an item exists; it returns that item; a platform failure is the error |
| `Keychain.InsertItem` | Sources/E2EE/E2EE+Keychain.swift:76-79 | a successful insert puts the bytes under the query's identity and leaves every other entry as it was; a failed insert changes nothing |
| `Keychain.Keychain.Read` | Sources/E2EE/E2EE+Getter.swift:48 | returns what `ReadItem` gives for the current contents |
| `Keychain.Keychain.Insert` | Sources/E2EE/E2EE+Keychain.swift:76-79 | reports the insert error or success, and the new contents are `InsertItem` of the old |
| `KeyResolution.CreateNewKeyPairStep` | Sources/E2EE/E2EE+Keychain.swift:74-81 | succeeds exactly when generation and insert both succeed; it then returns the generated pair and the store maps the query's identity to the private key's raw bytes; a generation or insert error is the result and the store is unchanged |
| `KeyResolution.KeyData` | Sources/E2EE/E2EE+Getter.swift:45-56 | yields bytes exactly when the read succeeded and returned `Data`, and then those bytes; any read error or non-`Data` object yields nothing |
| `KeyResolution.GetKeyPairStep` | Sources/E2EE/E2EE+Getter.swift:43-69 | every pair returned has as its public key the projection of its private key |
| `KeyResolution.StoredKeyIsUsed` | Sources/E2EE/E2EE+Getter.swift:64-68 | bytes found in the keychain give the pair built from exactly those bytes, with the keychain unchanged; bytes that are not a valid key give the error and no new key |
| `KeyResolution.AbsentKeyIsCreated` | Sources/E2EE/E2EE+Getter.swift:45-62 | a missing item, a failing read or a non-`Data` object leads to `createNewKeyPair` with the query; a failure is then always a generation or insert error, never a read error |
| `KeyResolution.GetKeyPairFrame` | Sources/E2EE/E2EE+Getter.swift:43-69 | only the resolved identity's entry can change, and only to the raw bytes of the returned private key after a success |
| `KeyResolution.PersistedKeyIsStable` | Sources/E2EE/E2EE+Getter.swift:43-69 | after a successful resolution, resolving the same identity from the new keychain with an empty cache returns the same pair and changes nothing, given a non-failing read and a generated key the library accepts back from its raw bytes |
| `KeyResolution.ReadFailureReplacesStoredKey` | Sources/E2EE/E2EE+Getter.swift:53-62 | a read failure over a stored key, followed by a successful insert of a differently keyed new pair, yields that different private key and overwrites the stored bytes |
| `KeyResolution.KeyPairStep` | Sources/E2EE/E2EE.swift:44-48 | after a success the cache holds the returned pair; after a failure the cache is as it was (and was empty); a pair already cached is returned; the cache lemmas below state the rest |
| `KeyResolution.GetPubKeyStep` | Sources/E2EE/E2EE+Getter.swift:22-25 | a success is the export of the public key of the pair the cache holds afterwards; cache and keychain afterwards are those of `keyPair` |
| `KeyResolution.CachedPairIgnoresIdentity` | Sources/E2EE/E2EE.swift:45 | with the cache filled, the cached pair is returned for any key and service, and neither the cache nor the keychain changes |
| `KeyResolution.EmptyCacheResolves` | Sources/E2EE/E2EE.swift:45-47 | with an empty cache, the result and the keychain are those of `getKeyPair`; the cache then holds the returned pair after a success and stays empty after a failure |
| `KeyResolution.KeyPairIsIdempotent` | Sources/E2EE/E2EE.swift:44-48 | after a successful call, a second call with any identity and any collaborator behaviour returns the same pair and changes nothing |
| `KeyResolution.CacheStaysConsistent` | Sources/E2EE/E2EE.swift:45-46 | the cache and the result only ever hold pairs whose public key is the projection of the private key |
| `KeyResolution.PubKeyFollowsCache` | Sources/E2EE/E2EE+Getter.swift:22-25 | with the cache filled, `getPubKey` is the export of the cached public key, whatever identity is passed |
| `KeyResolution.PubKeyFillsCache` | Sources/E2EE/E2EE+Getter.swift:22-25 | `getPubKey` leaves the cache and keychain as `keyPair` does, propagates its error, and otherwise returns the export of its public key, whose failure surfaces after the cache is filled |
| `KeyManager.E2EE.constructor` | Sources/E2EE/E2EE.swift:24 | the cache starts empty |
| `KeyManager.E2EE.CreateNewKeyPair` | Sources/E2EE/E2EE+Keychain.swift:74-81 | the result and the new keychain are those of `CreateNewKeyPairStep`; only the keychain is modified |
| `KeyManager.E2EE.GetKeyPair` | Sources/E2EE/E2EE+Getter.swift:43-69 | the result and the new keychain are those of `GetKeyPairStep`; the cache is not touched |
| `KeyManager.E2EE.KeyPairFor` | Sources/E2EE/E2EE.swift:44-48 | the result, the new cache and the new keychain are those of `KeyPairStep` on the old cache and keychain |
| `KeyManager.E2EE.GetPubKey` | Sources/E2EE/E2EE+Getter.swift:22-25 | the result, the new cache and the new keychain are those of `GetPubKeyStep` |
| `KeyManager.ResolveTwice` | Sources/E2EE/E2EE.swift:45-46 | once a first call succeeds, a second call with another identity returns the identical pair, the cache holds it, and the keychain is as the first call left it |
| `ConfirmCode.SharedKeyFor` | Sources/E2EE/E2EE+Code.swift:31-37 | an import failure is the result; otherwise the key is the library's shared key of the given private key, the imported public key and the salt as passed |
| `ConfirmCode.GetEncryptedCode` | Sources/E2EE/E2EE+Code.swift:26-43 | non-base64 code fails with the code-data error before any import; otherwise an import, derivation or encryption failure is the result, and success is the base64 text of the ciphertext of the decoded code under the derived key |
| `ConfirmCode.GetDecryptedCode` | Sources/E2EE/E2EE+Code.swift:62-80 | non-base64 ciphertext fails with its own error before any import; otherwise an import, derivation or decryption failure is the result, and success is the base64 text of the plaintext |
| `ConfirmCode.FourDigitCodeIsCanonical` | Tests/E2EETests/E2EETests.swift:51-57 | a four-digit code decodes to three bytes that encode back to the code |
| `ConfirmCode.DecryptInvertsEncrypt` | Sources/E2EE/E2EE+Code.swift:26-80 | under the cipher laws, decrypting an encrypted code with the same public-key text, private key and salt gives the base64 re-encoding of the decoded code |
| `ConfirmCode.FourDigitCodeRoundTrip` | Tests/E2EETests/E2EETests.swift:60-76 | under the cipher laws, a four-digit code encrypted then decrypted with the same key material comes back unchanged |
| `ConfirmCode.SharedKeyAgrees` | Sources/E2EE/E2EE+Code.swift:70-74 | each side's private key with the other side's exported public key derives the same key |
| `ConfirmCode.CounterpartDecrypts` | Sources/E2EE/E2EE+Code.swift:62-80 | what one side encrypts for the other's public key, the other side decrypts with the first side's public key and its own private key |
| `Invite.ConfirmRecipeMakesFourDigits` | Sources/E2EE/util/InviteKind+Helper.swift:27-33 | a word made to the recipe of four digits, no letters and no symbols is a four-digit code |
| `Invite.EncryptedConfirmCode` | Sources/E2EE/util/InviteKind+Helper.swift:26-40 | a generator failure comes first, then a key-pair failure; otherwise the result is `getEncryptedCode` of the drawn code, the supplied `extPubKey` and the conformer's own private key |
| `Invite.GetDecryptedConfirmCode` | Sources/E2EE/util/InviteKind+Helper.swift:54-61 | a key-pair failure is the result; otherwise it is `getDecryptedCode` of the invite's code, the given external key and the conformer's own private key |
| `Invite.GetConfirmationCode` | Sources/E2EE/util/InviteKind+Helper.swift:71-76 | a key-pair failure is the result; otherwise it is `getDecryptedCode` of the invite's encrypted code with the invite's own `extPubKey` as the other side's key and the conformer's own private key. What it recovers is stated by `InviteeRecoversCode` |
| `Invite.InviteeRecoversCode` | Sources/E2EE/util/InviteKind+Helper.swift:26-76 | the property of `getConfirmationCode`: under the cipher laws and with a generator that keeps to its recipe, the invitee recovers exactly the four-digit code the inviter drew. The invitee decrypts the invite that carries the inviter's exported public key, using its own key pair |

## Left out

- Cipher library internals (curve arithmetic, ECDH, HKDF, AEAD) are not modelled.
  What the model relies on is stated in `Cipher.Lawful` and taken as an
  assumption by the lemmas that need it.
- Tamper detection, salt sensitivity, and failure when the wrong public key is
  used are properties of the AEAD cipher, not of this package. They cannot be
  proved from the four laws, so they are not stated.
- The access-control object of the key query (Sources/E2EE/E2EE+Keychain.swift:49-54)
  and the accessibility flags are not modelled: they are platform policy with no
  effect on the logic.
- The implementations of `Key.read` and `Key.insert` are not part of this model.
  A read fails for a missing item or when `Env.readFault` says so. A successful
  insert puts the bytes under the identity, and `Env.insertFault` covers every
  failing insert. Whether inserting over an existing item overwrites it or fails
  with a duplicate error is not visible, and both are covered.
- Key generation: `Cipher.getKeyPair()` is modelled as producing a private key
  (`Env.generated`), paired with its public key by `PairOf`. That it returns
  `pub == publicKey(priv)` is thus an assumption of the model, not one of the
  `Lawful` laws. On the create path, `Consistent` in `GetKeyPairStep` and in
  `CacheStaysConsistent` holds by this construction.
- Encryption is a function of the plaintext and the key. The random nonce of
  the AEAD seal is not modelled, so `GetEncryptedCode` is deterministic here.
  No proved property depends on that.
- The random-word generator (`RandPSW.makeRandomWord`) is a parameter. Its
  randomness is not modelled; `DiceSound` only says it keeps to its recipe.
- The invite conformers and their `getKeyPair()` strategies (permanent key,
  ephemeral key) are not part of this model. Each call's outcome is a parameter.
- Logging and tracing (Sources/E2EE/E2EE+Getter.swift:49,54) are diagnostics only
  and are not modelled.
- Thread safety of the static cache is not modelled: the code has no locking,
  and the model is sequential.
- The `Codable` conformance of `InviteKind` and the build manifest are not
  modelled.
- `Base64.Decode` assumes that `Data(base64Encoded:)` ignores the unused bits of
  a final padded quantum. Foundation is not part of this model. The four-digit
  round trip holds either way, because such a code has no padding.
