/**
 * The confirmation-code protocol: `E2EE.getEncryptedCode` and
 * `E2EE.getDecryptedCode`.
 *
 * Both take the code as base64 text, turn it into bytes, derive a symmetric
 * key from the local private key, the remote public key and a salt, run the
 * AEAD cipher, and return the resulting bytes as base64 text. So the
 * plaintext that comes back after a round trip is `Encode(Decode(code))`,
 * which is the code itself exactly when the code is canonical base64, as a
 * four-digit code is.
 */
module ConfirmCode {
  import opened Results
  import opened Base64
  import opened Cipher

  /** Lines shared by both operations: import the remote public key, then
      derive the shared key with the salt as given. */
  function SharedKeyFor(c: Provider, pubKey: string, privKey: PrivKey, salt: Bytes): (r: Result<SymKey>)
    ensures c.importPubKey(pubKey).Failure? ==> r == Failure(c.importPubKey(pubKey).error)
    ensures c.importPubKey(pubKey).Success? ==> r == c.sharedKey(privKey, c.importPubKey(pubKey).value, salt)
  {
    var publicKey :- c.importPubKey(pubKey);
    c.sharedKey(privKey, publicKey, salt)
  }

  /** `E2EE.getEncryptedCode(code:pubKey:privKey:confirmCodeSalt:)`. */
  function GetEncryptedCode(c: Provider, code: string, pubKey: string, privKey: PrivKey, salt: Bytes): (r: Result<string>)
    // a code that is not base64 is refused before any key is imported
    ensures Decode(code).None? ==> r == Failure(CodeDataInvalid)
    // an import or derivation failure is the result
    ensures Decode(code).Some? && SharedKeyFor(c, pubKey, privKey, salt).Failure? ==>
      r == Failure(SharedKeyFor(c, pubKey, privKey, salt).error)
    // otherwise the result is the base64 text of the AEAD ciphertext, or the cipher's error
    ensures Decode(code).Some? && SharedKeyFor(c, pubKey, privKey, salt).Success? ==>
      var sealed := c.encrypt(Decode(code).value, SharedKeyFor(c, pubKey, privKey, salt).value);
      r == if sealed.Success? then Success(Encode(sealed.value)) else Failure(sealed.error)
  {
    match Decode(code)
    case None => Failure(CodeDataInvalid)
    case Some(codeData) =>
      var sharedKey :- SharedKeyFor(c, pubKey, privKey, salt);
      var encryptedCodeData :- c.encrypt(codeData, sharedKey);
      Success(Encode(encryptedCodeData))
  }

  /** `E2EE.getDecryptedCode(code:pubKey:privKey:confirmCodeSalt:)`. */
  function GetDecryptedCode(c: Provider, code: string, pubKey: string, privKey: PrivKey, salt: Bytes): (r: Result<string>)
    // a ciphertext that is not base64 is refused before any key is imported
    ensures Decode(code).None? ==> r == Failure(EncryptedCodeInvalid)
    ensures Decode(code).Some? && SharedKeyFor(c, pubKey, privKey, salt).Failure? ==>
      r == Failure(SharedKeyFor(c, pubKey, privKey, salt).error)
    // otherwise the result is the base64 text of the plaintext, or the cipher's error
    ensures Decode(code).Some? && SharedKeyFor(c, pubKey, privKey, salt).Success? ==>
      var unsealed := c.decrypt(Decode(code).value, SharedKeyFor(c, pubKey, privKey, salt).value);
      r == if unsealed.Success? then Success(Encode(unsealed.value)) else Failure(unsealed.error)
  {
    match Decode(code)
    case None => Failure(EncryptedCodeInvalid)
    case Some(codeData) =>
      var sharedKey :- SharedKeyFor(c, pubKey, privKey, salt);
      var decryptedCodeData :- c.decrypt(codeData, sharedKey);
      Success(Encode(decryptedCodeData))
  }

  predicate IsDigit(ch: char) {
    '0' <= ch <= '9'
  }

  /** The form of a confirmation code: four decimal digits. */
  predicate IsFourDigitCode(code: string) {
    |code| == 4 && forall i :: 0 <= i < 4 ==> IsDigit(code[i])
  }

  /** A four-digit code is one canonical base64 quantum: it decodes to three
      bytes, and those bytes encode back to the code. */
  lemma FourDigitCodeIsCanonical(code: string)
    requires IsFourDigitCode(code)
    ensures Decode(code).Some? && |Decode(code).value| == 3
    ensures Encode(Decode(code).value) == code
  {
    EncodeDecodeUnpadded(code);
  }

  /** Decrypting with the key material used for encrypting returns the code
      in canonical base64 form. */
  lemma DecryptInvertsEncrypt(c: Provider, code: string, pubKey: string, privKey: PrivKey, salt: Bytes)
    requires Lawful(c)
    requires GetEncryptedCode(c, code, pubKey, privKey, salt).Success?
    ensures GetDecryptedCode(c, GetEncryptedCode(c, code, pubKey, privKey, salt).value, pubKey, privKey, salt)
            == Success(Encode(Decode(code).value))
  {
    var key := SharedKeyFor(c, pubKey, privKey, salt).value;
    var sealed := c.encrypt(Decode(code).value, key).value;
    DecodeEncode(sealed);
  }

  /** The round trip of the test suite: a four-digit code encrypted and then
      decrypted with the same public-key text, private key and salt comes
      back unchanged. */
  lemma FourDigitCodeRoundTrip(c: Provider, code: string, pubKey: string, privKey: PrivKey, salt: Bytes)
    requires Lawful(c) && IsFourDigitCode(code)
    requires GetEncryptedCode(c, code, pubKey, privKey, salt).Success?
    ensures GetDecryptedCode(c, GetEncryptedCode(c, code, pubKey, privKey, salt).value, pubKey, privKey, salt)
            == Success(code)
  {
    DecryptInvertsEncrypt(c, code, pubKey, privKey, salt);
    FourDigitCodeIsCanonical(code);
  }

  /** Both sides derive the same key: each side's private key with the
      other's exported public key. */
  lemma SharedKeyAgrees(c: Provider, a: PrivKey, aText: string, b: PrivKey, bText: string, salt: Bytes)
    requires Lawful(c)
    requires c.exportPubKey(c.publicKey(a)) == Success(aText)
    requires c.exportPubKey(c.publicKey(b)) == Success(bText)
    ensures SharedKeyFor(c, bText, a, salt) == SharedKeyFor(c, aText, b, salt)
  {
    assert c.importPubKey(aText) == Success(c.publicKey(a));
    assert c.importPubKey(bText) == Success(c.publicKey(b));
  }

  /** What one side encrypts for the other's public key, the other side
      decrypts with the first side's public key and its own private key. */
  lemma CounterpartDecrypts(c: Provider, code: string, a: PrivKey, aText: string, b: PrivKey, bText: string, salt: Bytes)
    requires Lawful(c)
    requires c.exportPubKey(c.publicKey(a)) == Success(aText)
    requires c.exportPubKey(c.publicKey(b)) == Success(bText)
    requires GetEncryptedCode(c, code, bText, a, salt).Success?
    ensures GetDecryptedCode(c, GetEncryptedCode(c, code, bText, a, salt).value, aText, b, salt)
            == Success(Encode(Decode(code).value))
  {
    SharedKeyAgrees(c, a, aText, b, bText, salt);
    DecryptInvertsEncrypt(c, code, bText, a, salt);
  }
}
