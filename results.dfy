/**
 * Failure-compatible wrappers shared by the whole model.
 *
 * Swift's `throws` becomes `Result<T>`; the thrown value is an `Error`.
 * Errors raised by collaborators the model does not see (the cipher
 * library, the keychain, the random-word generator) carry only the name of
 * the collaborator and an opaque reason chosen by that collaborator.
 */
module Results {

  datatype Option<+T> = None | Some(value: T)

  datatype Error =
    /** `getEncryptedCode`: the plaintext code is not base64 ("err - code data"). */
    | CodeDataInvalid
    /** `getDecryptedCode`: the ciphertext is not base64 ("privateKeyBase64"). */
    | EncryptedCodeInvalid
    /** Thrown by the cipher library (import, export, key derivation, AEAD, key creation). */
    | CipherFailure(reason: string)
    /** Thrown by the keychain (read or insert). */
    | KeychainFailure(reason: string)
    /** Thrown by the random-word generator. */
    | DiceFailure(reason: string)

  /** The outcome of an operation that returns nothing but may throw. */
  datatype Outcome = Pass | Fail(error: Error)

  datatype Result<+T> = Success(value: T) | Failure(error: Error) {

    predicate IsFailure() {
      Failure?
    }

    function PropagateFailure<U>(): Result<U>
      requires Failure?
    {
      Failure(error)
    }

    function Extract(): T
      requires Success?
    {
      value
    }
  }
}
