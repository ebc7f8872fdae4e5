/**
 * The helpers that the `InviteKind` protocol gives every invite: the
 * inviter encrypts a fresh four-digit code for the invitee's public key,
 * and the invitee decrypts it with the inviter's public key.
 *
 * An invite is the two strings the protocol requires (`confirmCode`,
 * `extPubKey`). The conformer's own `Self.getKeyPair()` and the random-word
 * generator are collaborators, so their outcomes are parameters: the
 * generator as a function from recipe to word, the key pair as the result of
 * that call.
 */
module Invite {
  import opened Results
  import opened Base64
  import opened Cipher
  import opened ConfirmCode

  /** `InviteKind`: the encrypted confirmation code and the other side's
      exported public key. */
  datatype Invite = Invite(confirmCode: string, extPubKey: string)

  /** `RandPSW.PasswordRecipe`: how many letters, digits and symbols. */
  datatype Recipe = Recipe(charCount: nat, numCount: nat, symCount: nat)

  /** The recipe of a confirmation code: four digits, no letters, no symbols. */
  const ConfirmRecipe: Recipe := Recipe(0, 4, 0)

  predicate IsLetter(ch: char) {
    'a' <= ch <= 'z' || 'A' <= ch <= 'Z'
  }

  function DigitCount(w: string): (n: nat)
    ensures n <= |w|
  {
    if w == [] then 0 else (if IsDigit(w[0]) then 1 else 0) + DigitCount(w[1..])
  }

  function LetterCount(w: string): (n: nat)
    ensures n <= |w|
  {
    if w == [] then 0 else (if IsLetter(w[0]) then 1 else 0) + LetterCount(w[1..])
  }

  /** A word made to a recipe: of the recipe's length, with that many digits
      and that many letters; the rest are symbols. */
  predicate Fits(w: string, r: Recipe) {
    |w| == r.charCount + r.numCount + r.symCount && DigitCount(w) == r.numCount && LetterCount(w) == r.charCount
  }

  /** The random-word generator keeps to the recipe it is given. */
  ghost predicate DiceSound(dice: Recipe -> Result<string>) {
    forall r :: dice(r).Success? ==> Fits(dice(r).value, r)
  }

  lemma {:induction false} AllDigits(w: string)
    requires DigitCount(w) == |w|
    ensures forall i :: 0 <= i < |w| ==> IsDigit(w[i])
  {
    if w != [] {
      AllDigits(w[1..]);
      assert forall i :: 1 <= i < |w| ==> w[i] == w[1..][i - 1];
    }
  }

  /** A word made to the confirmation recipe is a four-digit code. */
  lemma ConfirmRecipeMakesFourDigits(w: string)
    requires Fits(w, ConfirmRecipe)
    ensures IsFourDigitCode(w)
  {
    AllDigits(w);
  }

  /** `InviteKind.encryptedConfirmCode(extPubKey:confirmCodeSalt:)`: draws a
      code to the confirmation recipe, then encrypts it with the conformer's
      own private key for `extPubKey`. */
  function EncryptedConfirmCode(c: Provider, dice: Recipe -> Result<string>, ownKeyPair: Result<KeyPair>,
                                extPubKey: string, salt: Bytes): (r: Result<string>)
    ensures dice(ConfirmRecipe).Failure? ==> r == Failure(dice(ConfirmRecipe).error)
    ensures dice(ConfirmRecipe).Success? && ownKeyPair.Failure? ==> r == Failure(ownKeyPair.error)
    ensures dice(ConfirmRecipe).Success? && ownKeyPair.Success? ==>
      r == GetEncryptedCode(c, dice(ConfirmRecipe).value, extPubKey, ownKeyPair.value.priv, salt)
  {
    var confirmCode :- dice(ConfirmRecipe);
    var keyPair :- ownKeyPair;
    GetEncryptedCode(c, confirmCode, extPubKey, keyPair.priv, salt)
  }

  /** `InviteKind.getDecryptedConfirmCode(externalPubKey:confirmCodeSalt:)`:
      decrypts the invite's code with `externalPubKey` and the conformer's
      own private key. */
  function GetDecryptedConfirmCode(c: Provider, invite: Invite, ownKeyPair: Result<KeyPair>,
                                   externalPubKey: string, salt: Bytes): (r: Result<string>)
    ensures ownKeyPair.Failure? ==> r == Failure(ownKeyPair.error)
    ensures ownKeyPair.Success? ==>
      r == GetDecryptedCode(c, invite.confirmCode, externalPubKey, ownKeyPair.value.priv, salt)
  {
    var keyPair :- ownKeyPair;
    GetDecryptedCode(c, invite.confirmCode, externalPubKey, keyPair.priv, salt)
  }

  /** `InviteKind.getConfirmationCode(confirmCodeSalt:)`: the invitee's
      decryption, with the invite's own `extPubKey` as the other side's key. */
  function GetConfirmationCode(c: Provider, invite: Invite, ownKeyPair: Result<KeyPair>, salt: Bytes): (r: Result<string>)
    ensures ownKeyPair.Failure? ==> r == Failure(ownKeyPair.error)
    ensures ownKeyPair.Success? ==>
      r == GetDecryptedCode(c, invite.confirmCode, invite.extPubKey, ownKeyPair.value.priv, salt)
  {
    GetDecryptedConfirmCode(c, invite, ownKeyPair, invite.extPubKey, salt)
  }

  /** The handshake: the inviter encrypts a code for the invitee's exported
      public key and sends it in an invite that carries the inviter's
      exported public key; the invitee, with its own key pair, recovers
      exactly the four-digit code the inviter drew. */
  lemma InviteeRecoversCode(c: Provider, dice: Recipe -> Result<string>, inviter: KeyPair, inviterText: string,
                            invitee: KeyPair, inviteeText: string, salt: Bytes)
    requires Lawful(c) && DiceSound(dice)
    requires Consistent(c, inviter) && Consistent(c, invitee)
    requires c.exportPubKey(inviter.pub) == Success(inviterText)
    requires c.exportPubKey(invitee.pub) == Success(inviteeText)
    requires EncryptedConfirmCode(c, dice, Success(inviter), inviteeText, salt).Success?
    ensures dice(ConfirmRecipe).Success? && IsFourDigitCode(dice(ConfirmRecipe).value)
    ensures var invite := Invite(EncryptedConfirmCode(c, dice, Success(inviter), inviteeText, salt).value, inviterText);
      GetConfirmationCode(c, invite, Success(invitee), salt) == Success(dice(ConfirmRecipe).value)
  {
    var code := dice(ConfirmRecipe).value;
    ConfirmRecipeMakesFourDigits(code);
    CounterpartDecrypts(c, code, inviter.priv, inviterText, invitee.priv, inviteeText, salt);
    FourDigitCodeIsCanonical(code);
  }
}
