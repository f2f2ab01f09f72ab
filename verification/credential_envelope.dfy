/** Envelopes: AES-GCM is a symbolic constructor, so what was sealed can only be opened with the same key,
    nonce and associated data. */
module CredentialEnvelope {
  import opened Wrappers
  import opened Text
  import opened CredentialNames

  datatype Credentials = Credentials(loginUser: string, password: string, dynamicPassword: string)

  predicate ValidCredentials(c: Credentials) {
    !Blank(c.loginUser) && !Blank(c.password)
  }

  /** A 32-byte key is represented by a number. */
  datatype KeyMaterial = KeyMaterial(id: string, secret: nat)

  datatype Ciphertext = Sealed(secret: nat, nonce: nat, associated: string, plain: Credentials)

  datatype Envelope = Envelope(protocol: string, account: Account, version: int, keyId: string,
                               nonce: nat, ciphertext: Ciphertext)

  function Encrypt(a: Account, version: int, key: KeyMaterial, plain: Credentials, nonce: nat): Option<Envelope> {
    if ValidIdentity(a, version, key.id) && ValidCredentials(plain) then
      Some(Envelope(PROTOCOL, a, version, key.id, nonce,
                    Sealed(key.secret, nonce, AdditionalAuthenticatedData(a, version, key.id), plain)))
    else None
  }

  predicate Validates(e: Envelope, a: Account, version: int, keyId: string) {
    && e.protocol == PROTOCOL
    && ValidIdentity(e.account, e.version, e.keyId)
    && e.account == a && e.version == version && e.keyId == keyId
  }

  function Decrypt(e: Envelope, key: KeyMaterial): Option<Credentials> {
    if !Validates(e, e.account, e.version, key.id) then None
    else if e.ciphertext.secret != key.secret || e.ciphertext.nonce != e.nonce then None
    else if e.ciphertext.associated != AdditionalAuthenticatedData(e.account, e.version, e.keyId) then None
    else if !ValidCredentials(e.ciphertext.plain) then None
    else Some(e.ciphertext.plain)
  }

  /** Sealing is undone by opening under the same identity and key. */
  lemma DecryptUndoesEncrypt(a: Account, version: int, key: KeyMaterial, plain: Credentials, nonce: nat)
    ensures var e := Encrypt(a, version, key, plain, nonce);
            && (e.Some? <==> ValidIdentity(a, version, key.id) && ValidCredentials(plain))
            && (e.Some? ==> Validates(e.value, a, version, key.id) && Decrypt(e.value, key) == Some(plain))
  {
  }

  /** An envelope whose ciphertext was made for one identity opens under no other identity and no other key. */
  lemma EnvelopeBoundToIdentity(a: Account, version: int, key: KeyMaterial, plain: Credentials, nonce: nat,
                                e: Envelope, other: KeyMaterial)
    requires var sealed := Encrypt(a, version, key, plain, nonce); sealed.Some? && e.ciphertext == sealed.value.ciphertext
    requires Decrypt(e, other).Some?
    ensures e == Encrypt(a, version, key, plain, nonce).value && other == key
  {
    AssociatedDataInjective(a, version, key.id, e.account, e.version, e.keyId);
  }
}
