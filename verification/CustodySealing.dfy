/** The data of the custody vault with symbolic sealing.

    A sealed item is either genuine (made by sealing some plaintext under a key and an AAD) or
    forged (bytes nobody sealed). Unsealing succeeds only for a genuine item under the same key and
    the same AAD; every key, nonce and salt drawn from the random source is new. */
module Sealing {
  import opened Common

  const ENVELOPE_VERSION: nat := 2
  const WRAPPED_DK := "wrapped_dk"
  const HEADER := "header"
  const LOCKOUT := "lockout"

  /** The reserved slot whose plaintext is known; its name starts with NUL. */
  const CHECK_SLOT := "\0custody-check"

  datatype Error =
    | Denied
    | LockedOut
    | KeyringUnavailable
    | Corrupt
    | VersionUnsupported
    | Io
    | Stopped // the process stopped inside the call: no answer is given

  predicate IsReservedDomainTag(name: string) {
    name == WRAPPED_DK || name == HEADER || name == LOCKOUT
  }

  predicate StartsWithNul(name: string) {
    |name| > 0 && name[0] == '\0'
  }

  /** A 32-byte key: drawn at random, or the combination of the keyring master key with the key
      derived from a passphrase and a salt. */
  datatype Key = Minted(id: nat) | Combined(master: Key, passphrase: string, salt: nat)

  datatype Nonce = Nonce(id: nat) | WrongLength(id: nat)

  datatype Aad = Aad(version: nat, context: string)

  /** A plaintext. A caller's secret may be any plaintext, also one that reads as a header. */
  datatype Plain =
    | Raw(bytes: seq<nat>)
    | CheckText
    | KeyBytes(key: Key)
    | HeaderJson(header: Header)
    | LockoutJson(lockout: LockoutState)

  datatype Header = Header(generation: nat, slots: map<string, Nonce>)

  datatype LockoutState = LockoutState(
    failures: nat,
    lockedUntilMs: Option<nat>,
    generation: nat,
    anchorInitialized: Option<bool>)

  const NO_FAILURES := LockoutState(0, None, 0, None)

  datatype Sealed = Sealed(nonce: Nonce, body: Body)

  datatype Body = Genuine(key: Key, aad: Aad, plain: Plain) | Forged(id: nat)

  datatype Envelope = Envelope(
    version: nat,
    salt: nat,
    wrappedDk: Sealed,
    header: Sealed,
    lockout: Sealed,
    slots: map<string, Sealed>)

  /** The file `custody.enc`. */
  datatype Disk = Absent | Garbage | Holds(envelope: Envelope)

  function Unseal(key: Key, item: Sealed, aad: Aad): Result<Plain, Error> {
    if item.nonce.WrongLength? then Err(Corrupt)
    else if item.body.Genuine? && item.body.key == key && item.body.aad == aad then Ok(item.body.plain)
    else Err(Denied)
  }

  function Fingerprint(slots: map<string, Sealed>): map<string, Nonce> {
    map name | name in slots :: slots[name].nonce
  }

  /** The generation of a header that unseals and matches the slots beside it. */
  function OpenAndVerifyHeader(dek: Key, env: Envelope): Result<nat, Error> {
    var plain := Unseal(dek, env.header, Aad(env.version, HEADER));
    if plain.Ok? && plain.value.HeaderJson? && plain.value.header.slots == Fingerprint(env.slots)
    then Ok(plain.value.header.generation)
    else Err(Corrupt)
  }

  function OpenLockout(mek: Key, env: Envelope): Result<LockoutState, Error> {
    var plain := Unseal(mek, env.lockout, Aad(env.version, LOCKOUT));
    if plain.Ok? && plain.value.LockoutJson? then Ok(plain.value.lockout) else Err(Corrupt)
  }
}
