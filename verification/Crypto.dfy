/**
 Ideal cryptography.  A sealed box remembers the key, the associated data and the
 generation it was sealed with, and opens exactly for that triple; key derivations
 are injective constructors.  Nothing is claimed about the real primitives.
 */
module Crypto {
  import opened Common

  /** The vault's root key. */
  datatype Svk = Svk(id: nat)

  /** Argon2id over the master password and the account's salt. */
  datatype MasterKey = MasterKey(password: string, salt: nat)

  /** Keys in use: the root itself, item keys, password wrapping keys, recovery wrapping keys. */
  datatype Key = Root(svk: Svk) | Dek(svk: Svk) | Kek(mk: MasterKey) | RecoveryKek(mnemonic: nat)

  datatype Sealed<+T> = Sealed(key: Key, ad: Uuid, gen: nat, content: T)

  /** Item ciphertext, bound to (uuid, enc_key_gen). */
  type Payload = Sealed<string>

  /** The SVK wrapped under a password or recovery key, generation 0. */
  type WrappedSvk = Sealed<Svk>

  function Open<T>(key: Key, ad: Uuid, gen: nat, box: Sealed<T>): Option<T> {
    if box.key == key && box.ad == ad && box.gen == gen then Some(box.content) else None
  }

  /** `wrap_svk`: every client wraps under the nil-UUID convention. */
  function WrapSvk(mk: MasterKey, svk: Svk): WrappedSvk {
    Sealed(Kek(mk), NIL_UUID, 0, svk)
  }

  /** Unwrapping tries the caller's user id first and the nil UUID second. */
  function UnwrapSvk(mk: MasterKey, userId: Uuid, box: WrappedSvk): Option<Svk> {
    match Open(Kek(mk), userId, 0, box)
    case Some(svk) => Some(svk)
    case None => Open(Kek(mk), NIL_UUID, 0, box)
  }

  /** Blobs bound to the user and blobs bound to nobody open, with the one right master key. */
  lemma UnwrapIff(mk: MasterKey, userId: Uuid, box: WrappedSvk)
    ensures UnwrapSvk(mk, userId, box)
         == if box.key == Kek(mk) && box.gen == 0 && box.ad in {userId, NIL_UUID} then Some(box.content) else None
  {
  }
}
