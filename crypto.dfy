/** The encryption service as the controller uses it: a loaded key, and
    `encrypt`/`decrypt` under that key. The cryptography library's Fernet,
    PBKDF2 and SHA-256 are not modelled; they are the `Primitives`, of which
    the model assumes one law only: decrypting with the key that encrypted
    gives the plaintext back. */
module Crypto {
  import opened Outcomes

  type Key = seq<bv8>

  datatype Primitives = Primitives(
    encrypt: (Key, string) -> string,           // Fernet(key).encrypt(p.encode()).decode()
    decrypt: (Key, string) -> Option<string>,   // Fernet(key).decrypt(c), None for InvalidToken
    deriveKey: (string, seq<bv8>) -> Key,       // PBKDF2-HMAC-SHA256, urlsafe base64
    sha256Hex: Key -> string)                   // hashlib.sha256(key).hexdigest()

  /** The round-trip law `Dec(k, Enc(k, p)) == p`. */
  ghost predicate Sound(p: Primitives) {
    forall k, t :: p.decrypt(k, p.encrypt(k, t)) == Some(t)
  }

  const MinPlaintextLength := 8
  const WeakPlaintext := "Password must be at least 8 characters"
  const NoKeyLoaded := "no key loaded"

  class EncryptionService {
    const primitives: Primitives
    /** The key `load_key` made active, if any. */
    var key: Option<Key>

    ghost predicate Valid() {
      Sound(primitives)
    }

    constructor (primitives: Primitives)
      requires Sound(primitives)
      ensures Valid() && this.primitives == primitives && key == None
    {
      this.primitives := primitives;
      key := None;
    }

    /** `load_key(key)`: makes `k` the active key. */
    method LoadKey(k: Key)
      modifies this
      ensures key == Some(k)
    {
      key := Some(k);
    }

    /** `encrypt(plain_text)` under the active key; a plaintext shorter than
        eight characters is refused before the key is used. */
    function Encrypt(plainText: string): (r: Result<string>)
      reads this
      ensures r.Ok? <==> key.Some? && |plainText| >= MinPlaintextLength
      ensures |plainText| < MinPlaintextLength ==> r == Err(ValueError(WeakPlaintext))
      ensures |plainText| >= MinPlaintextLength && key.None? ==> r == Err(TypeError(NoKeyLoaded))
      ensures r.Ok? && Valid() ==> primitives.decrypt(key.value, r.value) == Some(plainText)
    {
      if |plainText| < MinPlaintextLength then Err(ValueError(WeakPlaintext))
      else if key.None? then Err(TypeError(NoKeyLoaded))
      else Ok(primitives.encrypt(key.value, plainText))
    }

    /** `decrypt(encrypted_text)` under the active key; a token that does not
        verify raises `InvalidToken`. */
    function Decrypt(token: string): (r: Result<string>)
      reads this
      ensures r.Ok? <==> key.Some? && primitives.decrypt(key.value, token).Some?
      ensures r.Ok? ==> primitives.decrypt(key.value, token) == Some(r.value)
      ensures key.Some? && primitives.decrypt(key.value, token).None? ==> r == Err(InvalidToken)
      ensures key.None? ==> r == Err(TypeError(NoKeyLoaded))
    {
      if key.None? then Err(TypeError(NoKeyLoaded))
      else match primitives.decrypt(key.value, token)
        case None => Err(InvalidToken)
        case Some(p) => Ok(p)
    }

    /** What `encrypt` produced, `decrypt` turns back into the plaintext. */
    lemma DecryptEncrypt(plainText: string)
      requires Valid() && Encrypt(plainText).Ok?
      ensures Decrypt(Encrypt(plainText).value) == Ok(plainText)
    {
    }
  }
}
