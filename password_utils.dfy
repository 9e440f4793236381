/**
 * Password hashing for the credential store: PBKDF2-HMAC-SHA256
 * (RFC 8018, section 5.2) with a random salt, both kept as lower-case hex.
 * The key derivation itself is the parameter `derive`, standing for Node's
 * crypto.pbkdf2 with the 'sha256' digest; the random salt bytes are a parameter.
 */
module PasswordUtils {
  import opened Wrappers
  import opened Hex

  /** PASSWORD_LENGTH: bytes of derived key. */
  const PasswordLength: nat := 256
  /** SALT_LENGTH: random bytes of salt. */
  const SaltLength: nat := 64
  /** ITERATIONS: PBKDF2 iteration count for new credentials. */
  const Iterations: nat := 10000

  /** The error crypto.pbkdf2 reports to its callback. */
  datatype CryptoError = CryptoError(message: string)

  /**
   * crypto.pbkdf2(password, salt, iterations, keyLength, 'sha256'): the derived
   * key, or an error. A string salt is used as the bytes of the string.
   */
  type Kdf = (string, string, int, nat) -> Result<seq<byte>, CryptoError>

  /** PBKDF2 yields exactly as many bytes as it is asked for. */
  ghost predicate HonoursKeyLength(derive: Kdf) {
    forall password, salt, iterations, keyLength ::
      derive(password, salt, iterations, keyLength).Ok? ==>
        |derive(password, salt, iterations, keyLength).value| == keyLength
  }

  /** The stored form of a password. */
  datatype PersistedPassword = PersistedPassword(salt: string, hash: string, iterations: int)

  /**
   * generateHashPassword: the salt is the hex text of `randomSalt`, and that
   * text (not the raw bytes) is what is passed to the derivation.
   * A derivation error rejects.
   */
  function GenerateHashPassword(derive: Kdf, password: string, randomSalt: seq<byte>)
    : (r: Result<PersistedPassword, CryptoError>)
    requires |randomSalt| == SaltLength
    ensures r.Err? <==> derive(password, HexEncode(randomSalt), Iterations, PasswordLength).Err?
    ensures r.Err? ==> r.error == derive(password, HexEncode(randomSalt), Iterations, PasswordLength).error
    ensures r.Ok? ==> r.value.iterations == Iterations
    ensures r.Ok? ==> r.value.salt == HexEncode(randomSalt) && |r.value.salt| == 2 * SaltLength
    ensures r.Ok? ==> HexDecode(r.value.salt) == Some(randomSalt)
    ensures r.Ok? ==> HexDecode(r.value.hash) == Some(derive(password, HexEncode(randomSalt), Iterations, PasswordLength).value)
    ensures r.Ok? && HonoursKeyLength(derive) ==> |r.value.hash| == 2 * PasswordLength
  {
    var salt := HexEncode(randomSalt);
    match derive(password, salt, Iterations, PasswordLength)
    case Err(e) => Err(e)
    case Ok(key) =>
      DecodeEncode(randomSalt);
      DecodeEncode(key);
      Ok(PersistedPassword(salt, HexEncode(key), Iterations))
  }

  /**
   * isPasswordCorrect: derive a key from the attempt with the saved salt and
   * iteration count and compare its hex text with the saved hash. The answer is
   * yes exactly when the saved hash encodes the derived key; a derivation
   * error rejects and is never an answer.
   */
  function IsPasswordCorrect(derive: Kdf, savedHash: string, savedSalt: string, savedIterations: int, passwordAttempt: string)
    : (r: Result<bool, CryptoError>)
    ensures r.Err? <==> derive(passwordAttempt, savedSalt, savedIterations, PasswordLength).Err?
    ensures r.Err? ==> r.error == derive(passwordAttempt, savedSalt, savedIterations, PasswordLength).error
    ensures r.Ok? ==>
      (r.value <==> HexDecode(savedHash) == Some(derive(passwordAttempt, savedSalt, savedIterations, PasswordLength).value))
  {
    match derive(passwordAttempt, savedSalt, savedIterations, PasswordLength)
    case Err(e) => Err(e)
    case Ok(key) =>
      DecodeIffEncoding(savedHash, key);
      Ok(savedHash == HexEncode(key))
  }

  /** A freshly generated record accepts the password it was generated from. */
  lemma GeneratedPasswordVerifies(derive: Kdf, password: string, randomSalt: seq<byte>)
    requires |randomSalt| == SaltLength
    requires GenerateHashPassword(derive, password, randomSalt).Ok?
    ensures var rec := GenerateHashPassword(derive, password, randomSalt).value;
      IsPasswordCorrect(derive, rec.hash, rec.salt, rec.iterations, password) == Ok(true)
  {
  }

  /**
   * A generated record accepts an attempt only when the attempt derives the very
   * same key as the original password under the recorded salt and iteration count.
   */
  lemma AcceptedAttemptDerivesSameKey(derive: Kdf, password: string, randomSalt: seq<byte>, attempt: string)
    requires |randomSalt| == SaltLength
    requires GenerateHashPassword(derive, password, randomSalt).Ok?
    requires var rec := GenerateHashPassword(derive, password, randomSalt).value;
      IsPasswordCorrect(derive, rec.hash, rec.salt, rec.iterations, attempt) == Ok(true)
    ensures var rec := GenerateHashPassword(derive, password, randomSalt).value;
      derive(attempt, rec.salt, rec.iterations, PasswordLength) == derive(password, rec.salt, rec.iterations, PasswordLength)
  {
  }
}
