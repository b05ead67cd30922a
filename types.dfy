/** Values shared by every layer of the certificate cache: bytes, the error
    values the layers distinguish, and the two result shapes of Go's
    `([]byte, error)` and `error` returns. */
module Types {

  type Byte = bv8

  datatype Option<+T> = None | Some(value: T)

  /** A `([]byte, error)`-style return: a value, or an error and no value. */
  datatype Result<+T> = Ok(value: T) | Err(error: Error)

  /** An `error`-only return: nil (`Pass`) or an error. */
  datatype Outcome = Pass | Fail(error: Error)

  /** The errors the core produces or passes through. */
  datatype Error =
    | CacheMiss                   // autocert.ErrCacheMiss, the "key absent" signal
    | BackendFault(code: nat)     // any transport or storage failure of a backend
    | RandomSourceFailed          // crypto/rand could not fill the IV
    | KeySizeError(size: nat)     // aes.NewCipher: key is not 16, 24 or 32 bytes
    | CiphertextTooShort          // payload shorter than one AES block
    | CorruptInput                // base64 decode failure
    | UnsupportedDriver           // SQL driver type not recognised
    | SyntaxError                 // strconv: not a number / not a boolean
    | RangeError                  // strconv: number does not fit in 64 bits
    | ConfigError(message: string) // a missing or invalid factory option
    | Wrapped(context: string, cause: Error) // fmt.Errorf("<context>: %s", cause)
}
