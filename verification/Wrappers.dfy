/** Optional values and the error outcomes of the sharing and crypto layers. */
module Wrappers {

  datatype Option<+T> = None | Some(value: T)

  datatype Result<+T> = Ok(value: T) | Err(error: Error)

  /** The error kinds a caller can tell apart. Message texts are not modelled;
      `Panicked` stands for a Rust panic. */
  datatype Error =
    | AuthenticationFailed
    | MalformedSharePackage
    | InvalidJsonPayload
    | InvalidFileKeyLength(length: nat)
    | InvalidSenderPublicKeyLength(length: nat)
    | InvalidSharePackage
    | InvalidBlobFormat(expected: nat, actual: nat)
    | EncryptionFailed
    | KeyWrapFailed
    | DecryptionFailed
    | ChecksumMismatch
    | ContactNotFound
    | ShareNotFound
    | ReceivedShareNotFound
    | ShareAlreadyRevoked
    | RevocationPartial(failedIndex: nat)
    | NotSupported
    | CloudOperation
    | ConstraintViolation
    | Io
    | Backend
    | InvalidInput
    | Internal
    | Panicked
}
