/** Value types shared by every part of the model. */
module Base {

  datatype Option<+T> = None | Some(value: T)

  /** The source's `Result<T>`; the text of an error is not modelled. */
  datatype Result<+T> = Ok(value: T) | Err(code: ErrorCode)

  datatype ErrorCode =
    | CodeOk
    | InvalidArgument
    | NotFound
    | AlreadyExists
    | PermissionDenied
    | NotAuthenticated
    | AuthenticationFailed
    | ConnectionFailed
    | ConnectionTimeout
    | RemotePortInUse
    | LocalConnectFailed
    | ProtocolError
    | FrameTooLarge
    | UnsupportedVersion
    | ResourceExhausted
    | DatabaseError
    | TlsError
    | IpcError
    | InternalError

  type byte = x: int | 0 <= x < 0x100
  type u16 = x: int | 0 <= x < 0x1_0000
  type u32 = x: int | 0 <= x < 0x1_0000_0000
  type u64 = x: int | 0 <= x < 0x1_0000_0000_0000_0000

  function Min(a: int, b: int): int {
    if a <= b then a else b
  }

  function Max(a: int, b: int): int {
    if a <= b then b else a
  }

  lemma Associative<T>(a: seq<T>, b: seq<T>, c: seq<T>)
    ensures a + b + c == a + (b + c)
  {
  }
}
