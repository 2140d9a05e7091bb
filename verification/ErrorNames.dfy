/** Error codes travel by name. */
module ErrorNames {
  import opened Base
  import opened Codec
  import Utf8

  lemma {:induction false} PlainIsText(text: seq<byte>)
    requires forall i | 0 <= i < |text| :: 0 < text[i] < 0x80
    ensures IsText(text)
    decreases |text|
  {
    if |text| > 0 {
      assert Utf8.CharLength(text) == 1;
      PlainIsText(text[1..]);
      assert forall b | b in text :: b != 0;
    }
  }

  const ALL_CODES: seq<ErrorCode> := [
    CodeOk, InvalidArgument, NotFound, AlreadyExists, PermissionDenied, NotAuthenticated,
    AuthenticationFailed, ConnectionFailed, ConnectionTimeout, RemotePortInUse, LocalConnectFailed,
    ProtocolError, FrameTooLarge, UnsupportedVersion, ResourceExhausted, DatabaseError, TlsError,
    IpcError, InternalError]

  function CodeName(code: ErrorCode): string {
    match code
    case CodeOk => "ok"
    case InvalidArgument => "invalid_argument"
    case NotFound => "not_found"
    case AlreadyExists => "already_exists"
    case PermissionDenied => "permission_denied"
    case NotAuthenticated => "not_authenticated"
    case AuthenticationFailed => "authentication_failed"
    case ConnectionFailed => "connection_failed"
    case ConnectionTimeout => "connection_timeout"
    case RemotePortInUse => "remote_port_in_use"
    case LocalConnectFailed => "local_connect_failed"
    case ProtocolError => "protocol_error"
    case FrameTooLarge => "frame_too_large"
    case UnsupportedVersion => "unsupported_version"
    case ResourceExhausted => "resource_exhausted"
    case DatabaseError => "database_error"
    case TlsError => "tls_error"
    case IpcError => "ipc_error"
    case InternalError => "internal_error"
  }

  function CodeText(code: ErrorCode): seq<byte> {
    Plain(CodeName(code))
  }

  function Letter(c: char): (b: byte)
    ensures 0 < b < 0x80
  {
    if 0 < c as int < 0x80 then c as int else 0x3F
  }

  /** The bytes of an ASCII name. */
  function Plain(s: string): (t: seq<byte>)
    ensures |t| == |s| && forall i | 0 <= i < |s| :: t[i] == Letter(s[i])
  {
    if |s| == 0 then [] else [Letter(s[0])] + Plain(s[1..])
  }

  function FirstCode(text: seq<byte>, codes: seq<ErrorCode>): Option<ErrorCode> {
    if |codes| == 0 then None
    else if text == CodeText(codes[0]) then Some(codes[0])
    else FirstCode(text, codes[1..])
  }

  /** `error_code_from_string`. */
  function CodeFromText(text: seq<byte>): Option<ErrorCode> {
    FirstCode(text, ALL_CODES)
  }

  /** Length, first and third letter tell the names apart. */
  function Signature(code: ErrorCode): (nat, char, char) {
    match code
    case CodeOk => (2, 'o', 'o')
    case InvalidArgument => (16, 'i', 'v')
    case NotFound => (9, 'n', 't')
    case AlreadyExists => (14, 'a', 'r')
    case PermissionDenied => (17, 'p', 'r')
    case NotAuthenticated => (17, 'n', 't')
    case AuthenticationFailed => (21, 'a', 't')
    case ConnectionFailed => (17, 'c', 'n')
    case ConnectionTimeout => (18, 'c', 'n')
    case RemotePortInUse => (18, 'r', 'm')
    case LocalConnectFailed => (20, 'l', 'c')
    case ProtocolError => (14, 'p', 'o')
    case FrameTooLarge => (15, 'f', 'a')
    case UnsupportedVersion => (19, 'u', 's')
    case ResourceExhausted => (18, 'r', 's')
    case DatabaseError => (14, 'd', 't')
    case TlsError => (9, 't', 's')
    case IpcError => (9, 'i', 'c')
    case InternalError => (14, 'i', 't')
  }

  ghost predicate Signs(text: seq<byte>, code: ErrorCode) {
    var (length, first, third) := Signature(code);
    |text| == length && text[0] == Letter(first) && (length > 2 ==> text[2] == Letter(third))
  }

  ghost predicate NameSigns(name: string, code: ErrorCode) {
    var (length, first, third) := Signature(code);
    |name| == length && name[0] == first && (length > 2 ==> name[2] == third)
  }

  lemma NameHasSignature(code: ErrorCode)
    ensures NameSigns(CodeName(code), code)
  {
  }

  lemma PlainSigns(name: string, code: ErrorCode)
    requires NameSigns(name, code)
    ensures Signs(Plain(name), code)
  {
  }

  lemma TextHasSignature(code: ErrorCode)
    ensures Signs(CodeText(code), code)
  {
    NameHasSignature(code);
    PlainSigns(CodeName(code), code);
  }

  lemma SignaturesDiffer(a: ErrorCode, b: ErrorCode, text: seq<byte>)
    requires Signs(text, a) && Signs(text, b)
    ensures a == b
  {
  }

  lemma NamesDiffer(a: ErrorCode, b: ErrorCode, text: seq<byte>)
    requires CodeText(a) == text == CodeText(b)
    ensures a == b
  {
    TextHasSignature(a);
    TextHasSignature(b);
    SignaturesDiffer(a, b, text);
  }

  lemma {:induction false} FirstCodeFinds(code: ErrorCode, codes: seq<ErrorCode>)
    requires code in codes
    ensures FirstCode(CodeText(code), codes) == Some(code)
  {
    if CodeText(code) == CodeText(codes[0]) {
      NamesDiffer(code, codes[0], CodeText(code));
    } else {
      FirstCodeFinds(code, codes[1..]);
    }
  }

  lemma CodeRoundTrip(code: ErrorCode)
    ensures CodeFromText(CodeText(code)) == Some(code)
  {
    FirstCodeFinds(code, ALL_CODES);
  }

  lemma {:induction false} CodeIsCanonical(text: seq<byte>, codes: seq<ErrorCode>)
    requires FirstCode(text, codes).Some?
    ensures CodeText(FirstCode(text, codes).value) == text
  {
    if text != CodeText(codes[0]) {
      CodeIsCanonical(text, codes[1..]);
    }
  }

  lemma CodeTextIsText(code: ErrorCode)
    ensures IsText(CodeText(code)) && |CodeText(code)| <= 64
  {
    TextHasSignature(code);
    AnyPlainIsText(CodeName(code));
  }

  lemma AnyPlainIsText(s: string)
    ensures IsText(Plain(s))
  {
    PlainIsText(Plain(s));
  }

  /** The name of a failure. */
  ghost predicate IsFailure(text: seq<byte>) {
    exists code: ErrorCode :: !code.CodeOk? && CodeText(code) == text
  }

  lemma FailureIsText(text: seq<byte>)
    requires IsFailure(text)
    ensures IsText(text) && |text| <= 64
  {
    var code: ErrorCode :| !code.CodeOk? && CodeText(code) == text;
    CodeTextIsText(code);
  }

  lemma FailureHasCode(text: seq<byte>)
    requires IsFailure(text)
    ensures CodeFromText(text).Some? && CodeFromText(text) != Some(CodeOk)
  {
    var code: ErrorCode :| !code.CodeOk? && CodeText(code) == text;
    CodeRoundTrip(code);
  }

  /** The names the decoders accept are those of failures. */
  lemma AcceptedIsFailure(text: seq<byte>, code: ErrorCode)
    requires CodeFromText(text) == Some(code) && !code.CodeOk?
    ensures IsFailure(text)
  {
    CodeIsCanonical(text, ALL_CODES);
  }
}
