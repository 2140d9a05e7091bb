/** The messages of the remote protocol: payloads to messages and back. */
module Messages {
  import opened Base
  import opened BigEndian
  import opened Codec
  import opened ErrorNames
  import T = Trace

  type i64 = x: int | -0x8000_0000_0000_0000 <= x < 0x8000_0000_0000_0000

  // ---------- Identifiers ----------

  datatype IdKind = ServerKind | TunnelKind | RequestKind | ClientKind | ConnectionKind

  function Prefix(kind: IdKind): seq<byte> {
    match kind
    case ServerKind => [0x73, 0x72, 0x76, 0x5F]
    case TunnelKind => [0x74, 0x75, 0x6E, 0x5F]
    case RequestKind => [0x72, 0x65, 0x71, 0x5F]
    case ClientKind => [0x63, 0x6C, 0x69, 0x65, 0x6E, 0x74, 0x5F]
    case ConnectionKind => [0x63, 0x6F, 0x6E, 0x6E, 0x5F]
  }

  predicate IsHex(b: byte) {
    0x30 <= b <= 0x39 || 0x61 <= b <= 0x66
  }

  /** The prefix of the kind and 32 lower-case hexadecimal digits. */
  predicate IsId(kind: IdKind, text: seq<byte>) {
    && |text| == |Prefix(kind)| + 32
    && text[..|Prefix(kind)|] == Prefix(kind)
    && forall i | |Prefix(kind)| <= i < |text| :: IsHex(text[i])
  }

  lemma IdIsText(kind: IdKind, text: seq<byte>)
    requires IsId(kind, text)
    ensures IsText(text) && |text| <= 64
  {
    forall i | 0 <= i < |text|
      ensures 0 < text[i] < 0x80
    {
      if i < |Prefix(kind)| {
        assert text[i] == Prefix(kind)[i];
      }
    }
    PlainIsText(text);
  }

  // ---------- Messages ----------

  datatype Kind =
    | HelloKind | HelloAckKind | AuthKind | AuthOkKind | AuthErrorKind | HeartbeatKind
    | RegisterKind | RegisterOkKind | RegisterErrorKind | UnregisterKind | UnregisterOkKind
    | RequestWorkersKind | WorkerHelloKind | WorkerAcceptedKind | StartRelayKind
    | LocalOkKind | LocalErrorKind

  type TextBytes = seq<byte>

  datatype Message =
    | Hello(clientId: TextBytes, capabilities: u64)
    | HelloAck(serverId: TextBytes, time: i64, nonce: seq<byte>, selected: u64)
    | Auth(clientId: TextBytes, time: i64, nonce: seq<byte>, proof: seq<byte>, selected: u64)
    | AuthOk(generation: u64, heartbeat: u32, minWorkers: u16, maxWorkers: u16)
    // Error codes stand here by their names.
    | AuthError(reason: TextBytes)
    | Heartbeat(sequence: u64)
    | Register(tunnelId: TextBytes, host: TextBytes, port: u16, revision: u64, mode: T.Mode)
    | RegisterOk(tunnelId: TextBytes, revision: u64)
    | RegisterError(tunnelId: TextBytes, reason: TextBytes, revision: u64)
    | Unregister(tunnelId: TextBytes, revision: u64)
    | UnregisterOk(tunnelId: TextBytes, revision: u64)
    | RequestWorkers(count: u16)
    | WorkerHello(clientId: TextBytes, generation: u64, workerId: TextBytes, time: i64,
                  nonce: seq<byte>, proof: seq<byte>)
    | WorkerAccepted(workerId: TextBytes)
    | StartRelay(tunnelId: TextBytes, connectionId: TextBytes, mode: T.Mode,
                 sourceHost: Option<TextBytes>, sourcePort: Option<u16>, observed: Option<TextBytes>)
    | LocalOk(connectionId: TextBytes)
    | LocalError(connectionId: TextBytes, reason: TextBytes)

  function KindOf(m: Message): Kind {
    match m
    case Hello(_, _) => HelloKind
    case HelloAck(_, _, _, _) => HelloAckKind
    case Auth(_, _, _, _, _) => AuthKind
    case AuthOk(_, _, _, _) => AuthOkKind
    case AuthError(_) => AuthErrorKind
    case Heartbeat(_) => HeartbeatKind
    case Register(_, _, _, _, _) => RegisterKind
    case RegisterOk(_, _) => RegisterOkKind
    case RegisterError(_, _, _) => RegisterErrorKind
    case Unregister(_, _) => UnregisterKind
    case UnregisterOk(_, _) => UnregisterOkKind
    case RequestWorkers(_) => RequestWorkersKind
    case WorkerHello(_, _, _, _, _, _) => WorkerHelloKind
    case WorkerAccepted(_) => WorkerAcceptedKind
    case StartRelay(_, _, _, _, _, _) => StartRelayKind
    case LocalOk(_) => LocalOkKind
    case LocalError(_, _) => LocalErrorKind
  }

  const ID_BYTES: nat := 64
  const CODE_BYTES: nat := 64
  const HOST_BYTES: nat := 253
  const NONCE_BYTES: nat := 32

  /** The fields every payload of a kind begins with. */
  function Shapes(kind: Kind): seq<Shape> {
    match kind
    case HelloKind => [Text(ID_BYTES), EightBytes]
    case HelloAckKind => [Text(ID_BYTES), EightBytes, Fixed(NONCE_BYTES), EightBytes]
    case AuthKind =>
      [Text(ID_BYTES), EightBytes, Fixed(NONCE_BYTES), Fixed(NONCE_BYTES), EightBytes]
    case AuthOkKind => [EightBytes, FourBytes, TwoBytes, TwoBytes]
    case AuthErrorKind => [Text(CODE_BYTES)]
    case HeartbeatKind => [EightBytes]
    case RegisterKind => [Text(ID_BYTES), Text(HOST_BYTES), TwoBytes, EightBytes]
    case RegisterOkKind => [Text(ID_BYTES), EightBytes]
    case RegisterErrorKind => [Text(ID_BYTES), Text(CODE_BYTES), EightBytes]
    case UnregisterKind => [Text(ID_BYTES), EightBytes]
    case UnregisterOkKind => [Text(ID_BYTES), EightBytes]
    case RequestWorkersKind => [TwoBytes]
    case WorkerHelloKind =>
      [Text(ID_BYTES), EightBytes, Text(ID_BYTES), EightBytes, Fixed(NONCE_BYTES), Fixed(NONCE_BYTES)]
    case WorkerAcceptedKind => [Text(ID_BYTES)]
    case StartRelayKind => [Text(ID_BYTES), Text(ID_BYTES)]
    case LocalOkKind => [Text(ID_BYTES)]
    case LocalErrorKind => [Text(ID_BYTES), Text(CODE_BYTES)]
  }

  function ToBits(t: i64): u64 {
    if t < 0 then t + 0x1_0000_0000_0000_0000 else t
  }

  function FromBits(v: u64): i64 {
    if v >= 0x8000_0000_0000_0000 then v - 0x1_0000_0000_0000_0000 else v
  }

  function Body(m: Message): seq<Value> {
    match m
    case Hello(id, capabilities) => [Blob(id), Long(capabilities)]
    case HelloAck(id, time, nonce, selected) =>
      [Blob(id), Long(ToBits(time)), Blob(nonce), Long(selected)]
    case Auth(id, time, nonce, proof, selected) =>
      [Blob(id), Long(ToBits(time)), Blob(nonce), Blob(proof), Long(selected)]
    case AuthOk(generation, heartbeat, least, most) =>
      [Long(generation), Word(heartbeat), Short(least), Short(most)]
    case AuthError(reason) => [Blob(reason)]
    case Heartbeat(sequence) => [Long(sequence)]
    case Register(id, host, port, revision, mode) =>
      [Blob(id), Blob(host), Short(port), Long(revision)]
    case RegisterOk(id, revision) => [Blob(id), Long(revision)]
    case RegisterError(id, reason, revision) => [Blob(id), Blob(reason), Long(revision)]
    case Unregister(id, revision) => [Blob(id), Long(revision)]
    case UnregisterOk(id, revision) => [Blob(id), Long(revision)]
    case RequestWorkers(count) => [Short(count)]
    case WorkerHello(id, generation, worker, time, nonce, proof) =>
      [Blob(id), Long(generation), Blob(worker), Long(ToBits(time)), Blob(nonce), Blob(proof)]
    case WorkerAccepted(id) => [Blob(id)]
    case StartRelay(id, connection, mode, host, port, observed) => [Blob(id), Blob(connection)]
    case LocalOk(id) => [Blob(id)]
    case LocalError(id, reason) => [Blob(id), Blob(reason)]
  }

  // ---------- Extensions ----------

  function ModeByte(mode: T.Mode): byte {
    match mode
    case Tcp => 0
    case Udp => 1
    case Socks5 => 2
    case P2p => 3
  }

  function ModeFrom(b: byte): Option<T.Mode> {
    if b == 0 then Some(T.Tcp) else if b == 1 then Some(T.Udp)
    else if b == 2 then Some(T.Socks5) else if b == 3 then Some(T.P2p) else None
  }

  /** TCP has one image: no byte at all. */
  function ModeImage(mode: T.Mode): seq<byte> {
    if mode.Tcp? then [] else [ModeByte(mode)]
  }

  function ReadMode(rest: seq<byte>): Option<T.Mode> {
    if |rest| == 0 then Some(T.Tcp)
    else if |rest| == 1 && rest[0] != 0 then ModeFrom(rest[0]) else None
  }

  lemma ModeRoundTrip(mode: T.Mode)
    ensures ReadMode(ModeImage(mode)) == Some(mode)
  {
  }

  lemma ModeIsCanonical(rest: seq<byte>)
    requires ReadMode(rest).Some?
    ensures ModeImage(ReadMode(rest).value) == rest
  {
  }

  datatype Source = Source(host: TextBytes, port: u16, observed: Option<TextBytes>)

  datatype Tail = Tail(mode: T.Mode, source: Option<Source>)

  function SourceImage(s: Source): seq<byte>
    requires |s.host| <= 0xFFFF && (s.observed.Some? ==> |s.observed.value| <= 0xFFFF)
  {
    Images([Blob(s.host), Short(s.port)])
    + if s.observed.Some? then Image(Blob(s.observed.value)) else []
  }

  /** With a source the mode byte is explicit, even for TCP. */
  function TailImage(t: Tail): seq<byte>
    requires t.source.Some? ==>
               && |t.source.value.host| <= 0xFFFF
               && (t.source.value.observed.Some? ==> |t.source.value.observed.value| <= 0xFFFF)
  {
    if t.source.None? then ModeImage(t.mode)
    else [ModeByte(t.mode)] + SourceImage(t.source.value)
  }

  predicate AddressOk(host: TextBytes, address: seq<byte> -> bool) {
    |host| <= HOST_BYTES && IsText(host) && address(host)
  }

  predicate SourceOk(s: Source, address: seq<byte> -> bool) {
    AddressOk(s.host, address) && s.port != 0 && (s.observed.Some? ==> AddressOk(s.observed.value, address))
  }

  function ReadSource(input: seq<byte>, address: seq<byte> -> bool): Option<Source> {
    var first := ReadAll([Text(HOST_BYTES), TwoBytes], input);
    if first.None? then None
    else
      ReadAllCanonical([Text(HOST_BYTES), TwoBytes], input);
      var host, port, rest := first.value.0[0].bytes, first.value.0[1].s, first.value.1;
      if port == 0 || !address(host) then None
      else if rest == [] then Some(Source(host, port, None))
      else
        var second := Read(Text(HOST_BYTES), rest);
        if second.None? || second.value.1 != [] || !address(second.value.0.bytes) then None
        else Some(Source(host, port, Some(second.value.0.bytes)))
  }

  function ReadTail(rest: seq<byte>, address: seq<byte> -> bool): Option<Tail> {
    if |rest| <= 1 then
      var mode := ReadMode(rest);
      if mode.None? then None else Some(Tail(mode.value, None))
    else
      var mode, source := ModeFrom(rest[0]), ReadSource(rest[1..], address);
      if mode.None? || source.None? then None else Some(Tail(mode.value, source))
  }

  lemma SourceRoundTrip(s: Source, address: seq<byte> -> bool)
    requires SourceOk(s, address)
    ensures ReadSource(SourceImage(s), address) == Some(s) && |SourceImage(s)| > 0
  {
    var body := [Blob(s.host), Short(s.port)];
    var more := if s.observed.Some? then Image(Blob(s.observed.value)) else [];
    ReadAllImages(body, [Text(HOST_BYTES), TwoBytes], more);
    if s.observed.Some? {
      ReadImage(Blob(s.observed.value), Text(HOST_BYTES), []);
      assert more + [] == more;
    }
  }

  lemma SourceIsCanonical(input: seq<byte>, address: seq<byte> -> bool)
    requires ReadSource(input, address).Some?
    ensures SourceOk(ReadSource(input, address).value, address)
    ensures SourceImage(ReadSource(input, address).value) == input
  {
    var shapes := [Text(HOST_BYTES), TwoBytes];
    ReadAllCanonical(shapes, input);
    var (vs, rest) := ReadAll(shapes, input).value;
    var s := ReadSource(input, address).value;
    assert Fits(vs[0], shapes[0]) && Fits(vs[1], shapes[1]);
    assert vs == [Blob(s.host), Short(s.port)];
    if s.observed.Some? {
      ReadCanonical(Text(HOST_BYTES), rest);
      assert Image(Blob(s.observed.value)) + [] == rest;
    }
  }

  lemma TailRoundTrip(t: Tail, address: seq<byte> -> bool)
    requires t.source.Some? ==> SourceOk(t.source.value, address)
    ensures ReadTail(TailImage(t), address) == Some(t)
  {
    if t.source.None? {
      ModeRoundTrip(t.mode);
    } else {
      SourceRoundTrip(t.source.value, address);
      assert TailImage(t)[1..] == SourceImage(t.source.value);
    }
  }

  lemma TailIsCanonical(rest: seq<byte>, address: seq<byte> -> bool)
    requires ReadTail(rest, address).Some?
    ensures var t := ReadTail(rest, address).value;
            (t.source.Some? ==> SourceOk(t.source.value, address)) && TailImage(t) == rest
  {
    if |rest| <= 1 {
      ModeIsCanonical(rest);
    } else {
      SourceIsCanonical(rest[1..], address);
      assert rest == [rest[0]] + rest[1..];
    }
  }

  // ---------- Validity ----------

  /** Bits 0 to 2 are required; of the others 3 and 5 to 10 are known. */
  predicate Offers(capabilities: u64) {
    capabilities % 8 == 7
  }

  predicate Selects(capabilities: u64) {
    Offers(capabilities) && capabilities < 0x800 && capabilities / 0x10 % 2 == 0
  }

  ghost function SourceOf(m: Message): Option<Source>
    requires m.StartRelay?
  {
    if m.sourceHost.Some? && m.sourcePort.Some?
    then Some(Source(m.sourceHost.value, m.sourcePort.value, m.observed)) else None
  }

  /** What a relay message's optional parts must look like to be written at all. */
  predicate PartsFit(m: Message)
    requires m.StartRelay?
  {
    && m.sourceHost.Some? == m.sourcePort.Some? && (m.observed.Some? ==> m.sourceHost.Some?)
    && (m.sourceHost.Some? ==> IsText(m.sourceHost.value) && |m.sourceHost.value| <= 0xFFFF)
    && (m.observed.Some? ==> IsText(m.observed.value) && |m.observed.value| <= 0xFFFF)
  }

  /** What the encoder checks. */
  ghost predicate Encodable(m: Message) {
    match m
    case Hello(id, capabilities) => IsId(ClientKind, id) && Offers(capabilities)
    case HelloAck(id, time, nonce, selected) =>
      IsId(ServerKind, id) && |nonce| == NONCE_BYTES && Selects(selected)
    case Auth(id, time, nonce, proof, selected) =>
      IsId(ClientKind, id) && |nonce| == NONCE_BYTES && |proof| == NONCE_BYTES && Selects(selected)
    case AuthOk(generation, heartbeat, least, most) =>
      generation != 0 && 1000 <= heartbeat <= 60000 && least <= most <= 128
    case AuthError(reason) => IsFailure(reason)
    case Heartbeat(sequence) => true
    case Register(id, host, port, revision, mode) =>
      && IsId(TunnelKind, id) && 0 < |host| <= HOST_BYTES && IsText(host) && port != 0 && revision != 0
    case RegisterOk(id, revision) => IsId(TunnelKind, id) && revision != 0
    case RegisterError(id, reason, revision) =>
      IsId(TunnelKind, id) && IsFailure(reason) && revision != 0
    case Unregister(id, revision) => IsId(TunnelKind, id) && revision != 0
    case UnregisterOk(id, revision) => IsId(TunnelKind, id) && revision != 0
    case RequestWorkers(count) => 1 <= count <= 128
    case WorkerHello(id, generation, worker, time, nonce, proof) =>
      && IsId(ClientKind, id) && generation != 0 && IsId(ConnectionKind, worker)
      && |nonce| == NONCE_BYTES && |proof| == NONCE_BYTES
    case WorkerAccepted(id) => IsId(ConnectionKind, id)
    case StartRelay(id, connection, mode, host, port, observed) =>
      IsId(TunnelKind, id) && IsId(ConnectionKind, connection) && PartsFit(m)
    case LocalOk(id) => IsId(ConnectionKind, id)
    case LocalError(id, reason) => IsId(ConnectionKind, id) && IsFailure(reason)
  }

  /** What the decoder insists on beyond that: numeric addresses and a port. */
  ghost predicate RelayOk(m: Message, address: seq<byte> -> bool) {
    m.StartRelay? && SourceOf(m).Some? ==> SourceOk(SourceOf(m).value, address)
  }

  ghost predicate Valid(m: Message, address: seq<byte> -> bool) {
    Encodable(m) && RelayOk(m, address)
  }

  /** Messages with at least one identifier, and the first of them. */
  ghost function FirstId(m: Message): Option<(IdKind, TextBytes)> {
    match m
    case Hello(id, _) => Some((ClientKind, id))
    case HelloAck(id, _, _, _) => Some((ServerKind, id))
    case Auth(id, _, _, _, _) => Some((ClientKind, id))
    case Register(id, _, _, _, _) => Some((TunnelKind, id))
    case RegisterOk(id, _) => Some((TunnelKind, id))
    case RegisterError(id, _, _) => Some((TunnelKind, id))
    case Unregister(id, _) => Some((TunnelKind, id))
    case UnregisterOk(id, _) => Some((TunnelKind, id))
    case WorkerHello(id, _, _, _, _, _) => Some((ClientKind, id))
    case WorkerAccepted(id) => Some((ConnectionKind, id))
    case StartRelay(id, _, _, _, _, _) => Some((TunnelKind, id))
    case LocalOk(id) => Some((ConnectionKind, id))
    case LocalError(id, _) => Some((ConnectionKind, id))
    case _ => None
  }

  predicate HasReason(m: Message) {
    m.AuthError? || m.RegisterError? || m.LocalError?
  }

  lemma ReasonFits(m: Message)
    requires HasReason(m) && Encodable(m)
    ensures IsText(m.reason) && |m.reason| <= 64
  {
    FailureIsText(m.reason);
  }

  lemma IdsFit(m: Message)
    requires Encodable(m)
    ensures FirstId(m).Some? ==> IsText(FirstId(m).value.1) && |FirstId(m).value.1| <= 64
    ensures m.WorkerHello? ==> IsText(m.workerId) && |m.workerId| <= 64
    ensures m.StartRelay? ==> IsText(m.connectionId) && |m.connectionId| <= 64
  {
    var first := FirstId(m);
    if first.Some? {
      IdIsText(first.value.0, first.value.1);
    }
    if m.WorkerHello? {
      IdIsText(ConnectionKind, m.workerId);
    } else if m.StartRelay? {
      IdIsText(ConnectionKind, m.connectionId);
    }
  }

  lemma BodyFits(m: Message)
    requires Encodable(m)
    ensures FitsAll(Body(m), Shapes(KindOf(m)))
  {
    if |Body(m)| <= 2 {
      ShortBodyFits(m);
    } else {
      LongBodyFits(m);
    }
  }

  lemma ShortBodyFits(m: Message)
    requires Encodable(m) && |Body(m)| <= 2
    ensures FitsAll(Body(m), Shapes(KindOf(m)))
  {
    if |Body(m)| == 2 {
      TwoFit(m);
    } else {
      OneFits(m);
    }
  }

  lemma OneFits(m: Message)
    requires Encodable(m) && |Body(m)| < 2
    ensures FitsAll(Body(m), Shapes(KindOf(m)))
  {
    if HasReason(m) {
      ReasonFits(m);
    }
    IdsFit(m);
  }

  lemma TwoFit(m: Message)
    requires Encodable(m) && |Body(m)| == 2
    ensures FitsAll(Body(m), Shapes(KindOf(m)))
  {
    if HasReason(m) {
      ReasonFits(m);
    }
    IdsFit(m);
  }

  lemma LongBodyFits(m: Message)
    requires Encodable(m) && |Body(m)| > 2
    ensures FitsAll(Body(m), Shapes(KindOf(m)))
  {
    if m.HelloAck? || m.Auth? || m.WorkerHello? {
      ProofFits(m);
    } else {
      TermsFit(m);
    }
  }

  /** The messages with a nonce. */
  lemma ProofFits(m: Message)
    requires Encodable(m) && (m.HelloAck? || m.Auth? || m.WorkerHello?)
    ensures FitsAll(Body(m), Shapes(KindOf(m)))
  {
    IdsFit(m);
  }

  lemma TermsFit(m: Message)
    requires Encodable(m) && |Body(m)| > 2 && !m.HelloAck? && !m.Auth? && !m.WorkerHello?
    ensures FitsAll(Body(m), Shapes(KindOf(m)))
  {
    if HasReason(m) {
      ReasonFits(m);
    }
    IdsFit(m);
  }

  // ---------- Encoding and decoding ----------

  ghost function Extension(m: Message): seq<byte>
    requires Encodable(m)
  {
    if m.Register? then ModeImage(m.mode)
    else if m.StartRelay? then TailImage(Tail(m.mode, SourceOf(m)))
    else []
  }

  ghost function Payload(m: Message): seq<byte>
    requires Encodable(m)
  {
    BodyFits(m);
    Images(Body(m)) + Extension(m)
  }

  ghost function Encode(m: Message): Option<seq<byte>> {
    if Encodable(m) && |Payload(m)| <= MAX_PAYLOAD then Some(Payload(m)) else None
  }

  /** The message that fields and an extension make. */
  function Assemble(kind: Kind, vs: seq<Value>, tail: Tail): Message
    requires FitsAll(vs, Shapes(kind))
  {
    match kind
    case HelloKind => Hello(vs[0].bytes, vs[1].l)
    case HelloAckKind => HelloAck(vs[0].bytes, FromBits(vs[1].l), vs[2].bytes, vs[3].l)
    case AuthKind =>
      Auth(vs[0].bytes, FromBits(vs[1].l), vs[2].bytes, vs[3].bytes, vs[4].l)
    case AuthOkKind => AuthOk(vs[0].l, vs[1].w, vs[2].s, vs[3].s)
    case AuthErrorKind => AuthError(vs[0].bytes)
    case HeartbeatKind => Heartbeat(vs[0].l)
    case RegisterKind => Register(vs[0].bytes, vs[1].bytes, vs[2].s, vs[3].l, tail.mode)
    case RegisterOkKind => RegisterOk(vs[0].bytes, vs[1].l)
    case RegisterErrorKind => RegisterError(vs[0].bytes, vs[1].bytes, vs[2].l)
    case UnregisterKind => Unregister(vs[0].bytes, vs[1].l)
    case UnregisterOkKind => UnregisterOk(vs[0].bytes, vs[1].l)
    case RequestWorkersKind => RequestWorkers(vs[0].s)
    case WorkerHelloKind =>
      WorkerHello(vs[0].bytes, vs[1].l, vs[2].bytes, FromBits(vs[3].l), vs[4].bytes, vs[5].bytes)
    case WorkerAcceptedKind => WorkerAccepted(vs[0].bytes)
    case StartRelayKind =>
      if tail.source.None? then StartRelay(vs[0].bytes, vs[1].bytes, tail.mode, None, None, None)
      else StartRelay(vs[0].bytes, vs[1].bytes, tail.mode, Some(tail.source.value.host),
                      Some(tail.source.value.port), tail.source.value.observed)
    case LocalOkKind => LocalOk(vs[0].bytes)
    case LocalErrorKind => LocalError(vs[0].bytes, vs[1].bytes)
  }

  /** What follows the fields of a kind. */
  function ReadExtension(kind: Kind, rest: seq<byte>, address: seq<byte> -> bool): Option<Tail> {
    if kind.StartRelayKind? then ReadTail(rest, address)
    else if kind.RegisterKind? then
      var mode := ReadMode(rest);
      if mode.None? then None else Some(Tail(mode.value, None))
    else if rest == [] then Some(Tail(T.Tcp, None)) else None
  }

  ghost function Decode(kind: Kind, payload: seq<byte>, address: seq<byte> -> bool): Option<Message> {
    var read := ReadAll(Shapes(kind), payload);
    if read.None? then None
    else
      var tail := ReadExtension(kind, read.value.1, address);
      if tail.None? then None
      else
        ReadAllCanonical(Shapes(kind), payload);
        var m := Assemble(kind, read.value.0, tail.value);
        if Encodable(m) then Some(m) else None
  }

  ghost function TailOf(m: Message): Tail {
    if m.Register? then Tail(m.mode, None)
    else if m.StartRelay? then Tail(m.mode, SourceOf(m)) else Tail(T.Tcp, None)
  }

  lemma AssembleBody(m: Message)
    requires Encodable(m) && FitsAll(Body(m), Shapes(KindOf(m)))
    ensures Assemble(KindOf(m), Body(m), TailOf(m)) == m
  {
    if |Body(m)| <= 2 {
      AssembleShort(m);
    } else {
      AssembleLong(m);
    }
  }

  lemma AssembleShort(m: Message)
    requires Encodable(m) && FitsAll(Body(m), Shapes(KindOf(m))) && |Body(m)| <= 2
    ensures Assemble(KindOf(m), Body(m), TailOf(m)) == m
  {
  }

  lemma AssembleLong(m: Message)
    requires Encodable(m) && FitsAll(Body(m), Shapes(KindOf(m))) && |Body(m)| > 2
    ensures Assemble(KindOf(m), Body(m), TailOf(m)) == m
  {
  }

  lemma ExtensionRoundTrip(m: Message, address: seq<byte> -> bool)
    requires Valid(m, address)
    ensures ReadExtension(KindOf(m), Extension(m), address) == Some(TailOf(m))
  {
    if m.Register? {
      ModeRoundTrip(m.mode);
    } else if m.StartRelay? {
      TailRoundTrip(Tail(m.mode, SourceOf(m)), address);
    }
  }

  /** Any valid message is encoded and decodes back to itself. */
  lemma RoundTrip(m: Message, address: seq<byte> -> bool)
    requires Valid(m, address)
    ensures Encode(m) == Some(Payload(m)) && Decode(KindOf(m), Payload(m), address) == Some(m)
  {
    ValidEncodes(m, address);
    BodyFits(m);
    AssembleBody(m);
    ReadAllImages(Body(m), Shapes(KindOf(m)), Extension(m));
    ExtensionRoundTrip(m, address);
  }

  predicate IsBrief(kind: Kind) {
    || kind.AuthErrorKind? || kind.HeartbeatKind? || kind.RequestWorkersKind?
    || kind.WorkerAcceptedKind? || kind.LocalOkKind?
  }

  predicate IsPair(kind: Kind) {
    || kind.HelloKind? || kind.RegisterOkKind? || kind.UnregisterKind? || kind.UnregisterOkKind?
    || kind.StartRelayKind? || kind.LocalErrorKind?
  }

  lemma AssembledBody(kind: Kind, vs: seq<Value>, tail: Tail)
    requires FitsAll(vs, Shapes(kind))
    ensures var m := Assemble(kind, vs, tail); KindOf(m) == kind && Body(m) == vs
  {
    if IsBrief(kind) {
      BriefAgain(kind, vs, tail);
    } else if IsPair(kind) {
      PairAgain(kind, vs, tail);
    } else {
      LongAgain(kind, vs, tail);
    }
  }

  lemma BriefAgain(kind: Kind, vs: seq<Value>, tail: Tail)
    requires IsBrief(kind) && FitsAll(vs, Shapes(kind))
    ensures var m := Assemble(kind, vs, tail); KindOf(m) == kind && Body(m) == vs
  {
    assert Fits(vs[0], Shapes(kind)[0]);
    assert vs == [vs[0]];
  }

  lemma PairAgain(kind: Kind, vs: seq<Value>, tail: Tail)
    requires IsPair(kind) && FitsAll(vs, Shapes(kind))
    ensures var m := Assemble(kind, vs, tail); KindOf(m) == kind && Body(m) == vs
  {
    assert Fits(vs[0], Shapes(kind)[0]) && Fits(vs[1], Shapes(kind)[1]);
    assert vs == [vs[0], vs[1]];
  }

  lemma LongAgain(kind: Kind, vs: seq<Value>, tail: Tail)
    requires !IsBrief(kind) && !IsPair(kind)
    requires FitsAll(vs, Shapes(kind))
    ensures var m := Assemble(kind, vs, tail); KindOf(m) == kind && Body(m) == vs
  {
    var m := Assemble(kind, vs, tail);
    forall i | 0 <= i < |vs|
      ensures i < |Body(m)| && Body(m)[i] == vs[i]
    {
      assert Fits(vs[i], Shapes(kind)[i]);
    }
    assert |Body(m)| == |vs|;
  }

  lemma ExtensionIsCanonical(kind: Kind, vs: seq<Value>, rest: seq<byte>, address: seq<byte> -> bool)
    requires FitsAll(vs, Shapes(kind)) && ReadExtension(kind, rest, address).Some?
    requires Encodable(Assemble(kind, vs, ReadExtension(kind, rest, address).value))
    ensures var m := Assemble(kind, vs, ReadExtension(kind, rest, address).value);
            Extension(m) == rest && RelayOk(m, address)
  {
    if kind.RegisterKind? {
      ModeIsCanonical(rest);
    } else if kind.StartRelayKind? {
      TailIsCanonical(rest, address);
    }
  }

  /** Any accepted payload is the encoding of the message it decodes to. */
  lemma DecodedIsCanonical(kind: Kind, payload: seq<byte>, address: seq<byte> -> bool)
    requires Decode(kind, payload, address).Some?
    ensures var m := Decode(kind, payload, address).value;
            KindOf(m) == kind && Valid(m, address) && Payload(m) == payload && Encode(m) == Some(payload)
  {
    ReadAllCanonical(Shapes(kind), payload);
    var (vs, rest) := ReadAll(Shapes(kind), payload).value;
    var tail := ReadExtension(kind, rest, address).value;
    AssembledBody(kind, vs, tail);
    ExtensionIsCanonical(kind, vs, rest, address);
    ValidEncodes(Decode(kind, payload, address).value, address);
  }

  /** Decoding an encoded message returns it exactly when a relay's source is numeric and complete. */
  lemma DecodesBackIff(m: Message, address: seq<byte> -> bool)
    requires Encode(m).Some?
    ensures Decode(KindOf(m), Encode(m).value, address) == Some(m) <==> RelayOk(m, address)
  {
    if RelayOk(m, address) {
      RoundTrip(m, address);
    } else if Decode(KindOf(m), Encode(m).value, address).Some? {
      DecodedIsCanonical(KindOf(m), Encode(m).value, address);
    }
  }

  lemma {:induction false} ImagesAreShort(vs: seq<Value>)
    requires forall i | 0 <= i < |vs| :: Writable(vs[i]) && |Image(vs[i])| <= 255
    ensures |Images(vs)| <= 255 * |vs|
    decreases |vs|
  {
    if |vs| > 0 {
      ImagesAreShort(vs[1..]);
    }
  }

  lemma FieldsAreShort(kind: Kind)
    ensures |Shapes(kind)| <= 6
    ensures forall i | 0 <= i < |Shapes(kind)| ::
              && (Shapes(kind)[i].Text? ==> Shapes(kind)[i].limit <= HOST_BYTES)
              && (Shapes(kind)[i].Fixed? ==> Shapes(kind)[i].size <= HOST_BYTES)
  {
  }

  /** A valid message always fits a frame. */
  lemma ValidEncodes(m: Message, address: seq<byte> -> bool)
    requires Valid(m, address)
    ensures Encode(m) == Some(Payload(m))
  {
    BodyFits(m);
    FieldsAreShort(KindOf(m));
    forall i | 0 <= i < |Body(m)|
      ensures Writable(Body(m)[i]) && |Image(Body(m)[i])| <= 255
    {
      assert Fits(Body(m)[i], Shapes(KindOf(m))[i]);
    }
    ImagesAreShort(Body(m));
    ExtensionIsShort(m, address);
  }

  lemma ExtensionIsShort(m: Message, address: seq<byte> -> bool)
    requires Valid(m, address)
    ensures |Extension(m)| <= 1000
  {
    if m.StartRelay? && SourceOf(m).Some? {
      var s := SourceOf(m).value;
      ImagesAreShort([Blob(s.host), Short(s.port)]);
    }
  }

  function SampleId(kind: IdKind): seq<byte> {
    Prefix(kind) + seq(32, _ => 0x30)
  }

  /** A relay from port 0. */
  predicate FromPortZero(m: Message) {
    m.StartRelay? && m.sourceHost.Some? && m.sourcePort == Some(0)
  }

  lemma SampleIsEncodable() returns (m: Message)
    ensures FromPortZero(m) && Encodable(m)
    ensures m.sourceHost == Some([0x31]) && m.observed.None?
  {
    m := StartRelay(SampleId(TunnelKind), SampleId(ConnectionKind), T.Tcp, Some([0x31]), Some(0), None);
    PlainIsText([0x31]);
  }

  lemma SampleIsEncoded() returns (m: Message)
    ensures FromPortZero(m) && Encode(m).Some?
  {
    m := SampleIsEncodable();
    BodyFits(m);
    forall i | 0 <= i < |Body(m)|
      ensures Writable(Body(m)[i]) && |Image(Body(m)[i])| <= 255
    {
      assert Fits(Body(m)[i], Shapes(StartRelayKind)[i]);
    }
    ImagesAreShort(Body(m));
    ImagesAreShort([Blob([0x31]), Short(0)]);
  }

  /** No decoder returns a relay from port 0, and the encoder takes some. */
  lemma FromPortZeroIsLost(address: seq<byte> -> bool) returns (m: Message)
    ensures FromPortZero(m) && Encode(m).Some?
    ensures forall other: Message | FromPortZero(other) && Encode(other).Some? ::
              Decode(StartRelayKind, Encode(other).value, address) != Some(other)
  {
    m := SampleIsEncoded();
    forall other: Message | FromPortZero(other) && Encode(other).Some?
      ensures Decode(StartRelayKind, Encode(other).value, address) != Some(other)
    {
      DecodesBackIff(other, address);
    }
  }

  // ---------- Worker timeouts in heartbeats ----------

  const TIMEOUT_TAG: int := 0x4D54
  const SEQUENCES: int := 0x80_0000_0000

  /**
    A tag in the upper 16 bits, the timeout in the next 9, the sequence in the lower 39. The parts do
    not overlap, so that adding them is joining their bits.
  */
  function PackTimeout(sequence: u64, timeout: u16): Option<u64> {
    if sequence == 0 || sequence >= SEQUENCES || timeout < 1 || timeout > 300 then None
    else Some((TIMEOUT_TAG * 0x200 + timeout) * SEQUENCES + sequence)
  }

  function UnpackTimeout(v: u64): Option<u16> {
    if v / SEQUENCES / 0x200 != TIMEOUT_TAG || v % SEQUENCES == 0 then None
    else
      var timeout := v / SEQUENCES % 0x200;
      if 1 <= timeout <= 300 then Some(timeout) else None
  }

  lemma TimeoutRoundTrip(sequence: u64, timeout: u16)
    requires PackTimeout(sequence, timeout).Some?
    ensures UnpackTimeout(PackTimeout(sequence, timeout).value) == Some(timeout)
    ensures PackTimeout(sequence, timeout).value % SEQUENCES == sequence
  {
  }

  /** A heartbeat carries a timeout exactly when it was packed with it. */
  lemma TimeoutIsCanonical(v: u64, timeout: u16)
    ensures UnpackTimeout(v) == Some(timeout) <==>
            exists sequence: u64 :: PackTimeout(sequence, timeout) == Some(v)
  {
    if UnpackTimeout(v) == Some(timeout) {
      assert PackTimeout(v % SEQUENCES, timeout) == Some(v);
    }
    forall sequence: u64 | PackTimeout(sequence, timeout) == Some(v)
      ensures UnpackTimeout(v) == Some(timeout)
    {
      TimeoutRoundTrip(sequence, timeout);
    }
  }
}
