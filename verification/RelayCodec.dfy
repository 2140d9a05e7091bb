/** START_RELAY, the message with nested extensions, as the source writes and reads it. */
module RelayCodec {
  import opened Base
  import opened Codec
  import opened Messages
  import T = Trace

  // ---------- Writing ----------

  function SourceFields(mode: T.Mode, host: seq<byte>, port: u16, observed: Option<seq<byte>>)
    : seq<Value>
  {
    [Byte(ModeByte(mode)), Blob(host), Short(port)]
    + if observed.Some? then [Blob(observed.value)] else []
  }

  /** All fields of a relay message, extensions included. */
  function RelayFields(m: Message): seq<Value>
    requires m.StartRelay? && m.sourceHost.Some? == m.sourcePort.Some?
  {
    [Blob(m.tunnelId), Blob(m.connectionId)]
    + if m.sourceHost.Some?
      then SourceFields(m.mode, m.sourceHost.value, m.sourcePort.value, m.observed)
      else if m.mode.Tcp? then [] else [Byte(ModeByte(m.mode))]
  }

  lemma TailIsFields(m: Message)
    requires m.StartRelay? && PartsFit(m)
    ensures var fields := RelayFields(m)[2..];
            AllAcceptable(fields) && AllWritable(fields)
            && TailImage(Tail(m.mode, SourceOf(m))) == Images(fields)
  {
    var fields := RelayFields(m)[2..];
    if m.sourceHost.Some? {
      var body := [Blob(m.sourceHost.value), Short(m.sourcePort.value)];
      var more := if m.observed.Some? then [Blob(m.observed.value)] else [];
      assert fields == [Byte(ModeByte(m.mode))] + body + more;
      ImagesAppend(body, more);
      ImagesAppend([Byte(ModeByte(m.mode))], body + more);
      assert fields == [Byte(ModeByte(m.mode))] + (body + more);
      ImageAlone(Byte(ModeByte(m.mode)));
      if m.observed.Some? {
        ImageAlone(Blob(m.observed.value));
      }
    } else if !m.mode.Tcp? {
      assert fields == [Byte(ModeByte(m.mode))];
      ImageAlone(Byte(ModeByte(m.mode)));
    } else {
      assert fields == [];
    }
  }

  lemma PayloadIsFields(m: Message)
    requires m.StartRelay? && Encodable(m)
    ensures AllAcceptable(RelayFields(m)) && Payload(m) == Images(RelayFields(m))
  {
    IdIsText(TunnelKind, m.tunnelId);
    IdIsText(ConnectionKind, m.connectionId);
    TailIsFields(m);
    var ids, fields := [Blob(m.tunnelId), Blob(m.connectionId)], RelayFields(m);
    assert fields == ids + fields[2..];
    ImagesAppend(ids, fields[2..]);
    assert Body(m) == ids;
  }

  /** A relay message is encodable exactly when its fields are acceptable and its parts go together. */
  lemma AcceptableIsEncodable(m: Message)
    requires m.StartRelay? && IsId(TunnelKind, m.tunnelId) && IsId(ConnectionKind, m.connectionId)
    requires m.sourceHost.Some? == m.sourcePort.Some? && (m.observed.Some? ==> m.sourceHost.Some?)
    ensures AllAcceptable(RelayFields(m)) ==> Encodable(m)
  {
    if AllAcceptable(RelayFields(m)) && m.sourceHost.Some? {
      assert RelayFields(m)[3] == Blob(m.sourceHost.value);
      if m.observed.Some? {
        assert RelayFields(m)[5] == Blob(m.observed.value);
      }
    }
  }

  /** `encode_start_relay`. */
  method EncodeStartRelay(m: Message) returns (r: Option<seq<byte>>)
    requires m.StartRelay?
    ensures r == Encode(m)
  {
    if !IsId(TunnelKind, m.tunnelId) || !IsId(ConnectionKind, m.connectionId) {
      return None;
    }
    var fields := [Blob(m.tunnelId), Blob(m.connectionId)];
    var hasSource := m.sourceHost.Some? || m.sourcePort.Some?;
    if m.observed.Some? && !hasSource {
      return None;
    }
    if hasSource {
      if m.sourceHost.None? || m.sourcePort.None? {
        return None;
      }
      fields := fields + [Byte(ModeByte(m.mode)), Blob(m.sourceHost.value), Short(m.sourcePort.value)];
      if m.observed.Some? {
        fields := fields + [Blob(m.observed.value)];
      }
    } else if !m.mode.Tcp? {
      fields := fields + [Byte(ModeByte(m.mode))];
    }
    assert fields == RelayFields(m);
    var writer := new PayloadWriter(MAX_PAYLOAD);
    var ok := writer.WriteAll(fields);
    AcceptableIsEncodable(m);
    if Encodable(m) {
      PayloadIsFields(m);
    }
    assert ok ==> writer.bytes == Images(fields);
    return if ok then Some(writer.bytes) else None;
  }

  // ---------- Reading ----------

  lemma TwoReads(input: seq<byte>, a: Shape, b: Shape)
    ensures Read(a, input).None? ==> ReadAll([a, b], input).None?
    ensures Read(a, input).Some? && Read(b, Read(a, input).value.1).None? ==>
              ReadAll([a, b], input).None?
    ensures Read(a, input).Some? && Read(b, Read(a, input).value.1).Some? ==>
              var first := Read(a, input).value;
              var second := Read(b, first.1).value;
              ReadAll([a, b], input) == Some(([first.0, second.0], second.1))
  {
    assert [a, b][1..] == [b] && [b][1..] == [];
    if Read(a, input).Some? && Read(b, Read(a, input).value.1).Some? {
      var first := Read(a, input).value;
      var second := Read(b, first.1).value;
      assert ReadAll([], second.1) == Some(([], second.1));
      assert ReadAll([b], first.1) == Some(([second.0] + [], second.1));
      assert [first.0] + ([second.0] + []) == [first.0, second.0];
    }
  }

  function Relay(id: seq<byte>, connection: seq<byte>, t: Tail): Message {
    if t.source.None? then StartRelay(id, connection, t.mode, None, None, None)
    else StartRelay(id, connection, t.mode, Some(t.source.value.host), Some(t.source.value.port),
                    t.source.value.observed)
  }

  datatype Parts = Parts(id: seq<byte>, connection: seq<byte>, tail: Tail)

  /** The parts of a payload, the identifiers unchecked. */
  function PartsOf(payload: seq<byte>, address: seq<byte> -> bool): Option<Parts> {
    var id := Read(Text(ID_BYTES), payload);
    if id.None? then None
    else
      var connection := Read(Text(ID_BYTES), id.value.1);
      if connection.None? then None
      else
        ReadCanonical(Text(ID_BYTES), payload);
        ReadCanonical(Text(ID_BYTES), id.value.1);
        var tail := ReadTail(connection.value.1, address);
        if tail.None? then None
        else Some(Parts(id.value.0.bytes, connection.value.0.bytes, tail.value))
  }

  predicate IdsFit(parts: Parts) {
    IsId(TunnelKind, parts.id) && IsId(ConnectionKind, parts.connection)
  }

  lemma RelayIsEncodable(id: seq<byte>, connection: seq<byte>, rest: seq<byte>, address: seq<byte> -> bool)
    requires ReadTail(rest, address).Some?
    ensures Encodable(Relay(id, connection, ReadTail(rest, address).value)) <==>
            IsId(TunnelKind, id) && IsId(ConnectionKind, connection)
  {
    TailIsCanonical(rest, address);
  }

  lemma AssembledRelay(id: Value, connection: Value, tail: Tail)
    requires Fits(id, Text(ID_BYTES)) && Fits(connection, Text(ID_BYTES))
    ensures FitsAll([id, connection], Shapes(StartRelayKind))
    ensures Assemble(StartRelayKind, [id, connection], tail) == Relay(id.bytes, connection.bytes, tail)
  {
  }

  lemma PartsMakeMessage(payload: seq<byte>, address: seq<byte> -> bool)
    ensures Decode(StartRelayKind, payload, address)
         == (var parts := PartsOf(payload, address);
             if parts.None? || !IdsFit(parts.value) then None
             else Some(Relay(parts.value.id, parts.value.connection, parts.value.tail)))
  {
    TwoReads(payload, Text(ID_BYTES), Text(ID_BYTES));
    var id := Read(Text(ID_BYTES), payload);
    if id.Some? && Read(Text(ID_BYTES), id.value.1).Some? {
      var connection := Read(Text(ID_BYTES), id.value.1);
      ReadCanonical(Text(ID_BYTES), payload);
      ReadCanonical(Text(ID_BYTES), id.value.1);
      var rest := connection.value.1;
      if ReadTail(rest, address).Some? {
        AssembledRelay(id.value.0, connection.value.0, ReadTail(rest, address).value);
        RelayIsEncodable(id.value.0.bytes, connection.value.0.bytes, rest, address);
      }
    }
  }

  /** `decode_start_relay`. */
  method DecodeStartRelay(payload: seq<byte>, address: seq<byte> -> bool) returns (r: Option<Message>)
    ensures r == Decode(StartRelayKind, payload, address)
  {
    PartsMakeMessage(payload, address);
    var reader := new PayloadReader(payload);
    var parts := ReadParts(reader, address);
    if parts.None? || !IdsFit(parts.value) {
      return None;
    }
    return Some(Relay(parts.value.id, parts.value.connection, parts.value.tail));
  }

  method ReadParts(reader: PayloadReader, address: seq<byte> -> bool) returns (r: Option<Parts>)
    requires reader.Valid()
    modifies reader
    ensures reader.Valid() && r == PartsOf(old(reader.Rest()), address)
  {
    var id := reader.ReadField(Text(ID_BYTES));
    if id.None? {
      return None;
    }
    var connection := reader.ReadField(Text(ID_BYTES));
    if connection.None? {
      return None;
    }
    var tail := ReadRelayTail(reader, address);
    if tail.None? {
      return None;
    }
    return Some(Parts(id.value.bytes, connection.value.bytes, tail.value));
  }

  method ReadRelayTail(reader: PayloadReader, address: seq<byte> -> bool) returns (tail: Option<Tail>)
    requires reader.Valid()
    modifies reader
    ensures reader.Valid() && tail == ReadTail(old(reader.Rest()), address)
  {
    var empty := reader.AtEnd();
    if empty {
      return Some(Tail(T.Tcp, None));
    }
    var value := reader.ReadField(OneByte);
    var mode := ModeFrom(value.value.b);
    if mode.None? {
      return None;
    }
    empty := reader.AtEnd();
    if empty {
      return if mode.value.Tcp? then None else Some(Tail(mode.value, None));
    }
    var source := ReadRelaySource(reader, address);
    if source.None? {
      return None;
    }
    return Some(Tail(mode.value, source));
  }

  method ReadRelaySource(reader: PayloadReader, address: seq<byte> -> bool)
    returns (source: Option<Source>)
    requires reader.Valid()
    modifies reader
    ensures reader.Valid() && source == ReadSource(old(reader.Rest()), address)
  {
    TwoReads(reader.Rest(), Text(HOST_BYTES), TwoBytes);
    var host := reader.ReadField(Text(HOST_BYTES));
    if host.None? {
      return None;
    }
    var port := reader.ReadField(TwoBytes);
    if port.None? || port.value.s == 0 || !address(host.value.bytes) {
      return None;
    }
    var empty := reader.AtEnd();
    if empty {
      return Some(Source(host.value.bytes, port.value.s, None));
    }
    var observed := reader.ReadField(Text(HOST_BYTES));
    if observed.None? || !address(observed.value.bytes) {
      return None;
    }
    empty := reader.AtEnd();
    if !empty {
      return None;
    }
    return Some(Source(host.value.bytes, port.value.s, Some(observed.value.bytes)));
  }
}
