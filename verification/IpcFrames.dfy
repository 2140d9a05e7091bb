/** Length-prefixed frames of the local control socket: `encode_frame` and its `FrameDecoder`. */
module IpcFrames {
  import opened Base
  import opened BigEndian
  import opened Streams

  const HEADER_SIZE: nat := 4
  const MAX_PAYLOAD: nat := 0x10_0000

  /** Only the upper end is clamped. */
  function Limit(requested: nat): nat {
    Min(requested, MAX_PAYLOAD)
  }

  function Parse(limit: nat, header: seq<byte>): Result<u32> {
    if |header| != HEADER_SIZE then Err(InternalError)
    else if GetU32(header) > limit then Err(FrameTooLarge)
    else if GetU32(header) == 0 then Err(ProtocolError)
    else Ok(GetU32(header))
  }

  function Wire(limit: nat): Format<u32, seq<byte>> {
    Format(HEADER_SIZE, header => Parse(limit, header), (size: u32) => size,
           (size: u32, payload: seq<byte>) => payload)
  }

  predicate Encodable(payload: seq<byte>, limit: nat) {
    0 < |payload| <= limit
  }

  function EncodeFrame(payload: seq<byte>, requested: nat): Result<seq<byte>> {
    if |payload| == 0 then Err(ProtocolError)
    else if |payload| > Limit(requested) then Err(FrameTooLarge)
    else Ok(PutU32(|payload|) + payload)
  }

  ghost predicate AllEncodable(payloads: seq<seq<byte>>, limit: nat) {
    forall i | 0 <= i < |payloads| :: Encodable(payloads[i], limit)
  }

  function StreamBytes(payloads: seq<seq<byte>>): seq<byte>
    requires forall i | 0 <= i < |payloads| :: |payloads[i]| <= MAX_PAYLOAD
  {
    if |payloads| == 0 then []
    else PutU32(|payloads[0]|) + payloads[0] + StreamBytes(payloads[1..])
  }

  lemma EncodedIs(payload: seq<byte>, requested: nat)
    ensures EncodeFrame(payload, requested).Ok? <==> Encodable(payload, Limit(requested))
    ensures EncodeFrame(payload, requested).Ok? ==>
              && |payload| <= MAX_PAYLOAD
              && EncodeFrame(payload, requested).value == PutU32(|payload|) + payload
  {
  }

  lemma {:induction false} StreamDecodes(payloads: seq<seq<byte>>, limit: nat)
    requires limit <= MAX_PAYLOAD && AllEncodable(payloads, limit)
    ensures Decode(Wire(limit), InHeader([]), StreamBytes(payloads)) == Decoded(InHeader([]), payloads)
    decreases |payloads|
  {
    if |payloads| > 0 {
      var p := payloads[0];
      U32RoundTrip(|p|);
      FrameDecodes(Wire(limit), PutU32(|p|), |p|, p);
      StreamDecodes(payloads[1..], limit);
      DecodeAppend(Wire(limit), InHeader([]), PutU32(|p|) + p, StreamBytes(payloads[1..]));
      assert [p] + payloads[1..] == payloads;
    }
  }

  /** `parts` are what the encoder returned for `payloads`. */
  ghost predicate Encoded(payloads: seq<seq<byte>>, parts: seq<seq<byte>>, requested: nat) {
    && |parts| == |payloads|
    && forall i | 0 <= i < |payloads| :: EncodeFrame(payloads[i], requested) == Ok(parts[i])
  }

  lemma {:induction false} EncodedIsStream(
      payloads: seq<seq<byte>>, parts: seq<seq<byte>>, requested: nat)
    requires Encoded(payloads, parts, requested)
    ensures AllEncodable(payloads, Limit(requested)) && Concat(parts) == StreamBytes(payloads)
    decreases |payloads|
  {
    if |payloads| > 0 {
      EncodedIs(payloads[0], requested);
      EncodedIsStream(payloads[1..], parts[1..], requested);
      forall i | 0 <= i < |payloads|
        ensures Encodable(payloads[i], Limit(requested))
      {
        EncodedIs(payloads[i], requested);
      }
    }
  }

  /** Decoding the concatenation of what the encoder returned for some payloads returns those. */
  lemma EncodedStreamDecodes(payloads: seq<seq<byte>>, parts: seq<seq<byte>>, requested: nat)
    requires Encoded(payloads, parts, requested)
    ensures Decode(Wire(Limit(requested)), InHeader([]), Concat(parts)) == Decoded(InHeader([]), payloads)
  {
    EncodedIsStream(payloads, parts, requested);
    StreamDecodes(payloads, Limit(requested));
  }

  /** The bytes of the frame that is being read. */
  function PendingBytes(c: Cursor<u32>): seq<byte> {
    match c
    case InHeader(header) => header
    case InPayload(size, payload) => PutU32(size) + payload
    case Failed(code) => []
  }

  predicate Sane(c: Cursor<u32>, limit: nat) {
    match c
    case InHeader(header) => |header| < HEADER_SIZE
    case InPayload(size, payload) => |payload| < size <= limit
    case Failed(code) => true
  }

  lemma StepIsCanonical(c: Cursor<u32>, b: byte, limit: nat)
    requires limit <= MAX_PAYLOAD && Sane(c, limit)
    requires !Step(Wire(limit), c, b).cursor.Failed?
    ensures var d := Step(Wire(limit), c, b);
            && Sane(d.cursor, limit) && AllEncodable(d.frames, limit)
            && PendingBytes(c) + [b] == StreamBytes(d.frames) + PendingBytes(d.cursor)
  {
    var d := Step(Wire(limit), c, b);
    match c
    case InHeader(header) =>
      if |header| + 1 == HEADER_SIZE {
        U32Canonical(header + [b]);
      }
      assert StreamBytes(d.frames) + PendingBytes(d.cursor) == PendingBytes(d.cursor);
    case InPayload(size, payload) =>
      assert PendingBytes(c) + [b] == PutU32(size) + (payload + [b]);
    case Failed(code) =>
  }

  lemma {:induction false} StreamAppend(a: seq<seq<byte>>, b: seq<seq<byte>>, limit: nat)
    requires limit <= MAX_PAYLOAD && AllEncodable(a, limit) && AllEncodable(b, limit)
    ensures AllEncodable(a + b, limit)
    ensures StreamBytes(a + b) == StreamBytes(a) + StreamBytes(b)
    decreases |a|
  {
    if |a| == 0 {
      assert a + b == b;
    } else {
      assert (a + b)[1..] == a[1..] + b;
      StreamAppend(a[1..], b, limit);
      Associative(PutU32(|a[0]|) + a[0], StreamBytes(a[1..]), StreamBytes(b));
    }
  }

  /** A stream that decodes is the encoding of its payloads, followed by what is pending. */
  lemma {:induction false} DecodedStreamIsCanonical(c: Cursor<u32>, bytes: seq<byte>, limit: nat)
    requires limit <= MAX_PAYLOAD && Sane(c, limit)
    requires !Decode(Wire(limit), c, bytes).cursor.Failed?
    ensures var d := Decode(Wire(limit), c, bytes);
            && Sane(d.cursor, limit) && AllEncodable(d.frames, limit)
            && PendingBytes(c) + bytes == StreamBytes(d.frames) + PendingBytes(d.cursor)
    decreases |bytes|
  {
    if |bytes| > 0 {
      var s := Step(Wire(limit), c, bytes[0]);
      if s.cursor.Failed? {
        FailureIsFinal(Wire(limit), s.cursor.code, bytes[1..]);
        assert false;
      }
      StepIsCanonical(c, bytes[0], limit);
      DecodedStreamIsCanonical(s.cursor, bytes[1..], limit);
      var d := Decode(Wire(limit), s.cursor, bytes[1..]);
      StreamAppend(s.frames, d.frames, limit);
      Regroup(PendingBytes(c), bytes, StreamBytes(s.frames), PendingBytes(s.cursor),
              StreamBytes(d.frames), PendingBytes(d.cursor));
    } else {
      assert PendingBytes(c) + bytes == PendingBytes(c);
    }
  }

  /** A payload is encoded exactly when a decoder with the same limit can ever return it. */
  lemma EncodesIff(payload: seq<byte>, requested: nat)
    ensures EncodeFrame(payload, requested).Ok? <==>
            exists bytes: seq<byte> ::
              Decode(Wire(Limit(requested)), InHeader([]), bytes) == Decoded(InHeader([]), [payload])
  {
    EncodedIs(payload, requested);
    if EncodeFrame(payload, requested).Ok? {
      EncodedStreamDecodes([payload], [EncodeFrame(payload, requested).value], requested);
    }
    if bytes: seq<byte> :| Decode(Wire(Limit(requested)), InHeader([]), bytes)
                           == Decoded(InHeader([]), [payload]) {
      DecodedStreamIsCanonical(InHeader([]), bytes, Limit(requested));
      assert [payload][0] == payload;
    }
  }

  // ---------- What is buffered between calls ----------

  ghost predicate SizesFit(c: Cursor<u32>, limit: nat) {
    c.InPayload? ==> c.head <= limit
  }

  lemma {:induction false} SizesFitKept(c: Cursor<u32>, bytes: seq<byte>, limit: nat)
    requires SizesFit(c, limit)
    ensures SizesFit(Decode(Wire(limit), c, bytes).cursor, limit)
    decreases |bytes|
  {
    if |bytes| > 0 {
      SizesFitKept(Step(Wire(limit), c, bytes[0]).cursor, bytes[1..], limit);
    }
  }

  lemma BufferedIsBounded(bytes: seq<byte>, limit: nat)
    ensures Buffered(Decode(Wire(limit), InHeader([]), bytes).cursor) <= Max(limit, HEADER_SIZE - 1)
  {
    BuffersKept(Wire(limit), InHeader([]), bytes);
    SizesFitKept(InHeader([]), bytes, limit);
  }

  /** The limit bounds what is buffered exactly when it leaves room for an incomplete header. */
  lemma BufferedWithinLimitIff(limit: nat)
    ensures (forall bytes: seq<byte> ::
               Buffered(Decode(Wire(limit), InHeader([]), bytes).cursor) <= limit)
            <==> limit >= HEADER_SIZE - 1
  {
    HeaderRun(Wire(limit), [], [0, 0, 0]);
    assert Buffered(Decode(Wire(limit), InHeader([]), [0, 0, 0]).cursor) == 3;
    forall bytes: seq<byte>
      ensures limit >= HEADER_SIZE - 1 ==>
                Buffered(Decode(Wire(limit), InHeader([]), bytes).cursor) <= limit
    {
      BufferedIsBounded(bytes, limit);
    }
  }

  // ---------- The decoder ----------

  class FrameDecoder {
    const limit: nat
    const header: array<byte>
    var headerSize: nat
    var expected: u32
    var payload: seq<byte>
    var readingPayload: bool
    var failed: bool
    var failureCode: ErrorCode

    ghost predicate Valid()
      reads this, header
    {
      && header.Length == HEADER_SIZE && headerSize < HEADER_SIZE
      && (readingPayload ==> headerSize == 0 && |payload| < expected)
      && (!readingPayload ==> payload == [])
      && (failed ==> headerSize == 0 && !readingPayload)
    }

    ghost function View(): Cursor<u32>
      requires Valid()
      reads this, header
    {
      if failed then Failed(failureCode)
      else if readingPayload then InPayload(expected, payload)
      else InHeader(header[..headerSize])
    }

    constructor (requested: nat)
      ensures Valid() && fresh(header) && limit == Limit(requested) && View() == InHeader([])
    {
      limit := Limit(requested);
      header := new byte[4](_ => 0);
      headerSize, expected, payload := 0, 0, [];
      readingPayload, failed, failureCode := false, false, ProtocolError;
    }

    method Fail(code: ErrorCode)
      requires header.Length == HEADER_SIZE
      modifies this
      ensures Valid() && View() == Failed(code)
    {
      expected, headerSize, payload, readingPayload := 0, 0, [], false;
      failed, failureCode := true, code;
    }

    /** Takes header bytes, at most as many as are missing. */
    method TakeHeader(chunk: seq<byte>)
      requires Valid() && !failed && !readingPayload
      requires 0 < |chunk| <= HEADER_SIZE - headerSize
      modifies this, header
      ensures Valid() && Decode(Wire(limit), old(View()), chunk) == Decoded(View(), [])
    {
      ghost var before := header[..headerSize];
      for i := 0 to |chunk|
        invariant headerSize == old(headerSize) && !failed && !readingPayload && payload == []
        invariant header[..headerSize + i] == before + chunk[..i]
      {
        header[headerSize + i] := chunk[i];
      }
      headerSize := headerSize + |chunk|;
      assert header[..headerSize] == before + chunk;
      if headerSize != HEADER_SIZE {
        HeaderRun(Wire(limit), before, chunk);
        return;
      }
      HeaderEnds(Wire(limit), before, chunk);
      assert header[..] == before + chunk;
      expected := GetU32(header[..]);
      headerSize := 0;
      if expected > limit {
        Fail(FrameTooLarge);
      } else if expected == 0 {
        Fail(ProtocolError);
      } else {
        payload := [];
        readingPayload := true;
      }
    }

    /** Takes payload bytes, at most as many as are missing. */
    method TakePayload(chunk: seq<byte>) returns (frames: seq<seq<byte>>)
      requires Valid() && !failed && readingPayload && |chunk| <= expected - |payload|
      modifies this
      ensures Valid() && Decode(Wire(limit), old(View()), chunk) == Decoded(View(), frames)
    {
      frames := [];
      if |payload| + |chunk| < expected {
        PayloadRun(Wire(limit), expected, payload, chunk);
      } else {
        PayloadEnds(Wire(limit), expected, payload, chunk);
      }
      payload := payload + chunk;
      if |payload| == expected {
        frames := [payload];
        payload, expected, readingPayload := [], 0, false;
      }
    }

    method TakeSome(bytes: seq<byte>) returns (count: nat, frames: seq<seq<byte>>)
      requires Valid() && !failed && |bytes| > 0
      modifies this, header
      ensures Valid() && 0 < count <= |bytes|
      ensures Decode(Wire(limit), old(View()), bytes[..count]) == Decoded(View(), frames)
    {
      frames := [];
      if readingPayload {
        count := Min(|bytes|, expected - |payload|);
        frames := TakePayload(bytes[..count]);
      } else {
        count := Min(|bytes|, HEADER_SIZE - headerSize);
        TakeHeader(bytes[..count]);
      }
    }

    /** `feed`: refines the reference decoder, except that a failing call delivers no frames. */
    method Feed(bytes: seq<byte>) returns (r: Result<seq<seq<byte>>>)
      requires Valid()
      modifies this, header
      ensures Valid()
      ensures View() == Decode(Wire(limit), old(View()), bytes).cursor
      ensures r == if View().Failed? then Err(View().code)
                   else Ok(Decode(Wire(limit), old(View()), bytes).frames)
    {
      if failed {
        FailureIsFinal(Wire(limit), failureCode, bytes);
        return Err(failureCode);
      }
      ghost var start := View();
      var frames: seq<seq<byte>> := [];
      var offset := 0;
      while offset < |bytes|
        invariant 0 <= offset <= |bytes| && Valid() && !failed
        invariant Decode(Wire(limit), start, bytes[..offset]) == Decoded(View(), frames)
      {
        var count, more := TakeSome(bytes[offset..]);
        ghost var taken := bytes[offset..][..count];
        DecodeAppend(Wire(limit), start, bytes[..offset], taken);
        assert bytes[..offset] + taken == bytes[..offset + count];
        offset := offset + count;
        frames := frames + more;
        if failed {
          DecodeAppend(Wire(limit), start, bytes[..offset], bytes[offset..]);
          FailureIsFinal(Wire(limit), failureCode, bytes[offset..]);
          assert bytes[..offset] + bytes[offset..] == bytes;
          return Err(failureCode);
        }
      }
      assert bytes[..|bytes|] == bytes;
      return Ok(frames);
    }

    /** `finish`: the stream may end only between frames. */
    method Finish() returns (r: Result<()>)
      requires Valid()
      ensures r.Ok? <==> View() == InHeader([])
      ensures View().Failed? ==> r == Err(View().code)
    {
      if failed {
        return Err(failureCode);
      }
      if headerSize != 0 || readingPayload {
        return Err(ProtocolError);
      }
      return Ok(());
    }

    method Reset()
      requires Valid()
      modifies this
      ensures Valid() && View() == InHeader([])
    {
      expected, headerSize, payload, readingPayload := 0, 0, [], false;
      failed, failureCode := false, ProtocolError;
    }
  }

  /** Feeds a stream in chunks until one fails; the payloads delivered are those of `FeedAll`. */
  method FeedChunks(decoder: FrameDecoder, chunks: seq<seq<byte>>)
    returns (payloads: seq<seq<byte>>, ok: bool)
    requires decoder.Valid()
    modifies decoder, decoder.header
    ensures decoder.Valid()
    ensures FeedAll(Wire(decoder.limit), old(decoder.View()), chunks) == Decoded(decoder.View(), payloads)
    ensures ok == !decoder.View().Failed?
    decreases |chunks|
  {
    if |chunks| == 0 || decoder.failed {
      return [], !decoder.failed;
    }
    var first := decoder.Feed(chunks[0]);
    if first.Err? {
      return [], false;
    }
    var rest;
    rest, ok := FeedChunks(decoder, chunks[1..]);
    payloads := first.value + rest;
  }
}
