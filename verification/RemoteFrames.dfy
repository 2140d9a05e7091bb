/** Frames of the remote protocol: `encode_frame` and the incremental `FrameDecoder`. */
module RemoteFrames {
  import opened Base
  import opened BigEndian
  import opened Streams

  const MAGIC: u32 := 0x4D54_554E
  const VERSION: u16 := 2
  const HEADER_SIZE: nat := 24
  const MAX_FRAME_SIZE: nat := 0x1_0000

  /** Message types are 1 to 15 for control connections and 0x100 to 0x104 for workers. */
  predicate IsMessageType(v: u16) {
    1 <= v <= 15 || 0x100 <= v <= 0x104
  }

  datatype Frame = Frame(kind: u16, flags: u32, requestId: u64, payload: seq<byte>)

  datatype Head = Head(kind: u16, flags: u32, requestId: u64, size: u32)

  function Limit(requested: nat): (limit: nat)
    ensures HEADER_SIZE <= limit <= MAX_FRAME_SIZE
  {
    Max(HEADER_SIZE, Min(requested, MAX_FRAME_SIZE))
  }

  function HeaderBytes(h: Head): (s: seq<byte>)
    ensures |s| == HEADER_SIZE
  {
    PutU32(MAGIC) + PutU16(VERSION) + PutU16(h.kind) + PutU32(h.flags) + PutU32(h.size)
    + PutU64(h.requestId)
  }

  function Parse(limit: nat, header: seq<byte>): Result<Head> {
    if |header| != HEADER_SIZE then Err(InternalError)
    else if GetU32(header[..4]) != MAGIC then Err(ProtocolError)
    else if GetU16(header[4..6]) != VERSION then Err(UnsupportedVersion)
    else if !IsMessageType(GetU16(header[6..8])) then Err(ProtocolError)
    else if GetU32(header[8..12]) != 0 then Err(ProtocolError)
    else if GetU32(header[12..16]) > limit - HEADER_SIZE then Err(FrameTooLarge)
    else Ok(Head(GetU16(header[6..8]), GetU32(header[8..12]), GetU64(header[16..24]),
                 GetU32(header[12..16])))
  }

  function Wire(limit: nat): Format<Head, Frame> {
    Format(HEADER_SIZE, header => Parse(limit, header), (h: Head) => h.size,
           (h: Head, payload: seq<byte>) => Frame(h.kind, h.flags, h.requestId, payload))
  }

  /** `encode_frame`. */
  function EncodeFrame(f: Frame, requested: nat): Result<seq<byte>> {
    if !IsMessageType(f.kind) || f.flags != 0 then Err(ProtocolError)
    else if |f.payload| > Limit(requested) - HEADER_SIZE then Err(FrameTooLarge)
    else Ok(HeaderBytes(Head(f.kind, f.flags, f.requestId, |f.payload|)) + f.payload)
  }

  // ---------- Headers ----------

  predicate Acceptable(h: Head, limit: nat) {
    IsMessageType(h.kind) && h.flags == 0 && h.size <= limit - HEADER_SIZE
  }

  lemma HeaderParts(
      a: seq<byte>, b: seq<byte>, c: seq<byte>, d: seq<byte>, e: seq<byte>, f: seq<byte>)
    requires |a| == 4 && |b| == 2 && |c| == 2 && |d| == 4 && |e| == 4 && |f| == 8
    ensures var s := a + b + c + d + e + f;
            && |s| == HEADER_SIZE && s[..4] == a && s[4..6] == b && s[6..8] == c
            && s[8..12] == d && s[12..16] == e && s[16..24] == f
  {
  }

  lemma HeaderRoundTrip(h: Head, limit: nat)
    requires Acceptable(h, limit)
    ensures Parse(limit, HeaderBytes(h)) == Ok(h)
  {
    HeaderParts(PutU32(MAGIC), PutU16(VERSION), PutU16(h.kind), PutU32(h.flags), PutU32(h.size),
                PutU64(h.requestId));
    U32RoundTrip(MAGIC);
    U16RoundTrip(VERSION);
    U16RoundTrip(h.kind);
    U32RoundTrip(h.flags);
    U32RoundTrip(h.size);
    U64RoundTrip(h.requestId);
  }

  lemma HeaderIsCanonical(header: seq<byte>, limit: nat)
    requires Parse(limit, header).Ok?
    ensures HeaderBytes(Parse(limit, header).value) == header
    ensures Acceptable(Parse(limit, header).value, limit)
  {
    U32Canonical(header[..4]);
    U16Canonical(header[4..6]);
    U16Canonical(header[6..8]);
    U32Canonical(header[8..12]);
    U32Canonical(header[12..16]);
    U64Canonical(header[16..24]);
    assert header == header[..4] + header[4..6] + header[6..8] + header[8..12] + header[12..16]
                     + header[16..24];
  }

  // ---------- Streams of encoded frames ----------

  predicate Encodable(f: Frame, limit: nat) {
    IsMessageType(f.kind) && f.flags == 0 && |f.payload| <= limit - HEADER_SIZE
  }

  function FrameBytes(f: Frame): seq<byte>
    requires |f.payload| <= MAX_FRAME_SIZE
  {
    HeaderBytes(Head(f.kind, f.flags, f.requestId, |f.payload|)) + f.payload
  }

  ghost predicate AllEncodable(frames: seq<Frame>, limit: nat) {
    forall i | 0 <= i < |frames| :: Encodable(frames[i], limit)
  }

  function StreamBytes(frames: seq<Frame>): seq<byte>
    requires forall i | 0 <= i < |frames| :: |frames[i].payload| <= MAX_FRAME_SIZE
  {
    if |frames| == 0 then [] else FrameBytes(frames[0]) + StreamBytes(frames[1..])
  }

  lemma EncodedIs(f: Frame, requested: nat)
    ensures EncodeFrame(f, requested).Ok? <==> Encodable(f, Limit(requested))
    ensures EncodeFrame(f, requested).Ok? ==>
              |f.payload| <= MAX_FRAME_SIZE && EncodeFrame(f, requested).value == FrameBytes(f)
  {
  }

  lemma {:induction false} StreamDecodes(frames: seq<Frame>, limit: nat)
    requires limit <= MAX_FRAME_SIZE && AllEncodable(frames, limit)
    ensures Decode(Wire(limit), InHeader([]), StreamBytes(frames)) == Decoded(InHeader([]), frames)
    decreases |frames|
  {
    if |frames| > 0 {
      var f := frames[0];
      var head := Head(f.kind, f.flags, f.requestId, |f.payload|);
      HeaderRoundTrip(head, limit);
      FrameDecodes(Wire(limit), HeaderBytes(head), head, f.payload);
      StreamDecodes(frames[1..], limit);
      DecodeAppend(Wire(limit), InHeader([]), FrameBytes(f), StreamBytes(frames[1..]));
      assert [f] + frames[1..] == frames;
    }
  }

  /** `parts` are what the encoder returned for `frames`. */
  ghost predicate Encoded(frames: seq<Frame>, parts: seq<seq<byte>>, requested: nat) {
    |parts| == |frames| && forall i | 0 <= i < |frames| :: EncodeFrame(frames[i], requested) == Ok(parts[i])
  }

  lemma {:induction false} EncodedIsStream(frames: seq<Frame>, parts: seq<seq<byte>>, requested: nat)
    requires Encoded(frames, parts, requested)
    ensures AllEncodable(frames, Limit(requested)) && Concat(parts) == StreamBytes(frames)
    decreases |frames|
  {
    if |frames| > 0 {
      EncodedIs(frames[0], requested);
      EncodedIsStream(frames[1..], parts[1..], requested);
      forall i | 0 <= i < |frames|
        ensures Encodable(frames[i], Limit(requested))
      {
        EncodedIs(frames[i], requested);
      }
    }
  }

  /** Decoding the concatenation of what the encoder returned for some frames returns those frames. */
  lemma EncodedStreamDecodes(frames: seq<Frame>, parts: seq<seq<byte>>, requested: nat)
    requires Encoded(frames, parts, requested)
    ensures Decode(Wire(Limit(requested)), InHeader([]), Concat(parts)) == Decoded(InHeader([]), frames)
  {
    EncodedIsStream(frames, parts, requested);
    StreamDecodes(frames, Limit(requested));
  }

  /** A frame is encoded exactly when a decoder with the same limit can ever return it. */
  lemma EncodesIff(f: Frame, requested: nat)
    ensures EncodeFrame(f, requested).Ok? <==>
            exists bytes: seq<byte> ::
              Decode(Wire(Limit(requested)), InHeader([]), bytes) == Decoded(InHeader([]), [f])
  {
    EncodedIs(f, requested);
    if EncodeFrame(f, requested).Ok? {
      EncodedStreamDecodes([f], [EncodeFrame(f, requested).value], requested);
    }
    if bytes: seq<byte> :| Decode(Wire(Limit(requested)), InHeader([]), bytes)
                           == Decoded(InHeader([]), [f]) {
      DecodedStreamIsCanonical(InHeader([]), bytes, Limit(requested));
      assert [f][0] == f;
    }
  }

  /** The bytes of the frame that is being read. */
  function PendingBytes(c: Cursor<Head>): seq<byte> {
    match c
    case InHeader(header) => header
    case InPayload(head, payload) => HeaderBytes(head) + payload
    case Failed(code) => []
  }

  predicate Sane(c: Cursor<Head>, limit: nat) {
    match c
    case InHeader(header) => |header| < HEADER_SIZE
    case InPayload(head, payload) => Acceptable(head, limit) && |payload| < head.size
    case Failed(code) => true
  }

  lemma StepIsCanonical(c: Cursor<Head>, b: byte, limit: nat)
    requires limit <= MAX_FRAME_SIZE && Sane(c, limit)
    requires !Step(Wire(limit), c, b).cursor.Failed?
    ensures var d := Step(Wire(limit), c, b);
            && Sane(d.cursor, limit) && AllEncodable(d.frames, limit)
            && PendingBytes(c) + [b] == StreamBytes(d.frames) + PendingBytes(d.cursor)
  {
    var d := Step(Wire(limit), c, b);
    match c
    case InHeader(header) =>
      if |header| + 1 == HEADER_SIZE {
        HeaderIsCanonical(header + [b], limit);
      }
      assert |d.frames| == 0 ==> StreamBytes(d.frames) + PendingBytes(d.cursor) == PendingBytes(d.cursor);
    case InPayload(head, payload) =>
      assert PendingBytes(c) + [b] == HeaderBytes(head) + (payload + [b]);
    case Failed(code) =>
  }

  /** A stream that decodes is the encoding of what it decodes to. */
  lemma {:induction false} DecodedStreamIsCanonical(c: Cursor<Head>, bytes: seq<byte>, limit: nat)
    requires limit <= MAX_FRAME_SIZE && Sane(c, limit)
    requires !Decode(Wire(limit), c, bytes).cursor.Failed?
    ensures var d := Decode(Wire(limit), c, bytes);
            && Sane(d.cursor, limit) && AllEncodable(d.frames, limit)
            && PendingBytes(c) + bytes == StreamBytes(d.frames) + PendingBytes(d.cursor)
    decreases |bytes|
  {
    if |bytes| > 0 {
      var s := Step(Wire(limit), c, bytes[0]);
      if s.cursor.Failed? {
        FailureIsFinal(Wire(limit), s.cursor.code, bytes[1..]);
        assert false;
      }
      StepIsCanonical(c, bytes[0], limit);
      DecodedStreamIsCanonical(s.cursor, bytes[1..], limit);
      var d := Decode(Wire(limit), s.cursor, bytes[1..]);
      StreamAppend(s.frames, d.frames, limit);
      Regroup(PendingBytes(c), bytes, StreamBytes(s.frames), PendingBytes(s.cursor),
              StreamBytes(d.frames), PendingBytes(d.cursor));
    } else {
      assert PendingBytes(c) + bytes == PendingBytes(c);
    }
  }

  lemma {:induction false} StreamAppend(a: seq<Frame>, b: seq<Frame>, limit: nat)
    requires limit <= MAX_FRAME_SIZE && AllEncodable(a, limit) && AllEncodable(b, limit)
    ensures AllEncodable(a + b, limit)
    ensures StreamBytes(a + b) == StreamBytes(a) + StreamBytes(b)
    decreases |a|
  {
    if |a| == 0 {
      assert a + b == b;
    } else {
      assert (a + b)[1..] == a[1..] + b;
      StreamAppend(a[1..], b, limit);
      Associative(FrameBytes(a[0]), StreamBytes(a[1..]), StreamBytes(b));
    }
  }

  /** Bytes buffered between calls never exceed the frame limit. */
  lemma BufferedIsBounded(bytes: seq<byte>, requested: nat)
    ensures Buffered(Decode(Wire(Limit(requested)), InHeader([]), bytes).cursor) <= Limit(requested)
  {
    var limit := Limit(requested);
    var d := Decode(Wire(limit), InHeader([]), bytes);
    if !d.cursor.Failed? {
      DecodedStreamIsCanonical(InHeader([]), bytes, limit);
    }
  }

  // ---------- The decoder ----------

  class FrameDecoder {
    const limit: nat
    const header: array<byte>
    var headerSize: nat
    var expected: u32
    var kind: u16
    var flags: u32
    var requestId: u64
    var payload: seq<byte>
    var readingPayload: bool
    var failed: bool
    var failureCode: ErrorCode

    ghost predicate Valid()
      reads this, header
    {
      && HEADER_SIZE <= limit <= MAX_FRAME_SIZE && header.Length == HEADER_SIZE
      && headerSize < HEADER_SIZE
      && (readingPayload ==> headerSize == 0 && |payload| < expected)
      && (!readingPayload ==> payload == [])
      && (failed ==> headerSize == 0 && !readingPayload)
    }

    ghost function View(): Cursor<Head>
      requires Valid()
      reads this, header
    {
      if failed then Failed(failureCode)
      else if readingPayload then InPayload(Head(kind, flags, requestId, expected), payload)
      else InHeader(header[..headerSize])
    }

    constructor (requested: nat)
      ensures Valid() && fresh(header) && limit == Limit(requested) && View() == InHeader([])
    {
      limit := Limit(requested);
      header := new byte[24](_ => 0);
      headerSize, expected, kind, flags, requestId, payload := 0, 0, 1, 0, 0, [];
      readingPayload, failed, failureCode := false, false, ProtocolError;
    }

    /** Copies bytes behind those already in the header buffer. */
    method FillHeader(chunk: seq<byte>)
      requires header.Length == HEADER_SIZE && headerSize + |chunk| <= HEADER_SIZE
      modifies this`headerSize, header
      ensures headerSize == old(headerSize) + |chunk|
      ensures header[..headerSize] == old(header[..headerSize]) + chunk
    {
      for i := 0 to |chunk|
        invariant headerSize == old(headerSize)
        invariant header[..headerSize + i] == old(header[..headerSize]) + chunk[..i]
      {
        header[headerSize + i] := chunk[i];
      }
      headerSize := headerSize + |chunk|;
    }

    method Fail(code: ErrorCode)
      requires HEADER_SIZE <= limit <= MAX_FRAME_SIZE && header.Length == HEADER_SIZE
      modifies this
      ensures Valid() && View() == Failed(code)
    {
      headerSize := 0;
      ResetCurrentFrame();
      failed, failureCode := true, code;
    }

    method ResetCurrentFrame()
      modifies this`payload, this`expected, this`kind, this`flags, this`requestId, this`readingPayload
      ensures payload == [] && !readingPayload
    {
      payload, expected, kind, flags, requestId, readingPayload := [], 0, 1, 0, 0, false;
    }

    /** `parse_header`, on a complete header. */
    method ParseHeader() returns (code: Option<ErrorCode>)
      requires header.Length == HEADER_SIZE && HEADER_SIZE <= limit
      modifies this`expected, this`kind, this`flags, this`requestId
      ensures code.Some? <==> Parse(limit, header[..]).Err?
      ensures code.Some? ==> Parse(limit, header[..]) == Err(code.value)
      ensures code.None? ==> Parse(limit, header[..]) == Ok(Head(kind, flags, requestId, expected))
    {
      var bytes := header[..];
      if GetU32(bytes[..4]) != MAGIC {
        return Some(ProtocolError);
      }
      if GetU16(bytes[4..6]) != VERSION {
        return Some(UnsupportedVersion);
      }
      var wireType := GetU16(bytes[6..8]);
      if !IsMessageType(wireType) {
        return Some(ProtocolError);
      }
      var wireFlags := GetU32(bytes[8..12]);
      if wireFlags != 0 {
        return Some(ProtocolError);
      }
      var size := GetU32(bytes[12..16]);
      if size > limit - HEADER_SIZE {
        return Some(FrameTooLarge);
      }
      kind, flags, requestId, expected := wireType, wireFlags, GetU64(bytes[16..24]), size;
      return None;
    }

    /** Takes header bytes, at most as many as are missing. */
    method TakeHeader(chunk: seq<byte>) returns (frames: seq<Frame>)
      requires Valid() && !failed && !readingPayload
      requires 0 < |chunk| <= HEADER_SIZE - headerSize
      modifies this, header
      ensures Valid() && Decode(Wire(limit), old(View()), chunk) == Decoded(View(), frames)
    {
      frames := [];
      ghost var before := header[..headerSize];
      FillHeader(chunk);
      if headerSize != HEADER_SIZE {
        HeaderRun(Wire(limit), before, chunk);
        return;
      }
      HeaderEnds(Wire(limit), before, chunk);
      assert header[..] == before + chunk;
      frames := OpenFrame();
    }

    /** The header is complete. */
    method OpenFrame() returns (frames: seq<Frame>)
      requires HEADER_SIZE <= limit <= MAX_FRAME_SIZE && header.Length == HEADER_SIZE
      requires !failed && !readingPayload && payload == []
      modifies this
      ensures Valid() && Opened(Wire(limit), old(header[..])) == Decoded(View(), frames)
    {
      frames := [];
      var code := ParseHeader();
      headerSize := 0;
      if code.Some? {
        Fail(code.value);
      } else if expected == 0 {
        frames := [Frame(kind, flags, requestId, [])];
        ResetCurrentFrame();
      } else {
        payload := [];
        readingPayload := true;
      }
    }

    /** Takes payload bytes, at most as many as are missing. */
    method TakePayload(chunk: seq<byte>) returns (frames: seq<Frame>)
      requires Valid() && !failed && readingPayload && |chunk| <= expected - |payload|
      modifies this
      ensures Valid() && Decode(Wire(limit), old(View()), chunk) == Decoded(View(), frames)
    {
      frames := [];
      ghost var head := Head(kind, flags, requestId, expected);
      if |payload| + |chunk| < expected {
        PayloadRun(Wire(limit), head, payload, chunk);
      } else {
        PayloadEnds(Wire(limit), head, payload, chunk);
      }
      payload := payload + chunk;
      if |payload| == expected {
        frames := [Frame(kind, flags, requestId, payload)];
        ResetCurrentFrame();
      }
    }

    /** One turn of the loop: takes what fits from the front of `bytes`. */
    method TakeSome(bytes: seq<byte>) returns (count: nat, frames: seq<Frame>)
      requires Valid() && !failed && |bytes| > 0
      modifies this, header
      ensures Valid() && 0 < count <= |bytes|
      ensures Decode(Wire(limit), old(View()), bytes[..count]) == Decoded(View(), frames)
    {
      if readingPayload {
        count := Min(|bytes|, expected - |payload|);
        frames := TakePayload(bytes[..count]);
      } else {
        count := Min(|bytes|, HEADER_SIZE - headerSize);
        frames := TakeHeader(bytes[..count]);
      }
    }

    /** `feed`: refines the reference decoder, except that a failing call delivers no frames. */
    method Feed(bytes: seq<byte>) returns (r: Result<seq<Frame>>)
      requires Valid()
      modifies this, header
      ensures Valid()
      ensures View() == Decode(Wire(limit), old(View()), bytes).cursor
      ensures r == if View().Failed? then Err(View().code)
                   else Ok(Decode(Wire(limit), old(View()), bytes).frames)
    {
      if failed {
        FailureIsFinal(Wire(limit), failureCode, bytes);
        return Err(failureCode);
      }
      ghost var start := View();
      var frames: seq<Frame> := [];
      var offset := 0;
      while offset < |bytes|
        invariant 0 <= offset <= |bytes| && Valid() && !failed
        invariant Decode(Wire(limit), start, bytes[..offset]) == Decoded(View(), frames)
      {
        var count, more := TakeSome(bytes[offset..]);
        ghost var taken := bytes[offset..][..count];
        DecodeAppend(Wire(limit), start, bytes[..offset], taken);
        assert bytes[..offset] + taken == bytes[..offset + count];
        offset := offset + count;
        frames := frames + more;
        if failed {
          DecodeAppend(Wire(limit), start, bytes[..offset], bytes[offset..]);
          FailureIsFinal(Wire(limit), failureCode, bytes[offset..]);
          assert bytes[..offset] + bytes[offset..] == bytes;
          return Err(failureCode);
        }
      }
      assert bytes[..|bytes|] == bytes;
      return Ok(frames);
    }

    /** `finish`: the stream may end only between frames. */
    method Finish() returns (r: Result<()>)
      requires Valid()
      ensures r.Ok? <==> View() == InHeader([])
      ensures View().Failed? ==> r == Err(View().code)
    {
      if failed {
        return Err(failureCode);
      }
      if headerSize != 0 || readingPayload {
        return Err(ProtocolError);
      }
      return Ok(());
    }

    method Reset()
      requires Valid()
      modifies this
      ensures Valid() && View() == InHeader([])
    {
      headerSize := 0;
      failed, failureCode := false, ProtocolError;
      ResetCurrentFrame();
    }
  }

  /** Feeds a stream in chunks until one fails; the frames delivered are those of `FeedAll`. */
  method FeedChunks(decoder: FrameDecoder, chunks: seq<seq<byte>>)
    returns (frames: seq<Frame>, ok: bool)
    requires decoder.Valid()
    modifies decoder, decoder.header
    ensures decoder.Valid()
    ensures FeedAll(Wire(decoder.limit), old(decoder.View()), chunks) == Decoded(decoder.View(), frames)
    ensures ok == !decoder.View().Failed?
    decreases |chunks|
  {
    if |chunks| == 0 || decoder.failed {
      return [], !decoder.failed;
    }
    var first := decoder.Feed(chunks[0]);
    if first.Err? {
      return [], false;
    }
    var rest;
    rest, ok := FeedChunks(decoder, chunks[1..]);
    frames := first.value + rest;
  }
}
