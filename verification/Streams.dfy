/** Byte streams of frames, each a header of fixed size and a payload, read one byte at a time. */
module Streams {
  import opened Base

  /** `parse` reads a complete header, `size` says how long the payload is, `build` makes the frame. */
  datatype Format<!H, !F> = Format(
    headerSize: nat, parse: seq<byte> -> Result<H>, size: H -> nat, build: (H, seq<byte>) -> F)

  datatype Cursor<H> =
    | InHeader(header: seq<byte>)
    | InPayload(head: H, payload: seq<byte>)
    | Failed(code: ErrorCode)

  datatype Decoded<H, F> = Decoded(cursor: Cursor<H>, frames: seq<F>)

  /** What a complete header leads to. */
  function Opened<H, F>(f: Format<H, F>, header: seq<byte>): Decoded<H, F> {
    var parsed := f.parse(header);
    if parsed.Err? then Decoded(Failed(parsed.code), [])
    else if f.size(parsed.value) == 0 then Decoded(InHeader([]), [f.build(parsed.value, [])])
    else Decoded(InPayload(parsed.value, []), [])
  }

  function Step<H, F>(f: Format<H, F>, c: Cursor<H>, b: byte): Decoded<H, F> {
    match c
    case InHeader(header) =>
      if |header| + 1 < f.headerSize then Decoded(InHeader(header + [b]), [])
      else Opened(f, header + [b])
    case InPayload(head, payload) =>
      if |payload| + 1 < f.size(head) then Decoded(InPayload(head, payload + [b]), [])
      else Decoded(InHeader([]), [f.build(head, payload + [b])])
    case Failed(code) => Decoded(c, [])
  }

  /** The reference decoder. */
  function Decode<H, F>(f: Format<H, F>, c: Cursor<H>, bytes: seq<byte>): Decoded<H, F>
    decreases |bytes|
  {
    if |bytes| == 0 then Decoded(c, [])
    else
      var first := Step(f, c, bytes[0]);
      var rest := Decode(f, first.cursor, bytes[1..]);
      Decoded(rest.cursor, first.frames + rest.frames)
  }

  lemma {:induction false} DecodeAppend<H, F>(
      f: Format<H, F>, c: Cursor<H>, a: seq<byte>, b: seq<byte>)
    ensures var x := Decode(f, c, a);
            var y := Decode(f, x.cursor, b);
            Decode(f, c, a + b) == Decoded(y.cursor, x.frames + y.frames)
    decreases |a|
  {
    if |a| == 0 {
      assert a + b == b;
    } else {
      assert (a + b)[0] == a[0] && (a + b)[1..] == a[1..] + b;
      var first := Step(f, c, a[0]);
      var x := Decode(f, first.cursor, a[1..]);
      var y := Decode(f, x.cursor, b);
      DecodeAppend(f, first.cursor, a[1..], b);
      assert first.frames + (x.frames + y.frames) == (first.frames + x.frames) + y.frames;
    }
  }

  lemma {:induction false} FailureIsFinal<H, F>(f: Format<H, F>, code: ErrorCode, bytes: seq<byte>)
    ensures Decode(f, Failed(code), bytes) == Decoded(Failed(code), [])
    decreases |bytes|
  {
    if |bytes| > 0 {
      FailureIsFinal(f, code, bytes[1..]);
    }
  }

  // ---------- Several bytes at once ----------

  lemma Shift(a: seq<byte>, bytes: seq<byte>)
    requires |bytes| > 0
    ensures a + [bytes[0]] + bytes[1..] == a + bytes
  {
  }

  lemma {:induction false} HeaderRun<H, F>(f: Format<H, F>, header: seq<byte>, bytes: seq<byte>)
    requires |header| + |bytes| < f.headerSize
    ensures Decode(f, InHeader(header), bytes) == Decoded(InHeader(header + bytes), [])
    decreases |bytes|
  {
    if |bytes| == 0 {
      assert header + bytes == header;
    } else {
      HeaderRun(f, header + [bytes[0]], bytes[1..]);
      Shift(header, bytes);
    }
  }

  lemma HeaderEnds<H, F>(f: Format<H, F>, header: seq<byte>, bytes: seq<byte>)
    requires |header| < f.headerSize && |header| + |bytes| == f.headerSize
    ensures Decode(f, InHeader(header), bytes) == Opened(f, header + bytes)
  {
    var n := |bytes| - 1;
    assert bytes == bytes[..n] + [bytes[n]] && header + bytes == header + bytes[..n] + [bytes[n]];
    HeaderRun(f, header, bytes[..n]);
    DecodeAppend(f, InHeader(header), bytes[..n], [bytes[n]]);
    OneByte(f, InHeader(header + bytes[..n]), bytes[n]);
  }

  lemma OneByte<H, F>(f: Format<H, F>, c: Cursor<H>, b: byte)
    ensures Decode(f, c, [b]) == Step(f, c, b)
  {
    assert Decode(f, Step(f, c, b).cursor, []) == Decoded(Step(f, c, b).cursor, []);
  }

  lemma {:induction false} PayloadRun<H, F>(
      f: Format<H, F>, head: H, payload: seq<byte>, bytes: seq<byte>)
    requires |payload| + |bytes| < f.size(head)
    ensures Decode(f, InPayload(head, payload), bytes) == Decoded(InPayload(head, payload + bytes), [])
    decreases |bytes|
  {
    if |bytes| == 0 {
      assert payload + bytes == payload;
    } else {
      PayloadRun(f, head, payload + [bytes[0]], bytes[1..]);
      Shift(payload, bytes);
    }
  }

  lemma PayloadEnds<H, F>(f: Format<H, F>, head: H, payload: seq<byte>, bytes: seq<byte>)
    requires |payload| < f.size(head) && |payload| + |bytes| == f.size(head)
    ensures Decode(f, InPayload(head, payload), bytes)
         == Decoded(InHeader([]), [f.build(head, payload + bytes)])
  {
    var n := |bytes| - 1;
    assert bytes == bytes[..n] + [bytes[n]] && payload + bytes == payload + bytes[..n] + [bytes[n]];
    PayloadRun(f, head, payload, bytes[..n]);
    DecodeAppend(f, InPayload(head, payload), bytes[..n], [bytes[n]]);
    OneByte(f, InPayload(head, payload + bytes[..n]), bytes[n]);
  }

  /** A whole frame. */
  lemma FrameDecodes<H, F>(f: Format<H, F>, header: seq<byte>, head: H, payload: seq<byte>)
    requires |header| == f.headerSize > 0 && f.parse(header) == Ok(head)
    requires f.size(head) == |payload|
    ensures Decode(f, InHeader([]), header + payload) == Decoded(InHeader([]), [f.build(head, payload)])
  {
    HeaderEnds(f, [], header);
    assert [] + header == header;
    DecodeAppend(f, InHeader([]), header, payload);
    if |payload| > 0 {
      PayloadEnds(f, head, [], payload);
      assert [] + payload == payload;
    } else {
      assert payload == [];
    }
  }

  // ---------- Regrouping bytes ----------

  lemma Regroup(
      before: seq<byte>, bytes: seq<byte>, first: seq<byte>, middle: seq<byte>, rest: seq<byte>,
      after: seq<byte>)
    requires |bytes| > 0 && before + [bytes[0]] == first + middle && middle + bytes[1..] == rest + after
    ensures before + bytes == first + rest + after
  {
    assert before + bytes == before + [bytes[0]] + bytes[1..];
    assert first + middle + bytes[1..] == first + (middle + bytes[1..]);
    assert first + (rest + after) == first + rest + after;
  }

  // ---------- Streams cut into chunks ----------

  function Concat(chunks: seq<seq<byte>>): seq<byte> {
    if |chunks| == 0 then [] else chunks[0] + Concat(chunks[1..])
  }

  /** What a caller gets who feeds chunks one by one: a failing call delivers nothing. */
  function FeedAll<H, F>(f: Format<H, F>, c: Cursor<H>, chunks: seq<seq<byte>>): Decoded<H, F>
    decreases |chunks|
  {
    if |chunks| == 0 || c.Failed? then Decoded(c, [])
    else
      var first := Decode(f, c, chunks[0]);
      if first.cursor.Failed? then Decoded(first.cursor, [])
      else
        var rest := FeedAll(f, first.cursor, chunks[1..]);
        Decoded(rest.cursor, first.frames + rest.frames)
  }

  /**
    The verdict does not depend on the cuts; the frames delivered are all of them, or a prefix if
    the stream is malformed.
  */
  lemma {:induction false} ChunkingIsInvisible<H, F>(
      f: Format<H, F>, c: Cursor<H>, chunks: seq<seq<byte>>)
    ensures FeedAll(f, c, chunks).cursor == Decode(f, c, Concat(chunks)).cursor
    ensures !Decode(f, c, Concat(chunks)).cursor.Failed? ==>
              FeedAll(f, c, chunks) == Decode(f, c, Concat(chunks))
    ensures FeedAll(f, c, chunks).frames <= Decode(f, c, Concat(chunks)).frames
    decreases |chunks|
  {
    if c.Failed? {
      FailureIsFinal(f, c.code, Concat(chunks));
    } else if |chunks| > 0 {
      var first := Decode(f, c, chunks[0]);
      DecodeAppend(f, c, chunks[0], Concat(chunks[1..]));
      if first.cursor.Failed? {
        FailureIsFinal(f, first.cursor.code, Concat(chunks[1..]));
      } else {
        ChunkingIsInvisible(f, first.cursor, chunks[1..]);
      }
    }
  }

  /** Two ways of cutting the same stream. */
  lemma CutsAgree<H, F>(f: Format<H, F>, c: Cursor<H>, a: seq<seq<byte>>, b: seq<seq<byte>>)
    requires Concat(a) == Concat(b)
    ensures FeedAll(f, c, a).cursor == FeedAll(f, c, b).cursor
    ensures !FeedAll(f, c, a).cursor.Failed? ==> FeedAll(f, c, a).frames == FeedAll(f, c, b).frames
  {
    ChunkingIsInvisible(f, c, a);
    ChunkingIsInvisible(f, c, b);
  }

  // ---------- What is buffered between calls ----------

  predicate Buffers<H, F>(f: Format<H, F>, c: Cursor<H>) {
    match c
    case InHeader(header) => |header| < f.headerSize
    case InPayload(head, payload) => |payload| < f.size(head)
    case Failed(code) => true
  }

  function Buffered<H>(c: Cursor<H>): nat {
    match c
    case InHeader(header) => |header|
    case InPayload(head, payload) => |payload|
    case Failed(code) => 0
  }

  lemma {:induction false} BuffersKept<H, F>(f: Format<H, F>, c: Cursor<H>, bytes: seq<byte>)
    requires f.headerSize > 0 && Buffers(f, c)
    ensures Buffers(f, Decode(f, c, bytes).cursor)
    decreases |bytes|
  {
    if |bytes| > 0 {
      BuffersKept(f, Step(f, c, bytes[0]).cursor, bytes[1..]);
    }
  }
}
