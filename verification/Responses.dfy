/**
  Matching control responses to requests: `read_reconcile_response`, its out-of-order buffer and
  the request counter of a server session.
*/
module Responses {
  import opened Base

  type TunnelId = string

  /** How many requests are sent before their responses are read. */
  const SYNC_WINDOW: nat := 32

  datatype Kind =
    | Ping | RequestWorkers
    | RegisterTunnelOk | RegisterTunnelError | UnregisterTunnelOk
    | OtherKind

  /** A payload as its decoder sees it; `Unreadable` is what the decoder of the kind rejects. */
  datatype Payload =
    | Heartbeat(sequence: u64)
    | Workers(count: u16)
    | Revision(id: TunnelId, revision: u64)
    | Rejection(id: TunnelId, code: ErrorCode, revision: u64)
    | Unreadable

  datatype Frame = Frame(kind: Kind, requestId: u64, payload: Payload)

  /**
    One frame read from the server. `handled` is the outcome of the work a PING or a
    REQUEST_WORKERS asks for on arrival: the PONG written, the worker pool told.
  */
  datatype Input = Arrives(frame: Frame, handled: bool)

  type Buffer = map<u64, Frame>

  predicate IsNoise(f: Frame) {
    f.kind.Ping? || f.kind.RequestWorkers?
  }

  predicate NoiseHandled(i: Input) {
    && i.handled
    && (i.frame.kind.Ping? ==> i.frame.payload.Heartbeat?)
    && (i.frame.kind.RequestWorkers? ==> i.frame.payload.Workers?)
  }

  predicate IsCorrelated(f: Frame) {
    f.kind.RegisterTunnelOk? || f.kind.RegisterTunnelError? || f.kind.UnregisterTunnelOk?
  }

  /** An arrival that ends the session when another response is awaited and `buffer` is set aside. */
  predicate IsUnusable(i: Input, buffer: Buffer) {
    if IsNoise(i.frame) then !NoiseHandled(i)
    else || !IsCorrelated(i.frame) || i.frame.requestId == 0
         || |buffer| >= SYNC_WINDOW || i.frame.requestId in buffer
  }

  /** What is left after waiting for one response; no frame means that the session fails. */
  datatype Awaited = Awaited(frame: Option<Frame>, buffer: Buffer, input: seq<Input>)

  /** Reads until the response to `requestId` arrives; other responses are set aside. */
  function Scan(buffer: Buffer, input: seq<Input>, requestId: u64): Awaited
    decreases |input|
  {
    if |input| == 0 then Awaited(None, buffer, input)
    else
      var f := input[0].frame;
      if IsNoise(f) then
        if NoiseHandled(input[0]) then Scan(buffer, input[1..], requestId)
        else Awaited(None, buffer, input[1..])
      else if f.requestId != requestId then
        if !IsCorrelated(f) || f.requestId == 0 || |buffer| >= SYNC_WINDOW || f.requestId in buffer
        then Awaited(None, buffer, input[1..])
        else Scan(buffer[f.requestId := f], input[1..], requestId)
      else Awaited(Some(f), buffer, input[1..])
  }

  function Await(buffer: Buffer, input: seq<Input>, requestId: u64): Awaited {
    if requestId in buffer
    then Awaited(Some(buffer[requestId]), buffer - {requestId}, input)
    else Scan(buffer, input, requestId)
  }

  /** The responses to a window of requests, in the order of the requests. */
  datatype AwaitedAll = AwaitedAll(frames: Option<seq<Frame>>, buffer: Buffer, input: seq<Input>)

  function AwaitAll(buffer: Buffer, input: seq<Input>, ids: seq<u64>): AwaitedAll
    decreases |ids|
  {
    if |ids| == 0 then AwaitedAll(Some([]), buffer, input)
    else
      var first := Await(buffer, input, ids[0]);
      if first.frame.None? then AwaitedAll(None, first.buffer, first.input)
      else
        Preceded(first.frame.value, AwaitAll(first.buffer, first.input, ids[1..]))
  }

  function Preceded(f: Frame, all: AwaitedAll): AwaitedAll {
    if all.frames.None? then all else all.(frames := Some([f] + all.frames.value))
  }

  // ---------- Against any server ----------

  predicate BufferKeyed(buffer: Buffer) {
    forall id | id in buffer :: buffer[id].requestId == id && IsCorrelated(buffer[id])
  }

  ghost function Arrived(input: seq<Input>): set<Frame> {
    set i | 0 <= i < |input| :: input[i].frame
  }

  /**
    A response carries the id of its request and was sent by the server; nothing else enters the
    buffer, which never outgrows the window.
  */
  lemma {:induction false} ScanIsHonest(buffer: Buffer, input: seq<Input>, requestId: u64)
    requires BufferKeyed(buffer) && |buffer| <= SYNC_WINDOW
    ensures HonestWait(buffer, input, requestId, Scan(buffer, input, requestId))
    decreases |input|
  {
    if |input| > 0 {
      var f := input[0].frame;
      var rest := input[1..];
      if IsNoise(f) {
        ScanIsHonest(buffer, rest, requestId);
      } else if f.requestId != requestId && IsCorrelated(f) && f.requestId != 0
                && |buffer| < SYNC_WINDOW && f.requestId !in buffer {
        var wider := buffer[f.requestId := f];
        OneMore(buffer, f);
        ScanIsHonest(wider, rest, requestId);
      }
      ArrivedLater(input);
    }
  }

  ghost predicate HonestWait(buffer: Buffer, input: seq<Input>, requestId: u64, a: Awaited) {
    && BufferKeyed(a.buffer) && |a.buffer| <= SYNC_WINDOW
    && (a.frame.Some? ==>
          a.frame.value.requestId == requestId && a.frame.value in buffer.Values + Arrived(input))
    && a.buffer.Values <= buffer.Values + Arrived(input)
    && Arrived(a.input) <= Arrived(input)
  }

  lemma OneMore(buffer: Buffer, f: Frame)
    requires f.requestId !in buffer
    ensures |buffer[f.requestId := f]| == |buffer| + 1
    ensures buffer[f.requestId := f].Values <= buffer.Values + {f}
  {
    var wider := buffer[f.requestId := f];
    assert wider.Keys == buffer.Keys + {f.requestId};
    assert |wider| == |wider.Keys| && |buffer| == |buffer.Keys|;
  }

  lemma ArrivedLater(input: seq<Input>)
    requires |input| > 0
    ensures input[0].frame in Arrived(input) && Arrived(input[1..]) <= Arrived(input)
  {
    var rest := input[1..];
    forall g | g in Arrived(rest)
      ensures g in Arrived(input)
    {
      var i :| 0 <= i < |rest| && rest[i].frame == g;
      assert input[i + 1].frame == g;
    }
  }

  lemma AwaitIsHonest(buffer: Buffer, input: seq<Input>, requestId: u64)
    requires BufferKeyed(buffer) && |buffer| <= SYNC_WINDOW
    ensures HonestWait(buffer, input, requestId, Await(buffer, input, requestId))
  {
    if requestId in buffer {
      var less := buffer - {requestId};
      assert buffer.Keys == less.Keys + {requestId};
      assert |less.Keys| <= |buffer.Keys|;
    } else {
      ScanIsHonest(buffer, input, requestId);
    }
  }

  // ---------- Against a server that answers every request once ----------

  /** The answers among the frames to come, by request. */
  ghost function AnswersIn(input: seq<Input>): Buffer {
    if |input| == 0 then map[]
    else if IsNoise(input[0].frame) then AnswersIn(input[1..])
    else AnswersIn(input[1..])[input[0].frame.requestId := input[0].frame]
  }

  /** No request is answered twice; PING and REQUEST_WORKERS may stand anywhere in between. */
  ghost predicate AnsweredOnce(input: seq<Input>) {
    |input| == 0 ||
    (var f := input[0].frame;
     && AnsweredOnce(input[1..])
     && (if IsNoise(f) then NoiseHandled(input[0])
         else IsCorrelated(f) && f.requestId != 0 && f.requestId !in AnswersIn(input[1..])))
  }

  /**
    Buffered and coming answers; the input may go on after `input` with what belongs to later
    requests.
  */
  ghost predicate Outstanding(buffer: Buffer, input: seq<Input>, answers: Buffer) {
    && AnsweredOnce(input)
    && buffer.Keys !! AnswersIn(input).Keys
    && buffer + AnswersIn(input) == answers
    && |answers| <= SYNC_WINDOW
  }

  /** While `id` is awaited the buffer holds answers to other requests of the window only. */
  lemma WindowHasRoom(buffer: Buffer, keys: set<u64>, id: u64, arrived: u64)
    requires buffer.Keys <= keys && |keys| <= SYNC_WINDOW
    requires id in keys && arrived in keys && id != arrived
    requires id !in buffer && arrived !in buffer
    ensures |buffer| + 1 <= SYNC_WINDOW - 1
  {
    var others := keys - {id} - {arrived};
    assert |others| == |keys| - 2;
    assert others == buffer.Keys + (others - buffer.Keys);
    assert |buffer| == |buffer.Keys|;
  }

  /** `a` is what waiting for `id` should lead to, with `left` of the input not read yet. */
  ghost predicate Found(answers: Buffer, id: u64, a: Awaited, left: seq<Input>, rest: seq<Input>) {
    && id in answers && a.frame == Some(answers[id]) && a.input == left + rest
    && Outstanding(a.buffer, left, answers - {id})
    && |a.buffer| <= SYNC_WINDOW - 1
  }

  /** Waiting for an outstanding request finds its answer and loses none of the others. */
  lemma {:induction false} ScanFinds(
      buffer: Buffer, input: seq<Input>, rest: seq<Input>, answers: Buffer, id: u64)
    returns (left: seq<Input>)
    requires Outstanding(buffer, input, answers)
    requires id in answers && id !in buffer
    ensures Found(answers, id, Scan(buffer, input + rest, id), left, rest)
    decreases |input|
  {
    assert id in AnswersIn(input);
    var f := input[0].frame;
    assert (input + rest)[0] == input[0] && (input + rest)[1..] == input[1..] + rest;
    if IsNoise(f) {
      left := ScanFinds(buffer, input[1..], rest, answers, id);
    } else if f.requestId != id {
      SetAside(buffer, input, answers, id);
      left := ScanFinds(buffer[f.requestId := f], input[1..], rest, answers, id);
    } else {
      Take(buffer, input, answers);
      left := input[1..];
    }
  }

  lemma SetAside(buffer: Buffer, input: seq<Input>, answers: Buffer, id: u64)
    requires Outstanding(buffer, input, answers)
    requires id in answers && id !in buffer
    requires |input| > 0 && !IsNoise(input[0].frame) && input[0].frame.requestId != id
    ensures var f := input[0].frame;
            && |buffer| < SYNC_WINDOW && f.requestId !in buffer
            && Outstanding(buffer[f.requestId := f], input[1..], answers)
  {
    var f := input[0].frame;
    assert answers.Keys == buffer.Keys + AnswersIn(input).Keys;
    assert |answers| == |answers.Keys|;
    WindowHasRoom(buffer, answers.Keys, id, f.requestId);
    MoveAcross(buffer, AnswersIn(input[1..]), f);
  }

  lemma MoveAcross(buffer: Buffer, rest: Buffer, f: Frame)
    requires f.requestId !in buffer && f.requestId !in rest
    ensures buffer[f.requestId := f] + rest == buffer + rest[f.requestId := f]
  {
  }

  lemma Take(buffer: Buffer, input: seq<Input>, answers: Buffer)
    requires Outstanding(buffer, input, answers)
    requires |input| > 0 && !IsNoise(input[0].frame)
    ensures var f := input[0].frame;
            && f.requestId in answers && answers[f.requestId] == f
            && Outstanding(buffer, input[1..], answers - {f.requestId})
            && |buffer| <= SYNC_WINDOW - 1
  {
    var f := input[0].frame;
    TakeFromUnion(buffer, AnswersIn(input[1..]), f);
    RemoveOne(answers, f.requestId);
    KeysWithin(buffer, answers - {f.requestId});
  }

  lemma TakeFromUnion(buffer: Buffer, rest: Buffer, f: Frame)
    requires f.requestId !in buffer && f.requestId !in rest
    ensures var all := buffer + rest[f.requestId := f];
            && f.requestId in all && all[f.requestId] == f
            && all - {f.requestId} == buffer + rest
  {
  }

  lemma RemoveOne(answers: Buffer, id: u64)
    requires id in answers
    ensures |answers - {id}| == |answers| - 1
  {
    assert (answers - {id}).Keys == answers.Keys - {id};
    assert |answers| == |answers.Keys| && |answers - {id}| == |(answers - {id}).Keys|;
  }

  lemma KeysWithin(a: Buffer, b: Buffer)
    requires a.Keys <= b.Keys
    ensures |a| <= |b|
  {
    assert b.Keys == a.Keys + (b.Keys - a.Keys);
    assert |a| == |a.Keys| && |b| == |b.Keys|;
  }

  lemma AwaitFinds(buffer: Buffer, input: seq<Input>, rest: seq<Input>, answers: Buffer, id: u64)
    returns (left: seq<Input>)
    requires Outstanding(buffer, input, answers) && id in answers
    ensures Found(answers, id, Await(buffer, input + rest, id), left, rest)
  {
    if id in buffer {
      RemoveOne(answers, id);
      var less := buffer - {id};
      assert less + AnswersIn(input) == answers - {id};
      KeysWithin(less, answers - {id});
      left := input;
    } else {
      left := ScanFinds(buffer, input, rest, answers, id);
    }
  }

  ghost predicate Distinct<T(!new)>(s: seq<T>) {
    forall i, j | 0 <= i < j < |s| :: s[i] != s[j]
  }

  ghost function Elements<T>(s: seq<T>): set<T> {
    set x | x in s
  }

  lemma HeadApart<T(!new)>(s: seq<T>)
    requires |s| > 0 && Distinct(s)
    ensures Distinct(s[1..]) && s[0] in Elements(s)
    ensures Elements(s[1..]) == Elements(s) - {s[0]}
  {
    forall x
      ensures x in s[1..] <==> x in s && x != s[0]
    {
      if x in s && x != s[0] {
        var i :| 0 <= i < |s| && s[i] == x;
        assert s[1..][i - 1] == x;
      }
    }
  }

  ghost predicate InRequestOrder(answers: Buffer, ids: seq<u64>, frames: seq<Frame>) {
    && |frames| == |ids|
    && forall k | 0 <= k < |ids| :: ids[k] in answers && frames[k] == answers[ids[k]]
  }

  /** `all` is what waiting for `ids` in turn should lead to. */
  ghost predicate Matched(
      answers: Buffer, ids: seq<u64>, all: AwaitedAll, left: seq<Input>, rest: seq<Input>) {
    && all.frames.Some? && InRequestOrder(answers, ids, all.frames.value)
    && all.input == left + rest
    && Outstanding(all.buffer, left, answers - Elements(ids))
  }

  /**
    Whatever the order of the answers, whatever pings come between them and whatever follows: every
    request of a window gets its own answer, and the other answers are neither lost nor mixed up.
  */
  lemma {:induction false} AnyOrderIsMatched(
      buffer: Buffer, input: seq<Input>, rest: seq<Input>, answers: Buffer, ids: seq<u64>)
    returns (left: seq<Input>)
    requires Outstanding(buffer, input, answers)
    requires Distinct(ids) && Elements(ids) <= answers.Keys
    ensures Matched(answers, ids, AwaitAll(buffer, input + rest, ids), left, rest)
    decreases |ids|
  {
    if |ids| == 0 {
      left := input;
      NoneMatched(buffer, input, rest, answers, ids);
    } else {
      HeadApart(ids);
      left := AwaitFinds(buffer, input, rest, answers, ids[0]);
      var a := Await(buffer, input + rest, ids[0]);
      left := AnyOrderIsMatched(a.buffer, left, rest, answers - {ids[0]}, ids[1..]);
      FirstMatched(answers, ids, AwaitAll(a.buffer, a.input, ids[1..]), left, rest);
      assert AwaitAll(buffer, input + rest, ids)
          == Preceded(answers[ids[0]], AwaitAll(a.buffer, a.input, ids[1..]));
    }
  }

  lemma NoneMatched(
      buffer: Buffer, input: seq<Input>, rest: seq<Input>, answers: Buffer, ids: seq<u64>)
    requires Outstanding(buffer, input, answers) && |ids| == 0
    ensures Matched(answers, ids, AwaitAll(buffer, input + rest, ids), input, rest)
  {
    assert Elements(ids) == {} && answers - Elements(ids) == answers;
  }

  lemma FirstMatched(
      answers: Buffer, ids: seq<u64>, later: AwaitedAll, left: seq<Input>, rest: seq<Input>)
    requires |ids| > 0 && Distinct(ids) && Elements(ids) <= answers.Keys
    requires Matched(answers - {ids[0]}, ids[1..], later, left, rest)
    ensures ids[0] in answers && Matched(answers, ids, Preceded(answers[ids[0]], later), left, rest)
  {
    HeadApart(ids);
    InOrder(answers, ids, later.frames.value);
    MinusBoth(answers, ids[0], Elements(ids));
  }

  lemma MinusBoth(answers: Buffer, id: u64, ids: set<u64>)
    requires id in ids
    ensures answers - {id} - (ids - {id}) == answers - ids
  {
  }

  lemma InOrder(answers: Buffer, ids: seq<u64>, tail: seq<Frame>)
    requires |ids| > 0 && |tail| == |ids| - 1
    requires Distinct(ids) && Elements(ids) <= answers.Keys
    requires InRequestOrder(answers - {ids[0]}, ids[1..], tail)
    ensures ids[0] in answers && InRequestOrder(answers, ids, [answers[ids[0]]] + tail)
  {
    assert ids[0] in Elements(ids);
    forall k | 1 <= k < |ids|
      ensures ids[k] in answers && ([answers[ids[0]]] + tail)[k] == answers[ids[k]]
    {
      assert ids[k] == ids[1..][k - 1];
    }
  }

  /** A window whose answers were the only ones leaves nothing behind but pings. */
  lemma NothingIsLeft(answers: Buffer, ids: seq<u64>, all: AwaitedAll, left: seq<Input>)
    requires Matched(answers, ids, all, left, []) && Elements(ids) == answers.Keys
    ensures all.buffer == map[] && AnswersIn(all.input) == map[] && AnsweredOnce(all.input)
  {
    assert answers - Elements(ids) == map[];
    assert all.buffer.Keys <= {} && AnswersIn(left).Keys <= {};
    assert left + [] == left;
  }

  // ---------- Request ids ----------

  const LAST_ID: u64 := 0xFFFF_FFFF_FFFF_FFFF
  const FIRST_ID: u64 := 3

  /** `next_request_id`: the counter skips the ids 0, 1 and 2 when it wraps around. */
  function Following(id: u64): (next: u64) {
    if id == LAST_ID then FIRST_ID else id + 1
  }

  /** The ids of the next `n` requests. */
  function NextIds(id: u64, n: nat): (ids: seq<u64>)
    ensures |ids| == n
    decreases n
  {
    if n == 0 then [] else [id] + NextIds(Following(id), n - 1)
  }

  /** The counter after `n` requests. */
  function IdAfter(id: u64, n: nat): u64
    decreases n
  {
    if n == 0 then id else IdAfter(Following(id), n - 1)
  }

  /** Positions on the circle of usable ids; at most one turn is ever needed. */
  function Wrap(position: nat): nat {
    if position > LAST_ID - FIRST_ID then position - (LAST_ID - FIRST_ID + 1) else position
  }

  lemma {:induction false} NextIdAt(id: u64, n: nat, k: nat)
    requires id >= FIRST_ID && k < n && k < LAST_ID - FIRST_ID
    ensures NextIds(id, n)[k]
         == FIRST_ID + Wrap(id - FIRST_ID + k)
    decreases k
  {
    if k > 0 {
      NextIdAt(Following(id), n - 1, k - 1);
    }
  }

  /** The requests of one window have distinct ids that no heartbeat or handshake uses. */
  lemma WindowIdsAreDistinct(id: u64, n: nat)
    requires id >= FIRST_ID && n <= SYNC_WINDOW
    ensures Distinct(NextIds(id, n))
    ensures forall k | 0 <= k < n :: NextIds(id, n)[k] >= FIRST_ID
  {
    forall k | 0 <= k < n
      ensures NextIds(id, n)[k] >= FIRST_ID
    {
      NextIdAt(id, n, k);
    }
    forall i, j | 0 <= i < j < n
      ensures NextIds(id, n)[i] != NextIds(id, n)[j]
    {
      NextIdAt(id, n, i);
      NextIdAt(id, n, j);
    }
  }
}
