/**
  What a session has exchanged with its server and asked of storage, as a sequence of events, and
  the rules such a sequence is judged by.
*/
module Trace {
  import opened Base
  import opened Responses

  type Endpoint = string

  datatype Mode = Tcp | Udp | Socks5 | P2p

  datatype Desired = WantActive | WantDisabled | WantRemoved

  datatype Actual = Pending | Registering | Active | Failed | Removing | Disabled

  /** The public listener a tunnel asks for. */
  datatype Binding = Binding(mode: Mode, remote: Endpoint)

  datatype Event =
    | CycleStarted
    | SentRegister(requestId: u64, id: TunnelId, revision: u64, binding: Binding)
    | SentUnregister(requestId: u64, id: TunnelId, revision: u64)
    | Received(frame: Frame)
    // A frame that ends the session was read.
    | Spoiled(frame: Frame)
    // A frame received earlier, or just now, is taken for the response to a request.
    | Taken(requestId: u64, frame: Frame)
    // The session has taken in the server's word that it does not hold a listener for `id`.
    | Dropped(id: TunnelId)
    | Persisted(id: TunnelId, revision: u64, actual: Actual)

  function OkFrame(requestId: u64, id: TunnelId, revision: u64): Frame {
    Frame(RegisterTunnelOk, requestId, Revision(id, revision))
  }

  function RemovedFrame(requestId: u64, id: TunnelId, revision: u64): Frame {
    Frame(UnregisterTunnelOk, requestId, Revision(id, revision))
  }

  function ErrorFrame(requestId: u64, id: TunnelId, code: ErrorCode, revision: u64): Frame {
    Frame(RegisterTunnelError, requestId, Rejection(id, code, revision))
  }

  /**
    What is remembered of the past to judge the next event.

    `asked` and `revoked` are the REGISTER and UNREGISTER requests written, `heard` the frames read.
    `holds` are the listeners the server may hold: each from the moment its REGISTER is written
    until the session knows that it was refused or removed. `open` are removals not acknowledged
    yet. `registers` and `unregisters` are the requests written in the current cycle. The last
    three say whether some event so far broke its rule; see `Allowed`.
  */
  datatype Ledger = Ledger(
    asked: set<(u64, TunnelId, u64)>, revoked: set<(u64, TunnelId, u64)>, heard: set<Frame>,
    holds: map<TunnelId, Binding>, open: set<TunnelId>,
    registers: set<TunnelId>, unregisters: set<TunnelId>,
    collided: bool, misreported: bool, unordered: bool)

  const BLANK := Ledger({}, {}, {}, map[], {}, {}, {}, false, false, false)

  /** A REGISTER for the pair was sent and an OK with the same request id and pair came back. */
  ghost predicate Accepted(l: Ledger, id: TunnelId, revision: u64) {
    exists requestId ::
      (requestId, id, revision) in l.asked && OkFrame(requestId, id, revision) in l.heard
  }

  ghost predicate Rejected(l: Ledger, id: TunnelId, revision: u64) {
    exists requestId, code ::
      (requestId, id, revision) in l.asked && ErrorFrame(requestId, id, code, revision) in l.heard
  }

  /** A response to the REGISTER `q` that is neither its OK nor its refusal. */
  ghost predicate IsBadAnswer(f: Frame, q: (u64, TunnelId, u64)) {
    && f.requestId == q.0 && !IsNoise(f)
    && f != OkFrame(q.0, q.1, q.2) && (forall code :: f != ErrorFrame(q.0, q.1, code, q.2))
  }

  /** A response to the UNREGISTER `q` that is not its acknowledgement. */
  ghost predicate IsBadRemoval(f: Frame, q: (u64, TunnelId, u64)) {
    f.requestId == q.0 && !IsNoise(f) && f != RemovedFrame(q.0, q.1, q.2)
  }

  /** The server broke the protocol in one of its responses. */
  ghost predicate Misanswered(l: Ledger) {
    || (exists f, q | f in l.heard && q in l.asked :: IsBadAnswer(f, q))
    || (exists f, q | f in l.heard && q in l.revoked :: IsBadRemoval(f, q))
  }

  /** A REGISTER does not ask for a listener, nor name a tunnel, that the server may still hold. */
  ghost predicate NoCollision(l: Ledger, e: Event) {
    e.SentRegister? ==> e.id !in l.holds && e.binding !in l.holds.Values
  }

  /** A tunnel is reported active only after the server accepted it at that very revision. */
  ghost predicate HonestReport(l: Ledger, e: Event) {
    e.Persisted? && e.actual.Active? ==> Accepted(l, e.id, e.revision)
  }

  /** In a cycle every removal is asked for and acknowledged before the first REGISTER. */
  ghost predicate RevokedFirst(l: Ledger, e: Event) {
    && (e.SentRegister? ==> l.open == {})
    && (e.SentUnregister? ==> l.registers == {})
  }

  ghost function Judge(l: Ledger, e: Event): Ledger {
    l.(collided := l.collided || !NoCollision(l, e),
       misreported := l.misreported || !HonestReport(l, e),
       unordered := l.unordered || !RevokedFirst(l, e))
  }

  ghost function Record(l: Ledger, e: Event): Ledger {
    match e
    case CycleStarted => l.(registers := {}, unregisters := {})
    case SentRegister(requestId, id, revision, binding) =>
      l.(asked := l.asked + {(requestId, id, revision)},
         holds := l.holds[id := binding],
         registers := l.registers + {id})
    case SentUnregister(requestId, id, revision) =>
      l.(revoked := l.revoked + {(requestId, id, revision)},
         open := l.open + {id}, unregisters := l.unregisters + {id})
    case Received(frame) => l.(heard := l.heard + {frame})
    case Spoiled(frame) => l
    case Taken(requestId, frame) => l
    case Dropped(id) => l.(holds := l.holds - {id}, open := l.open - {id})
    case Persisted(id, revision, actual) => l
  }

  ghost function Note(l: Ledger, e: Event): Ledger {
    Record(Judge(l, e), e)
  }

  ghost function LedgerOf(t: seq<Event>): Ledger {
    if |t| == 0 then BLANK else Note(LedgerOf(t[..|t| - 1]), t[|t| - 1])
  }

  lemma LedgerGrows(t: seq<Event>, e: Event)
    ensures LedgerOf(t + [e]) == Note(LedgerOf(t), e)
  {
    assert (t + [e])[..|t|] == t;
  }

  lemma HeardWasReceived(t: seq<Event>, f: Frame)
    requires f in LedgerOf(t).heard
    ensures Received(f) in t
  {
    var n := |t| - 1;
    if t[n] != Received(f) {
      HeardWasReceived(t[..n], f);
    }
  }

  lemma AskedWasSent(t: seq<Event>, q: (u64, TunnelId, u64))
    requires q in LedgerOf(t).asked
    ensures exists b :: SentRegister(q.0, q.1, q.2, b) in t
  {
    var n := |t| - 1;
    if q in LedgerOf(t[..n]).asked {
      AskedWasSent(t[..n], q);
      var b :| SentRegister(q.0, q.1, q.2, b) in t[..n];
      assert SentRegister(q.0, q.1, q.2, b) in t;
    } else {
      assert t[n] == SentRegister(q.0, q.1, q.2, t[n].binding);
    }
  }

  /** What `Accepted` means of the trace itself. */
  lemma AcceptedWasExchanged(t: seq<Event>, id: TunnelId, revision: u64)
    requires Accepted(LedgerOf(t), id, revision)
    ensures exists requestId, b ::
              && SentRegister(requestId, id, revision, b) in t
              && Received(OkFrame(requestId, id, revision)) in t
  {
    var l := LedgerOf(t);
    var requestId :| (requestId, id, revision) in l.asked && OkFrame(requestId, id, revision) in l.heard;
    AskedWasSent(t, (requestId, id, revision));
    HeardWasReceived(t, OkFrame(requestId, id, revision));
  }

  /** A verdict is final: it covers every event of the trace. */
  lemma {:induction false} VerdictCovers(t: seq<Event>, i: nat)
    requires i < |t|
    ensures !LedgerOf(t).collided ==> NoCollision(LedgerOf(t[..i]), t[i])
    ensures !LedgerOf(t).misreported ==> HonestReport(LedgerOf(t[..i]), t[i])
    ensures !LedgerOf(t).unordered ==> RevokedFirst(LedgerOf(t[..i]), t[i])
  {
    var n := |t| - 1;
    if i < n {
      VerdictCovers(t[..n], i);
      assert t[..n][..i] == t[..i];
    }
  }

  // ---------- Which came first, a request or its response ----------

  /**
    `buffer` are the responses received and not taken yet, `waiting` the requests without a response,
    `early` those written while a response with their id was in the buffer, with that response.
    `mistaken` says whether
    something was ever taken for a response that was not received, or answers no waiting request.
  */
  datatype Desk = Desk(
    buffer: Buffer, waiting: set<u64>, early: set<(Event, Frame)>, mistaken: bool)

  const CLEARED := Desk(map[], {}, {}, false)

  predicate IsRequest(e: Event) {
    e.SentRegister? || e.SentUnregister?
  }

  /** Events that concern requests and their responses. */
  predicate IsForDesk(e: Event) {
    IsRequest(e) || e.Received? || e.Taken?
  }

  ghost predicate FairlyTaken(d: Desk, e: Event) {
    e.Taken? ==> e.requestId in d.waiting && e.requestId in d.buffer && d.buffer[e.requestId] == e.frame
  }

  function Written(d: Desk, e: Event): Desk
    requires IsRequest(e)
  {
    var r := e.requestId;
    d.(waiting := d.waiting + {r},
       early := if r in d.buffer then d.early + {(e, d.buffer[r])} else d.early)
  }

  function Filed(buffer: Buffer, f: Frame): Buffer {
    if IsNoise(f) || f.requestId in buffer then buffer else buffer[f.requestId := f]
  }

  ghost function Handle(d: Desk, e: Event): Desk {
    if IsRequest(e) then Written(d, e)
    else if e.Received? then d.(buffer := Filed(d.buffer, e.frame))
    else if e.Taken? then
      Desk(d.buffer - {e.requestId}, d.waiting - {e.requestId}, d.early, d.mistaken || !FairlyTaken(d, e))
    else d
  }

  ghost function DeskOf(t: seq<Event>): Desk {
    if |t| == 0 then CLEARED else Handle(DeskOf(t[..|t| - 1]), t[|t| - 1])
  }

  lemma DeskGrows(t: seq<Event>, e: Event)
    ensures DeskOf(t + [e]) == Handle(DeskOf(t), e)
  {
    assert (t + [e])[..|t|] == t;
  }

  lemma {:induction false} TakenFairly(t: seq<Event>, i: nat)
    requires i < |t| && !DeskOf(t).mistaken
    ensures FairlyTaken(DeskOf(t[..i]), t[i])
  {
    var n := |t| - 1;
    if i < n {
      TakenFairly(t[..n], i);
      assert t[..n][..i] == t[..i];
    }
  }

  /** Where in the trace the buffered responses were received. */
  ghost function ArrivedAt(t: seq<Event>): map<u64, nat> {
    if |t| == 0 then map[]
    else
      var n, before := |t| - 1, ArrivedAt(t[..|t| - 1]);
      match t[n]
      case Received(f) =>
        if IsNoise(f) || f.requestId in before then before else before[f.requestId := n]
      case Taken(requestId, f) => before - {requestId}
      case _ => before
  }

  /** Where in the trace the requests that still wait were written. */
  ghost function SentAt(t: seq<Event>): map<u64, nat> {
    if |t| == 0 then map[]
    else
      var n, before := |t| - 1, SentAt(t[..|t| - 1]);
      if IsRequest(t[n]) then before[t[n].requestId := n]
      else if t[n].Taken? then before - {t[n].requestId}
      else before
  }

  ghost predicate WasReceived(t: seq<Event>, at: nat, r: u64, f: Frame) {
    at < |t| && t[at] == Received(f) && f.requestId == r
  }

  lemma {:induction false} ArrivalIs(t: seq<Event>)
    ensures ArrivedAt(t).Keys == DeskOf(t).buffer.Keys
    ensures forall r | r in ArrivedAt(t) :: WasReceived(t, ArrivedAt(t)[r], r, DeskOf(t).buffer[r])
  {
    if |t| > 0 {
      var before := t[..|t| - 1];
      ArrivalIs(before);
      forall r | r in ArrivedAt(t)
        ensures WasReceived(t, ArrivedAt(t)[r], r, DeskOf(t).buffer[r])
      {
        if r in ArrivedAt(before) {
          assert WasReceived(before, ArrivedAt(before)[r], r, DeskOf(before).buffer[r]);
        }
      }
    }
  }

  ghost predicate WasSent(t: seq<Event>, at: nat, r: u64) {
    at < |t| && IsRequest(t[at]) && t[at].requestId == r
  }

  lemma {:induction false} SendingIs(t: seq<Event>)
    ensures SentAt(t).Keys == DeskOf(t).waiting
    ensures forall r | r in SentAt(t) :: WasSent(t, SentAt(t)[r], r)
  {
    if |t| > 0 {
      var before := t[..|t| - 1];
      SendingIs(before);
      forall r | r in SentAt(t)
        ensures WasSent(t, SentAt(t)[r], r)
      {
        if r in SentAt(before) {
          assert WasSent(before, SentAt(before)[r], r);
        }
      }
    }
  }

  /** A response in the buffer when its request is written stays there; any other comes after. */
  lemma {:induction false} BufferedStays(t: seq<Event>, r: u64)
    requires r in SentAt(t)
    ensures SentAt(t)[r] < |t|
    ensures var k := SentAt(t)[r];
            var early := ArrivedAt(t[..k]);
            && (r in early ==> r in ArrivedAt(t) && ArrivedAt(t)[r] == early[r] < k)
            && (r !in early && r in ArrivedAt(t) ==> ArrivedAt(t)[r] > k)
  {
    var n := |t| - 1;
    var before := t[..n];
    if IsRequest(t[n]) && t[n].requestId == r {
      ArrivalIs(before);
      if r in ArrivedAt(before) {
        assert WasReceived(before, ArrivedAt(before)[r], r, DeskOf(before).buffer[r]);
      }
    } else {
      BufferedStays(before, r);
      assert before[..SentAt(t)[r]] == t[..SentAt(t)[r]];
    }
  }

  /**
    In a trace without a mistaken response: what is taken for the response to a request was received
    after the request was written, exactly when no response with its id was in the buffer then.
  */
  lemma ResponseIsLaterIff(t: seq<Event>, i: nat) returns (sent: nat, arrived: nat)
    requires i < |t| && t[i].Taken? && !DeskOf(t).mistaken
    ensures sent < i && IsRequest(t[sent]) && t[sent].requestId == t[i].requestId
    ensures arrived < i && t[arrived] == Received(t[i].frame)
    ensures arrived > sent <==> t[i].requestId !in DeskOf(t[..sent]).buffer
  {
    var r, before := t[i].requestId, t[..i];
    TakenFairly(t, i);
    ArrivalIs(before);
    SendingIs(before);
    sent, arrived := SentAt(before)[r], ArrivedAt(before)[r];
    assert WasSent(before, sent, r) && WasReceived(before, arrived, r, t[i].frame);
    BufferedStays(before, r);
    assert before[..sent] == t[..sent];
    ArrivalIs(t[..sent]);
  }

  /** What `early` means of the trace itself. */
  lemma {:induction false} EarlyCameFirst(t: seq<Event>, request: Event, response: Frame)
    returns (arrived: nat, sent: nat)
    requires (request, response) in DeskOf(t).early
    ensures arrived < sent < |t| && t[sent] == request && t[arrived] == Received(response)
  {
    var n := |t| - 1;
    var before := t[..n];
    if (request, response) in DeskOf(before).early {
      arrived, sent := EarlyCameFirst(before, request, response);
    } else {
      var r := request.requestId;
      ArrivalIs(before);
      arrived, sent := ArrivedAt(before)[r], n;
      assert WasReceived(before, arrived, r, DeskOf(before).buffer[r]);
    }
  }

  // ---------- Ledgers only grow in what they know ----------

  ghost predicate Knows(l: Ledger, m: Ledger) {
    l.asked <= m.asked && l.revoked <= m.revoked && l.heard <= m.heard
  }

  lemma KnowsKeeps(l: Ledger, m: Ledger)
    requires Knows(l, m)
    ensures forall id, revision | Accepted(l, id, revision) :: Accepted(m, id, revision)
    ensures forall id, revision | Rejected(l, id, revision) :: Rejected(m, id, revision)
  {
  }

  // ---------- Several events at once ----------

  ghost function NoteAll(l: Ledger, es: seq<Event>): Ledger {
    if |es| == 0 then l else Note(NoteAll(l, es[..|es| - 1]), es[|es| - 1])
  }

  lemma {:induction false} LedgerGrowsAll(t: seq<Event>, es: seq<Event>)
    ensures LedgerOf(t + es) == NoteAll(LedgerOf(t), es)
  {
    if |es| == 0 {
      assert t + es == t;
    } else {
      var n := |es| - 1;
      LedgerGrowsAll(t, es[..n]);
      assert t + es == (t + es[..n]) + [es[n]];
      LedgerGrows(t + es[..n], es[n]);
    }
  }

  /** The desk after several requests were written. */
  ghost function WrittenAll(d: Desk, es: seq<Event>): Desk {
    d.(waiting := d.waiting + RequestsIn(es), early := d.early + EarlyIn(es, d.buffer))
  }

  /** The requests among `es` whose response is in the buffer. */
  ghost function EarlyIn(es: seq<Event>, buffer: Buffer): set<(Event, Frame)> {
    set i | 0 <= i < |es| && IsRequest(es[i]) && es[i].requestId in buffer ::
      (es[i], buffer[es[i].requestId])
  }

  ghost function RequestsIn(es: seq<Event>): set<u64> {
    set i | 0 <= i < |es| && IsRequest(es[i]) :: es[i].requestId
  }

  lemma {:induction false} DeskGrowsAll(t: seq<Event>, es: seq<Event>)
    requires forall i | 0 <= i < |es| :: IsRequest(es[i])
    ensures DeskOf(t + es) == WrittenAll(DeskOf(t), es)
  {
    if |es| == 0 {
      assert t + es == t;
      NothingWritten(DeskOf(t), es);
    } else {
      var n := |es| - 1;
      DeskGrowsAll(t, es[..n]);
      assert t + es == (t + es[..n]) + [es[n]];
      DeskGrows(t + es[..n], es[n]);
      WrittenMore(DeskOf(t), es);
    }
  }

  lemma NothingWritten(d: Desk, es: seq<Event>)
    requires |es| == 0
    ensures WrittenAll(d, es) == d
  {
    assert RequestsIn(es) == {} && EarlyIn(es, d.buffer) == {};
  }

  lemma WrittenMore(d: Desk, es: seq<Event>)
    requires |es| > 0 && forall i | 0 <= i < |es| :: IsRequest(es[i])
    ensures Handle(WrittenAll(d, es[..|es| - 1]), es[|es| - 1]) == WrittenAll(d, es)
  {
    OneMoreRequest(es);
    OneMoreEarly(es, d.buffer);
    var before, r := RequestsIn(es[..|es| - 1]), es[|es| - 1].requestId;
    assert d.waiting + before + {r} == d.waiting + (before + {r});
  }

  lemma OneMoreEarly(es: seq<Event>, buffer: Buffer)
    requires |es| > 0 && IsRequest(es[|es| - 1])
    ensures var e := es[|es| - 1];
            EarlyIn(es, buffer) == EarlyIn(es[..|es| - 1], buffer)
              + if e.requestId in buffer then {(e, buffer[e.requestId])} else {}
  {
    var n, before := |es| - 1, es[..|es| - 1];
    forall x | x in EarlyIn(before, buffer)
      ensures x in EarlyIn(es, buffer)
    {
      var i :| 0 <= i < n && IsRequest(before[i]) && before[i].requestId in buffer
               && x == (before[i], buffer[before[i].requestId]);
      assert es[i] == before[i];
    }
    forall x | x in EarlyIn(es, buffer)
      ensures x in EarlyIn(before, buffer)
           || (es[n].requestId in buffer && x == (es[n], buffer[es[n].requestId]))
    {
      var i :| 0 <= i < |es| && IsRequest(es[i]) && es[i].requestId in buffer
               && x == (es[i], buffer[es[i].requestId]);
      if i < n {
        assert before[i] == es[i];
      }
    }
  }

  lemma OneMoreRequest(es: seq<Event>)
    requires |es| > 0 && IsRequest(es[|es| - 1])
    requires forall i | 0 <= i < |es| :: IsRequest(es[i])
    ensures RequestsIn(es) == RequestsIn(es[..|es| - 1]) + {es[|es| - 1].requestId}
  {
    var n := |es| - 1;
    forall r | r in RequestsIn(es[..n])
      ensures r in RequestsIn(es)
    {
      var i :| 0 <= i < n && IsRequest(es[..n][i]) && es[..n][i].requestId == r;
      assert es[i].requestId == r;
    }
    forall r | r in RequestsIn(es)
      ensures r in RequestsIn(es[..n]) + {es[n].requestId}
    {
      var i :| 0 <= i < |es| && IsRequest(es[i]) && es[i].requestId == r;
      if i < n {
        assert es[..n][i].requestId == r;
      }
    }
  }
}
