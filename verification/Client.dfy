/** The client multiplexer of src/proto/ClientTransport.cpp as a step machine.

    Every `sendRequest` call is a coroutine with a number (its handle); its program point is its
    `Phase`. One event is the code between two suspensions or mutex operations. The kernel streams
    are byte sequences: `output` holds the bytes written and not yet taken by the peer, `input` the
    bytes sent by the peer and not yet read. `answer` and `queue` are history: which body the peer
    sent for which call, and in what order. No step of the program looks at them. */
module Client {
  import opened Util
  import opened Wire
  import opened Framing

  const MAX_TAGS: nat := 65535

  datatype Phase =
    | Reserved             // tag inserted in the table, the lock is held
    | Waiting              // request written, coroutine suspended
    | Scheduled            // header stored, handle given to the thread pool
    | Draining             // resumed, body not fully read, no read outstanding
    | Reading(want: nat)   // a body read is outstanding on the transport
    | Releasing            // last body byte read, tag not yet erased
    | Finished             // tag erased

  datatype Call = Call(tag: nat, command: nat, request: seq<byte>, phase: Phase,
                       header: Option<ResponseHeader>, got: seq<byte>, answer: Option<seq<byte>>)

  /** `ClientRequestState`: whose coroutine the tag belongs to and the header delivered to it. */
  datatype Request = Request(call: nat, header: Option<ResponseHeader>)

  /** `currentWaitForResponseCoroutine`: null, suspended in the header read, or suspended after
      having delivered a header. */
  datatype Reader = NoReader | Armed | Parked

  datatype Answered = Answered(call: nat, tag: nat, body: seq<byte>)

  datatype State = State(pending: map<nat, Request>, lock: Option<nat>, reader: Reader,
                         unreadLength: nat, unreadTag: nat,
                         input: seq<byte>, output: seq<byte>, failed: bool,
                         calls: map<nat, Call>, queue: seq<Answered>)

  datatype Event =
    | Reserve(call: nat, tag: nat, command: nat, request: seq<byte>)
    | Send(call: nat)
    | Deliver(n: nat)                          // the peer takes n bytes of `output`
    | Answer(tag: nat, body: seq<byte>)        // the peer appends one response to `input`
    | HeaderArrives
    | Resume(call: nat)
    | ReadBody(call: nat, want: nat)
    | BodyArrives(call: nat)
    | Release(call: nat)

  const INITIAL := State(map[], None, NoReader, 0, 0, [], [], false, map[], [])

  /** The tag chosen by the scan of `reserveRequestState`. */
  ghost predicate LeastFree(pending: map<nat, Request>, tag: nat) {
    tag !in pending && forall i: nat | i < tag :: i in pending
  }

  predicate InPhase(s: State, c: nat, p: Phase) {
    c in s.calls && s.calls[c].phase == p
  }

  predicate InReading(s: State, c: nat) {
    c in s.calls && s.calls[c].phase.Reading?
  }

  /** What the program itself requires of a step: mutexes free, bytes arrived, assertions met. */
  ghost predicate Enabled(s: State, e: Event) {
    !s.failed &&
    match e
    case Reserve(c, t, command, request) =>
      c !in s.calls && s.lock.None? && LeastFree(s.pending, t) && t < MAX_TAGS && |request| < U32
    case Send(c) => InPhase(s, c, Reserved)
    case Deliver(n) => n <= |s.output|
    case Answer(t, body) => t < U16 && |body| < U32
    case HeaderArrives => s.reader == Armed && |s.input| >= RESPONSE_HEADER_SIZE
    case Resume(c) => InPhase(s, c, Scheduled) && s.lock.None? && s.calls[c].tag in s.pending
                      && s.pending[s.calls[c].tag].header.Some?
    case ReadBody(c, n) => InPhase(s, c, Draining) && n <= s.unreadLength && s.unreadLength > 0
    case BodyArrives(c) => InReading(s, c) && |s.input| >= s.calls[c].phase.want
                           && s.calls[c].phase.want <= s.unreadLength
    case Release(c) => InPhase(s, c, Releasing) && s.lock.None?
  }

  /** What is assumed of the peer: it answers requests that were written, once each. */
  predicate Honest(s: State, e: Event) {
    e.Answer? ==>
      e.tag in s.pending && InPhase(s, s.pending[e.tag].call, Waiting)
      && s.calls[s.pending[e.tag].call].answer.None?
  }

  /** The request of a call as a frame. */
  function FrameOf(c: Call): Frame {
    Frame(c.command, c.tag, c.request)
  }

  function SetCall(s: State, c: nat, call: Call): State {
    s.(calls := s.calls[c := call])
  }

  /** Lines 52-57 and 90-95: erase the tag, then start the next reader if anybody still waits. */
  function EraseAndRearm(s: State, tag: nat): State {
    var rest := s.pending - {tag};
    s.(pending := rest, reader := if rest == map[] then NoReader else Armed)
  }

  function DoReserve(s: State, c: nat, t: nat, command: nat, request: seq<byte>): State {
    s.(lock := Some(c), pending := s.pending[t := Request(c, None)],
       calls := s.calls[c := Call(t, command, request, Reserved, None, [], None)])
  }

  function DoSend(s: State, c: nat): State
    requires c in s.calls
  {
    SetCall(s, c, s.calls[c].(phase := Waiting)).(
      output := s.output + EncodeFrame(FrameOf(s.calls[c])),
      reader := if |s.pending| == 1 then Armed else s.reader,
      lock := None)
  }

  function DoAnswer(s: State, t: nat, body: seq<byte>): State {
    var s' := s.(input := s.input + EncodeResponse(ResponseHeader(|body|, t)) + body);
    if t in s.pending && s.pending[t].call in s.calls then
      var c := s.pending[t].call;
      SetCall(s', c, s.calls[c].(answer := Some(body))).(queue := s.queue + [Answered(c, t, body)])
    else s'
  }

  function DoHeader(s: State): State
    requires |s.input| >= RESPONSE_HEADER_SIZE
  {
    var h := DecodeResponse(s.input[..RESPONSE_HEADER_SIZE]);
    var s' := s.(input := s.input[RESPONSE_HEADER_SIZE..]);
    if h.tag !in s.pending || s.pending[h.tag].call !in s.calls then s'.(failed := true) else
      var c := s.pending[h.tag].call;
      SetCall(s', c, s.calls[c].(phase := Scheduled)).(
        pending := s.pending[h.tag := Request(c, Some(h))],
        unreadLength := h.responseLen, unreadTag := h.tag, reader := Parked,
        queue := if s.queue == [] then [] else s.queue[1..])
  }

  function DoResume(s: State, c: nat): State
    requires c in s.calls && s.calls[c].tag in s.pending
    requires s.pending[s.calls[c].tag].header.Some?
  {
    var call := s.calls[c];
    var h := s.pending[call.tag].header;
    var s' := s.(reader := NoReader);
    if h.value.responseLen == 0 then
      EraseAndRearm(SetCall(s', c, call.(phase := Finished, header := h)), call.tag)
    else
      SetCall(s', c, call.(phase := Draining, header := h))
  }

  function DoBody(s: State, c: nat): State
    requires InReading(s, c) && |s.input| >= s.calls[c].phase.want
    requires s.calls[c].phase.want <= s.unreadLength
  {
    var call := s.calls[c];
    var n := call.phase.want;
    SetCall(s, c, call.(got := call.got + s.input[..n],
                        phase := if s.unreadLength == n then Releasing else Draining)).(
      input := s.input[n..], unreadLength := s.unreadLength - n)
  }

  function DoRelease(s: State, c: nat): State
    requires c in s.calls
  {
    EraseAndRearm(SetCall(s, c, s.calls[c].(phase := Finished)), s.unreadTag)
  }

  function Apply(s: State, e: Event): State
    requires Enabled(s, e)
  {
    match e
    case Reserve(c, t, command, request) => DoReserve(s, c, t, command, request)
    case Send(c) => DoSend(s, c)
    case Deliver(n) => s.(output := s.output[n..])
    case Answer(t, body) => DoAnswer(s, t, body)
    case HeaderArrives => DoHeader(s)
    case Resume(c) => DoResume(s, c)
    case ReadBody(c, n) => SetCall(s, c, s.calls[c].(phase := Reading(n)))
    case BodyArrives(c) => DoBody(s, c)
    case Release(c) => DoRelease(s, c)
  }

  // ------------------------------------------------------------------ the invariant

  predicate Active(p: Phase) {
    p.Scheduled? || InBody(p)
  }

  predicate InBody(p: Phase) {
    p.Draining? || p.Reading? || p.Releasing?
  }

  /** The table and the calls point at each other; every tag in use belongs to one live call. */
  ghost predicate TagTable(s: State) {
    && (forall t | t in s.pending ::
          && t < MAX_TAGS && s.pending[t].call in s.calls
          && s.calls[s.pending[t].call].tag == t
          && s.calls[s.pending[t].call].phase != Finished)
    && (forall c | c in s.calls && s.calls[c].phase != Finished ::
          s.calls[c].tag in s.pending && s.pending[s.calls[c].tag].call == c)
  }

  /** The lock is held between suspensions only by the caller that has reserved and not sent. */
  ghost predicate LockHeld(s: State) {
    && (s.lock.Some? ==> s.lock.value in s.calls)
    && forall c | c in s.calls :: s.calls[c].phase == Reserved <==> s.lock == Some(c)
  }

  /** One header reader at most, and never beside a body read. */
  ghost predicate OneReader(s: State) {
    && (forall c | c in s.calls && Active(s.calls[c].phase) :: s.calls[c].tag == s.unreadTag)
    && (forall c | c in s.calls && s.calls[c].phase == Scheduled :: s.reader == Parked)
    && (forall c | c in s.calls && InBody(s.calls[c].phase) :: s.reader == NoReader)
    && (s.reader == Parked ==>
          s.unreadTag in s.pending && InPhase(s, s.pending[s.unreadTag].call, Scheduled))
    && (s.reader == Armed ==> exists c :: InPhase(s, c, Waiting))
    && (s.reader == NoReader ==>
          || BodyOpen(s)
          || (forall c | c in s.calls :: s.calls[c].phase == Reserved || s.calls[c].phase == Finished))
  }

  ghost predicate BodyOpen(s: State) {
    && s.unreadTag in s.pending && s.pending[s.unreadTag].call in s.calls
    && InBody(s.calls[s.pending[s.unreadTag].call].phase)
  }

  ghost predicate InQueue(q: seq<Answered>, c: nat) {
    exists i | 0 <= i < |q| :: q[i].call == c
  }

  /** What each call has received so far, against what the peer answered to it. */
  ghost predicate CallData(s: State, c: nat)
    requires c in s.calls
  {
    var call := s.calls[c];
    && |call.request| < U32
    && (call.answer.Some? ==> |call.answer.value| < U32)
    && match call.phase
       case Reserved => call.answer.None? && call.header.None? && call.got == []
       case Waiting => call.header.None? && call.got == []
       case Scheduled =>
         && call.answer.Some? && call.header.None? && call.got == []
         && s.unreadLength == |call.answer.value|
         && (call.tag in s.pending ==> s.pending[call.tag].header == Some(HeaderOf(call)))
       case Finished => Answer0(call) && call.got == call.answer.value
       case _ =>
         && Answer0(call) && |call.got| <= |call.answer.value|
         && call.got == call.answer.value[..|call.got|]
         && s.unreadLength == |call.answer.value| - |call.got|
         && (call.phase.Releasing? <==> s.unreadLength == 0)
         && (call.phase.Reading? ==> call.phase.want <= s.unreadLength)
  }

  function HeaderOf(call: Call): ResponseHeader
    requires call.answer.Some?
  {
    ResponseHeader(|call.answer.value|, call.tag)
  }

  predicate Answer0(call: Call) {
    call.answer.Some? && call.header == Some(HeaderOf(call))
  }

  ghost predicate Data(s: State) {
    forall c | c in s.calls :: CallData(s, c)
  }

  /** The answers in flight are those of the waiting calls that were answered, once each. */
  ghost predicate Queue(s: State) {
    && (forall i | 0 <= i < |s.queue| ::
          && InPhase(s, s.queue[i].call, Waiting)
          && s.queue[i].tag == s.calls[s.queue[i].call].tag
          && s.calls[s.queue[i].call].answer == Some(s.queue[i].body))
    && (forall i, j | 0 <= i < j < |s.queue| :: s.queue[i].call != s.queue[j].call)
    && (forall c | c in s.calls && s.calls[c].phase == Waiting && s.calls[c].answer.Some? ::
          InQueue(s.queue, c))
  }

  function AnswerBytes(a: Answered): seq<byte> {
    EncodeResponse(ResponseHeader(|a.body|, a.tag)) + a.body
  }

  function Flatten(q: seq<Answered>): seq<byte> {
    if q == [] then [] else AnswerBytes(q[0]) + Flatten(q[1..])
  }

  lemma {:induction false} FlattenAppend(q: seq<Answered>, a: Answered)
    ensures Flatten(q + [a]) == Flatten(q) + AnswerBytes(a)
  {
    if q == [] {
      assert q + [a] == [a];
      assert Flatten([]) == [];
    } else {
      assert (q + [a])[1..] == q[1..] + [a];
      FlattenAppend(q[1..], a);
    }
  }

  /** The part of a delivered response that its requester has not read. */
  function Unread(s: State): seq<byte> {
    if s.unreadTag !in s.pending || s.pending[s.unreadTag].call !in s.calls then [] else
    var call := s.calls[s.pending[s.unreadTag].call];
    if Active(call.phase) && call.answer.Some? && |call.got| <= |call.answer.value|
    then call.answer.value[|call.got|..] else []
  }

  /** The unread input is the rest of the open response, then the answers in flight. */
  ghost predicate Stream(s: State) {
    s.input == Unread(s) + Flatten(s.queue)
  }

  ghost predicate Inv(s: State) {
    && !s.failed
    && TagTable(s) && LockHeld(s) && OneReader(s)
    && Data(s) && Queue(s) && Stream(s)
  }

  lemma InitialInv()
    ensures Inv(INITIAL)
  {
  }

  // ------------------------------------------------------------------ preservation: control

  /** The part of the invariant about tags, the lock and the reader. */
  ghost predicate Control(s: State) {
    TagTable(s) && LockHeld(s) && OneReader(s)
  }

  /** Only the owner of `unreadTag` is active. */
  lemma OneActive(s: State, c: nat)
    requires TagTable(s) && OneReader(s) && c in s.calls && Active(s.calls[c].phase)
    ensures s.unreadTag in s.pending && s.pending[s.unreadTag].call == c
    ensures forall d | d in s.calls && Active(s.calls[d].phase) :: d == c
  {
    forall d | d in s.calls && Active(s.calls[d].phase) ensures d == c {
      assert s.pending[s.calls[d].tag].call == d;
    }
  }

  lemma ReserveControl(s: State, s': State, c: nat, t: nat)
    requires Control(s) && s.lock.None? && c !in s.calls && t !in s.pending && t < MAX_TAGS
    requires s'.lock == Some(c) && s'.pending == s.pending[t := Request(c, None)]
    requires c in s'.calls && s'.calls == s.calls[c := s'.calls[c]]
    requires s'.calls[c].tag == t && s'.calls[c].phase == Reserved
    requires s'.reader == s.reader && s'.unreadTag == s.unreadTag
    ensures Control(s')
  {
    assert TagTable(s');
    if s.reader == Armed {
      var d :| InPhase(s, d, Waiting);
      assert InPhase(s', d, Waiting);
    }
  }

  lemma OnlyTag(s: State, t: nat)
    requires t in s.pending
    ensures |s.pending| == 1 <==> s.pending.Keys == {t}
  {
    assert |s.pending.Keys| == |s.pending|;
    if |s.pending| == 1 {
      SubsetSize({t}, s.pending.Keys);
    }
  }

  /** When the table holds one tag under the lock, nobody else is alive and no reader exists:
      the assertion of line 39. */
  lemma LoneSender(s: State, c: nat)
    requires Control(s) && InPhase(s, c, Reserved) && |s.pending| == 1
    ensures s.reader == NoReader
    ensures forall d | d in s.calls && d != c :: s.calls[d].phase == Finished
  {
    OnlyTag(s, s.calls[c].tag);
    forall d | d in s.calls && s.calls[d].phase != Finished ensures d == c {
      assert s.calls[d].tag in s.pending.Keys;
    }
  }

  /** With more tags in the table there is a reader, or a body is being read. */
  lemma CompanyOfSender(s: State, c: nat)
    requires Control(s) && InPhase(s, c, Reserved) && |s.pending| != 1
    ensures s.reader == NoReader ==> BodyOpen(s)
  {
    var t := s.calls[c].tag;
    OnlyTag(s, t);
    var u :| u in s.pending && u != t;
    assert s.calls[s.pending[u].call].phase != Reserved;
  }

  lemma SendControl(s: State, s': State, c: nat)
    requires Control(s) && InPhase(s, c, Reserved)
    requires s'.calls == s.calls[c := s.calls[c].(phase := Waiting)]
    requires s'.pending == s.pending && s'.unreadTag == s.unreadTag && s'.lock == None
    requires s'.reader == if |s.pending| == 1 then Armed else s.reader
    ensures Control(s')
  {
    assert TagTable(s') && LockHeld(s');
    assert InPhase(s', c, Waiting);
    if |s.pending| == 1 {
      LoneSender(s, c);
    } else {
      CompanyOfSender(s, c);
    }
  }

  /** A step of the active caller inside its body. */
  lemma BodyControl(s: State, s': State, c: nat)
    requires Control(s) && c in s.calls && Active(s.calls[c].phase)
    requires c in s'.calls && s'.calls == s.calls[c := s'.calls[c]]
    requires InBody(s'.calls[c].phase) && s'.calls[c].tag == s.calls[c].tag
    requires s'.pending == s.pending && s'.unreadTag == s.unreadTag && s'.lock == s.lock
    requires s'.reader == NoReader
    ensures Control(s')
  {
    OneActive(s, c);
  }

  lemma HeaderControl(s: State, s': State, c: nat, h: ResponseHeader)
    requires Control(s) && s.reader == Armed && InPhase(s, c, Waiting)
    requires s'.calls == s.calls[c := s.calls[c].(phase := Scheduled)]
    requires s'.pending == s.pending[s.calls[c].tag := Request(c, Some(h))]
    requires s'.unreadTag == s.calls[c].tag && s'.lock == s.lock && s'.reader == Parked
    ensures Control(s')
  {
  }

  lemma NobodyLeft(s: State)
    requires TagTable(s) && s.pending == map[]
    ensures forall d | d in s.calls :: s.calls[d].phase == Finished
  {
  }

  /** Erasing the active caller's tag and starting the next reader, with the lock free. */
  lemma EraseControl(s: State, s': State, c: nat)
    requires Control(s) && s.lock.None? && c in s.calls && Active(s.calls[c].phase)
    requires c in s'.calls && s'.calls == s.calls[c := s'.calls[c]] && s'.calls[c].phase == Finished
    requires s'.pending == s.pending - {s.calls[c].tag} && s'.unreadTag == s.unreadTag
    requires s'.lock == None && s'.reader == if s'.pending == map[] then NoReader else Armed
    ensures Control(s')
  {
    OneActive(s, c);
    assert TagTable(s') && LockHeld(s');
    if s'.pending != map[] {
      var t :| t in s'.pending;
      assert InPhase(s', s'.pending[t].call, Waiting);
    } else {
      NobodyLeft(s');
    }
  }

  // ------------------------------------------------------------------ preservation: data

  /** Changing one call, with the shared length kept or nobody else using it. */
  lemma DataFrame(s: State, s': State, c: nat)
    requires Data(s) && c in s'.calls && s'.calls == s.calls[c := s'.calls[c]] && CallData(s', c)
    requires
      || (forall d | d in s.calls && d != c :: !Active(s.calls[d].phase))
      || (s'.unreadLength == s.unreadLength
          && (forall t | t in s'.pending && t in s.pending && t != s'.calls[c].tag ::
                s'.pending[t] == s.pending[t])
          && (forall d | d in s.calls && d != c && s.calls[d].phase == Scheduled ::
                s.calls[d].tag in s.pending && s.calls[d].tag != s'.calls[c].tag))
    ensures Data(s')
  {
    forall d | d in s'.calls ensures CallData(s', d) {
      if d != c {
        assert CallData(s, d);
      }
    }
  }

  lemma QueueFrame(s: State, s': State, c: nat)
    requires Queue(s) && s'.queue == s.queue && c in s'.calls && s'.calls == s.calls[c := s'.calls[c]]
    requires c in s.calls ==> s.calls[c].phase != Waiting
    requires s'.calls[c].phase == Waiting ==> s'.calls[c].answer.None?
    ensures Queue(s')
  {
  }

  lemma ReserveUnread(s: State, s': State, c: nat, t: nat)
    requires TagTable(s) && c !in s.calls && t !in s.pending
    requires s'.pending == s.pending[t := Request(c, None)] && s'.unreadTag == s.unreadTag
    requires c in s'.calls && s'.calls == s.calls[c := s'.calls[c]] && s'.calls[c].phase == Reserved
    ensures Unread(s') == Unread(s)
  {
  }

  lemma ReserveKeeps(s: State, c: nat, t: nat, command: nat, request: seq<byte>)
    requires Inv(s) && Enabled(s, Reserve(c, t, command, request))
    ensures Inv(DoReserve(s, c, t, command, request))
  {
    var s' := DoReserve(s, c, t, command, request);
    ReserveControl(s, s', c, t);
    ReserveUnread(s, s', c, t);
    DataFrame(s, s', c);
    QueueFrame(s, s', c);
  }

  lemma SendKeeps(s: State, c: nat)
    requires Inv(s) && Enabled(s, Send(c))
    ensures Inv(DoSend(s, c))
  {
    var s' := DoSend(s, c);
    SendControl(s, s', c);
    assert CallData(s, c);
    DataFrame(s, s', c);
    QueueFrame(s, s', c);
    assert Unread(s') == Unread(s);
  }

  lemma AnswerControl(s: State, s': State, c: nat)
    requires Control(s) && InPhase(s, c, Waiting)
    requires c in s'.calls && s'.calls == s.calls[c := s'.calls[c]]
    requires s'.calls[c].phase == Waiting && s'.calls[c].tag == s.calls[c].tag
    requires s'.pending == s.pending && s'.unreadTag == s.unreadTag && s'.lock == s.lock
    requires s'.reader == s.reader
    ensures Control(s') && Unread(s') == Unread(s)
  {
    assert InPhase(s', c, Waiting);
  }

  lemma AnswerQueue(s: State, s': State, c: nat, body: seq<byte>)
    requires Queue(s) && InPhase(s, c, Waiting) && s.calls[c].answer.None?
    requires s'.calls == s.calls[c := s.calls[c].(answer := Some(body))]
    requires s'.queue == s.queue + [Answered(c, s.calls[c].tag, body)]
    ensures Queue(s')
  {
    assert s'.queue[|s.queue|].call == c;
    forall d | d in s'.calls && s'.calls[d].phase == Waiting && s'.calls[d].answer.Some?
      ensures InQueue(s'.queue, d)
    {
      if d != c {
        var i :| 0 <= i < |s.queue| && s.queue[i].call == d;
        assert s'.queue[i].call == d;
      }
    }
  }

  lemma AnswerStream(s: State, s': State, a: Answered)
    requires Stream(s) && Unread(s') == Unread(s) && s'.queue == s.queue + [a]
    requires s'.input == s.input + EncodeResponse(ResponseHeader(|a.body|, a.tag)) + a.body
    ensures Stream(s')
  {
    FlattenAppend(s.queue, a);
    assert s'.input == Unread(s) + Flatten(s.queue) + AnswerBytes(a);
  }

  lemma AnswerKeeps(s: State, t: nat, body: seq<byte>)
    requires Inv(s) && Enabled(s, Answer(t, body)) && Honest(s, Answer(t, body))
    ensures Inv(DoAnswer(s, t, body))
  {
    var s' := DoAnswer(s, t, body);
    var c := s.pending[t].call;
    AnswerControl(s, s', c);
    AnswerQueue(s, s', c, body);
    assert CallData(s, c);
    DataFrame(s, s', c);
    AnswerStream(s, s', Answered(c, t, body));
  }

  lemma AnswerHead(a: Answered, rest: seq<byte>)
    requires |a.body| < U32 && a.tag < U16
    ensures |AnswerBytes(a) + rest| >= RESPONSE_HEADER_SIZE
    ensures DecodeResponse((AnswerBytes(a) + rest)[..RESPONSE_HEADER_SIZE]) == ResponseHeader(|a.body|, a.tag)
    ensures (AnswerBytes(a) + rest)[RESPONSE_HEADER_SIZE..] == a.body + rest
  {
    var h := ResponseHeader(|a.body|, a.tag);
    assert AnswerBytes(a) + rest == EncodeResponse(h) + (a.body + rest);
    TakeHead(EncodeResponse(h), a.body + rest);
    ResponseRoundTrip(h);
  }

  /** The armed reader finds the header of the oldest answer in flight. */
  lemma NextHeader(s: State)
    requires Inv(s) && Enabled(s, HeaderArrives)
    ensures s.queue != [] && s.queue[0].tag in s.pending
    ensures s.pending[s.queue[0].tag].call == s.queue[0].call
    ensures DecodeResponse(s.input[..RESPONSE_HEADER_SIZE]) == HeaderOf(s.calls[s.queue[0].call])
    ensures s.input[RESPONSE_HEADER_SIZE..] == s.queue[0].body + Flatten(s.queue[1..])
  {
    assert Unread(s) == [];
    assert s.input == Flatten(s.queue);
    var a := s.queue[0];
    assert CallData(s, a.call);
    AnswerHead(a, Flatten(s.queue[1..]));
  }

  lemma HeaderQueue(s: State, s': State)
    requires Queue(s) && s.queue != [] && s'.queue == s.queue[1..]
    requires s'.calls == s.calls[s.queue[0].call := s.calls[s.queue[0].call].(phase := Scheduled)]
    ensures Queue(s')
  {
    forall c | c in s'.calls && s'.calls[c].phase == Waiting && s'.calls[c].answer.Some?
      ensures InQueue(s'.queue, c)
    {
      var i :| 0 <= i < |s.queue| && s.queue[i].call == c;
      assert s'.queue[i - 1].call == c;
    }
  }

  lemma HeaderKeeps(s: State)
    requires Inv(s) && Enabled(s, HeaderArrives)
    ensures Inv(DoHeader(s))
  {
    NextHeader(s);
    var s' := DoHeader(s);
    var a := s.queue[0];
    HeaderControl(s, s', a.call, HeaderOf(s.calls[a.call]));
    HeaderQueue(s, s');
    assert CallData(s, a.call);
    DataFrame(s, s', a.call);
    assert Unread(s') == a.body;
  }

  lemma ResumeKeeps(s: State, c: nat)
    requires Inv(s) && Enabled(s, Resume(c))
    ensures Inv(DoResume(s, c))
  {
    var s' := DoResume(s, c);
    assert CallData(s, c);
    OneActive(s, c);
    DataFrame(s, s', c);
    QueueFrame(s, s', c);
    if s.pending[s.calls[c].tag].header.value.responseLen == 0 {
      EraseControl(s, s', c);
      assert Unread(s') == [];
    } else {
      BodyControl(s, s', c);
    }
  }

  lemma ReadBodyKeeps(s: State, c: nat, n: nat)
    requires Inv(s) && Enabled(s, ReadBody(c, n))
    ensures Inv(Apply(s, ReadBody(c, n)))
  {
    var s' := Apply(s, ReadBody(c, n));
    assert CallData(s, c);
    BodyControl(s, s', c);
    DataFrame(s, s', c);
    QueueFrame(s, s', c);
    OneActive(s, c);
    assert Unread(s') == Unread(s);
  }

  lemma TakeMiddle(b: seq<byte>, k: nat, n: nat, rest: seq<byte>)
    requires k + n <= |b|
    ensures (b[k..] + rest)[..n] == b[k..k + n]
    ensures (b[k..] + rest)[n..] == b[k + n..] + rest
    ensures b[..k] + b[k..k + n] == b[..k + n]
  {
    assert b[k..] == b[k..k + n] + b[k + n..];
  }

  /** A body read takes bytes of the reader's own answer, in order. */
  lemma NextBody(s: State, c: nat)
    requires Inv(s) && Enabled(s, BodyArrives(c))
    ensures s.calls[c].answer.Some?
    ensures var call, n := s.calls[c], s.calls[c].phase.want;
            && |call.got| + n <= |call.answer.value|
            && s.input[..n] == call.answer.value[|call.got|..|call.got| + n]
            && s.input[n..] == call.answer.value[|call.got| + n..] + Flatten(s.queue)
            && call.got + s.input[..n] == call.answer.value[..|call.got| + n]
  {
    assert CallData(s, c);
    OneActive(s, c);
    TakeMiddle(s.calls[c].answer.value, |s.calls[c].got|, s.calls[c].phase.want, Flatten(s.queue));
  }

  lemma BodyData(s: State, s': State, c: nat, n: nat)
    requires InReading(s, c) && CallData(s, c) && n == s.calls[c].phase.want <= s.unreadLength
    requires c in s'.calls && |s.calls[c].got| + n <= |s.calls[c].answer.value|
    requires s'.calls[c] == s.calls[c].(got := s.calls[c].answer.value[..|s.calls[c].got| + n],
                                        phase := if s.unreadLength == n then Releasing else Draining)
    requires s'.unreadLength == s.unreadLength - n
    ensures CallData(s', c)
  {
  }

  lemma BodyStream(s: State, s': State, c: nat, n: nat)
    requires s.unreadTag in s.pending && s.pending[s.unreadTag].call == c && c in s.calls
    requires s.calls[c].answer.Some? && |s.calls[c].got| + n <= |s.calls[c].answer.value|
    requires s'.pending == s.pending && s'.unreadTag == s.unreadTag && s'.queue == s.queue
    requires c in s'.calls && InBody(s'.calls[c].phase) && s'.calls[c].answer == s.calls[c].answer
    requires |s'.calls[c].got| == |s.calls[c].got| + n
    requires s'.input == s.calls[c].answer.value[|s.calls[c].got| + n..] + Flatten(s.queue)
    ensures Stream(s')
  {
  }

  lemma BodyStreamKeeps(s: State, c: nat)
    requires Inv(s) && Enabled(s, BodyArrives(c))
    ensures Stream(DoBody(s, c))
  {
    NextBody(s, c);
    OneActive(s, c);
    BodyStream(s, DoBody(s, c), c, s.calls[c].phase.want);
  }

  lemma BodyDataKeeps(s: State, c: nat)
    requires Inv(s) && Enabled(s, BodyArrives(c))
    ensures CallData(DoBody(s, c), c)
  {
    NextBody(s, c);
    BodyData(s, DoBody(s, c), c, s.calls[c].phase.want);
  }

  lemma BodyKeeps(s: State, c: nat)
    requires Inv(s) && Enabled(s, BodyArrives(c))
    ensures Inv(DoBody(s, c))
  {
    var s' := DoBody(s, c);
    BodyDataKeeps(s, c);
    BodyStreamKeeps(s, c);
    OneActive(s, c);
    BodyControl(s, s', c);
    DataFrame(s, s', c);
    QueueFrame(s, s', c);
  }

  lemma ReleaseKeeps(s: State, c: nat)
    requires Inv(s) && Enabled(s, Release(c))
    ensures Inv(DoRelease(s, c))
  {
    var s' := DoRelease(s, c);
    assert CallData(s, c);
    OneActive(s, c);
    EraseControl(s, s', c);
    assert Unread(s') == [];
    DataFrame(s, s', c);
    QueueFrame(s, s', c);
  }

  lemma DeliverKeeps(s: State, n: nat)
    requires Inv(s) && n <= |s.output|
    ensures Inv(s.(output := s.output[n..]))
  {
    var s' := s.(output := s.output[n..]);
    if s.reader == Armed {
      var c :| InPhase(s, c, Waiting);
      assert InPhase(s', c, Waiting);
    }
    forall c | c in s.calls ensures CallData(s', c) {
      assert CallData(s, c);
    }
    assert Unread(s') == Unread(s);
  }

  lemma StepKeeps(s: State, e: Event)
    requires Inv(s) && Enabled(s, e) && Honest(s, e)
    ensures Inv(Apply(s, e))
  {
    match e
    case Reserve(c, t, command, request) => ReserveKeeps(s, c, t, command, request);
    case Send(c) => SendKeeps(s, c);
    case Deliver(n) => DeliverKeeps(s, n);
    case Answer(t, body) => AnswerKeeps(s, t, body);
    case HeaderArrives => HeaderKeeps(s);
    case Resume(c) => ResumeKeeps(s, c);
    case ReadBody(c, n) => ReadBodyKeeps(s, c, n);
    case BodyArrives(c) => BodyKeeps(s, c);
    case Release(c) => ReleaseKeeps(s, c);
  }
}
