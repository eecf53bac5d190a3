/** Client and server of one connection, composed through two FIFO byte streams: the client's output
    is what `listen` reads, the responses of the handlers are the client's input.

    `sent` (request frames in transit), `current` (rest of the frame being read) and `silent` (tags
    whose handler returned without a response) are history. The model runs up to the first refused
    header, where the connection stops. */
module Link {
  import opened Util
  import opened Wire
  import opened Framing
  import C = Client
  import S = Server
  import Channels

  datatype State = State(c: C.State, s: S.State, sent: seq<Frame>, current: seq<byte>, silent: set<nat>)

  const INITIAL := State(C.INITIAL, S.INITIAL, [], [], {})

  datatype Event =
    | FromClient(ce: C.Event)
    | ServerReadsHeader
    | ServerReadsBody
    | HandlerStep(se: S.Event)                 // Start, Finish, Record
    | HandlerWrites(tag: nat, body: seq<byte>) // the response of a handler that owns the write lock

  /** Requests the server accepts by themselves; streams of others are not modelled. */
  predicate WellFormed(command: nat, request: seq<byte>) {
    0 < command < S.COMMAND_COUNT && |request| <= S.MAX_REQUEST_LENGTH
  }

  ghost predicate Enabled(l: State, e: Event) {
    !l.s.stopped &&
    match e
    case FromClient(ce) => C.Enabled(l.c, ce) && !ce.Answer? && !ce.Deliver?
                           && (ce.Reserve? ==> WellFormed(ce.command, ce.request))
    case ServerReadsHeader => l.s.listen.AtHeader? && |l.c.output| >= REQUEST_HEADER_SIZE && !l.c.failed
    case ServerReadsBody => l.s.listen.AtBody? && l.s.listen.tag in l.s.pending
                            && |l.c.output| >= l.s.listen.want && !l.c.failed
    case HandlerStep(se) => S.Enabled(l.s, se) && (se.Start? || se.Finish? || se.Record?)
    case HandlerWrites(t, body) => S.At(l.s, t, S.Granted) && t < U16 && |body| < U32 && !l.c.failed
  }

  function Take(c: C.State, n: nat): C.State
    requires n <= |c.output|
  {
    c.(output := c.output[n..])
  }

  ghost function Apply(l: State, e: Event): State
    requires Enabled(l, e)
  {
    match e
    case FromClient(ce) =>
      l.(c := C.Apply(l.c, ce),
         sent := if ce.Send? then l.sent + [C.FrameOf(l.c.calls[ce.call])] else l.sent)
    case ServerReadsHeader =>
      var h := DecodeRequest(l.c.output[..REQUEST_HEADER_SIZE]);
      l.(c := Take(l.c, REQUEST_HEADER_SIZE), s := S.DoHeader(l.s, h),
         sent := if l.sent == [] then [] else l.sent[1..],
         current := if l.sent == [] then [] else l.sent[0].body)
    case ServerReadsBody =>
      var n := l.s.listen.want;
      l.(c := Take(l.c, n), s := S.DoBody(l.s, l.c.output[..n]), current := [])
    case HandlerStep(se) =>
      l.(s := S.Apply(l.s, se),
         silent := if se.Start? && l.s.pending[se.tag].command != S.PING then l.silent + {se.tag}
                   else l.silent)
    case HandlerWrites(t, body) =>
      l.(c := C.DoAnswer(l.c, t, body), s := S.DoWrite(l.s, t))
  }

  // ------------------------------------------------------------------ where a request is

  function CountSent(q: seq<Frame>, t: nat): nat {
    if q == [] then 0 else (if q[0].tag == t then 1 else 0) + CountSent(q[1..], t)
  }

  lemma {:induction false} CountSentAppend(q: seq<Frame>, f: Frame, t: nat)
    ensures CountSent(q + [f], t) == CountSent(q, t) + (if f.tag == t then 1 else 0)
  {
    if q == [] {
      assert q + [f] == [f];
    } else {
      assert (q + [f])[1..] == q[1..] + [f];
      CountSentAppend(q[1..], f, t);
    }
  }

  function CountAnswers(q: seq<C.Answered>, t: nat): nat {
    if q == [] then 0 else (if q[0].tag == t then 1 else 0) + CountAnswers(q[1..], t)
  }

  lemma {:induction false} CountAnswersAppend(q: seq<C.Answered>, a: C.Answered, t: nat)
    ensures CountAnswers(q + [a], t) == CountAnswers(q, t) + (if a.tag == t then 1 else 0)
  {
    if q == [] {
      assert q + [a] == [a];
    } else {
      assert (q + [a])[1..] == q[1..] + [a];
      CountAnswersAppend(q[1..], a, t);
    }
  }

  predicate Written(c: C.State, t: nat) {
    t in c.pending && c.pending[t].call in c.calls && c.calls[c.pending[t].call].phase != C.Reserved
  }

  /** The response header has reached the requester and the tag is not released. */
  predicate Delivered(c: C.State, t: nat) {
    t in c.pending && c.pending[t].call in c.calls && C.Active(c.calls[c.pending[t].call].phase)
  }

  /** A handler has the request, or `listen` is reading it, and no response is written. */
  predicate AtServer(s: S.State, t: nat) {
    t in s.pending
    && (s.pending[t].phase.Receiving? || s.pending[t].phase.Ready?
        || s.pending[t].phase.Queued? || s.pending[t].phase.Granted?)
  }

  /** In how many places the request with tag `t` is: frames in transit, the server, responses in
      transit, its requester, or answered by nobody. */
  function Places(l: State, t: nat): nat {
    CountSent(l.sent, t) + Bit(AtServer(l.s, t)) + CountAnswers(l.c.queue, t)
    + Bit(Delivered(l.c, t)) + Bit(t in l.silent)
  }

  ghost predicate Conserved(l: State) {
    forall t :: Places(l, t) == Bit(Written(l.c, t))
  }

  /** A frame in transit is that of a live call. */
  ghost predicate FrameOfCall(c: C.State, f: Frame) {
    WellFormed(f.command, f.body) && Written(c, f.tag) && f == C.FrameOf(c.calls[c.pending[f.tag].call])
  }

  /** The request stream is the rest of the frame being read, then the frames in transit. */
  ghost predicate Requests(l: State) {
    && l.c.output == l.current + Concat(l.sent)
    && (l.s.listen.AtHeader? ==> l.current == [])
    && (l.s.listen.AtBody? ==> |l.current| == l.s.listen.want)
    && (forall i | 0 <= i < |l.sent| :: FrameOfCall(l.c, l.sent[i]))
    && (forall c | c in l.c.calls :: WellFormed(l.c.calls[c].command, l.c.calls[c].request))
  }

  /** Each handler works on the request of the call that waits for its tag. */
  ghost predicate Faithful(l: State) {
    forall t | AtServer(l.s, t) && Written(l.c, t) ::
      var call := l.c.calls[l.c.pending[t].call];
      && l.s.pending[t].command == call.command
      && (if l.s.pending[t].phase.Receiving? then l.current == call.request
          else l.s.pending[t].body == call.request)
  }

  /** Handlers that ended without writing are remembered as silent. */
  ghost predicate Silence(l: State) {
    forall t | t in l.s.pending && l.s.pending[t].command != S.PING && !AtServer(l.s, t) ::
      t in l.silent
  }

  ghost predicate InTransit(l: State) {
    Conserved(l) && Requests(l) && Faithful(l) && Silence(l)
  }

  ghost predicate Inv(l: State) {
    C.Inv(l.c) && S.Basic(l.s) && (!l.s.stopped ==> InTransit(l))
  }

  lemma InitialInv()
    ensures Inv(INITIAL)
  {
    C.InitialInv();
  }

  // ------------------------------------------------------------------ client steps

  lemma ReserveMoves(c: C.State, e: C.Event)
    requires C.TagTable(c) && C.Enabled(c, e) && e.Reserve?
    ensures forall u :: Written(C.Apply(c, e), u) == Written(c, u)
    ensures forall u :: Delivered(C.Apply(c, e), u) == Delivered(c, u)
  {
  }

  lemma SendMoves(c: C.State, e: C.Event)
    requires C.TagTable(c) && C.Enabled(c, e) && e.Send?
    ensures var t := c.calls[e.call].tag;
            && !Written(c, t)
            && (forall u :: Written(C.Apply(c, e), u) == (Written(c, u) || u == t))
            && (forall u :: Delivered(C.Apply(c, e), u) == Delivered(c, u))
  {
  }

  lemma HeaderMoves(c: C.State)
    requires C.Inv(c) && C.Enabled(c, C.HeaderArrives)
    ensures c.queue != []
    ensures var t := c.queue[0].tag;
            && !Delivered(c, t)
            && (forall u :: Written(C.DoHeader(c), u) == Written(c, u))
            && (forall u :: Delivered(C.DoHeader(c), u) == (Delivered(c, u) || u == t))
  {
    C.NextHeader(c);
    assert C.InPhase(c, c.queue[0].call, C.Waiting);
  }

  /** Steps of a requester that has its header: either nothing moves or its tag is released. */
  lemma RequesterMoves(c: C.State, e: C.Event)
    requires C.TagTable(c) && C.OneReader(c) && C.Enabled(c, e)
    requires e.Resume? || e.ReadBody? || e.BodyArrives? || e.Release?
    ensures var c', t := C.Apply(c, e), c.calls[e.call].tag;
            && c'.queue == c.queue
            && Written(c, t) && Delivered(c, t)
            && (forall u | u != t :: Written(c', u) == Written(c, u) && Delivered(c', u) == Delivered(c, u))
            && Written(c', t) == Delivered(c', t)
            && c'.pending.Keys <= c.pending.Keys
            && (forall u | u in c'.pending :: c'.pending[u].call == c.pending[u].call)
  {
    C.OneActive(c, e.call);
  }

  lemma SendConserves(l: State, e: C.Event)
    requires Conserved(l) && C.TagTable(l.c) && Enabled(l, FromClient(e)) && e.Send?
    ensures Conserved(Apply(l, FromClient(e)))
  {
    var l' := Apply(l, FromClient(e));
    SendMoves(l.c, e);
    forall t ensures Places(l', t) == Bit(Written(l'.c, t)) {
      CountSentAppend(l.sent, C.FrameOf(l.c.calls[e.call]), t);
      assert Places(l, t) == Bit(Written(l.c, t));
    }
  }

  lemma ArrivalConserves(l: State, l': State)
    requires Conserved(l) && l.c.queue != [] && !Delivered(l.c, l.c.queue[0].tag)
    requires l'.sent == l.sent && l'.s == l.s && l'.silent == l.silent && l'.c.queue == l.c.queue[1..]
    requires forall u :: Written(l'.c, u) == Written(l.c, u)
    requires forall u :: Delivered(l'.c, u) == (Delivered(l.c, u) || u == l.c.queue[0].tag)
    ensures Conserved(l')
  {
    forall t ensures Places(l', t) == Bit(Written(l'.c, t)) {
      assert Places(l, t) == Bit(Written(l.c, t));
    }
  }

  lemma ClientConserves(l: State, e: C.Event)
    requires C.Inv(l.c) && Conserved(l) && Enabled(l, FromClient(e))
    ensures Conserved(Apply(l, FromClient(e)))
  {
    var l' := Apply(l, FromClient(e));
    if e.Reserve? {
      ReserveMoves(l.c, e);
      SamePlaces(l, l');
    } else if e.Send? {
      SendConserves(l, e);
    } else if e.HeaderArrives? {
      HeaderMoves(l.c);
      C.NextHeader(l.c);
      ArrivalConserves(l, l');
    } else {
      RequesterMoves(l.c, e);
      RequesterConserves(l, l', l.c.calls[e.call].tag);
    }
  }

  lemma SamePlaces(l: State, l': State)
    requires Conserved(l)
    requires l'.sent == l.sent && l'.s == l.s && l'.silent == l.silent && l'.c.queue == l.c.queue
    requires forall u :: Written(l'.c, u) == Written(l.c, u)
    requires forall u :: Delivered(l'.c, u) == Delivered(l.c, u)
    ensures Conserved(l')
  {
    forall t ensures Places(l', t) == Bit(Written(l'.c, t)) {
      assert Places(l, t) == Bit(Written(l.c, t));
    }
  }

  lemma RequesterConserves(l: State, l': State, t: nat)
    requires Conserved(l) && Written(l.c, t) && Delivered(l.c, t)
    requires l'.sent == l.sent && l'.s == l.s && l'.silent == l.silent && l'.c.queue == l.c.queue
    requires forall u | u != t :: Written(l'.c, u) == Written(l.c, u) && Delivered(l'.c, u) == Delivered(l.c, u)
    requires Written(l'.c, t) == Delivered(l'.c, t)
    ensures Conserved(l')
  {
    forall u ensures Places(l', u) == Bit(Written(l'.c, u)) {
      assert Places(l, u) == Bit(Written(l.c, u));
    }
  }

  lemma {:induction false} SentCounts(q: seq<Frame>, i: nat)
    requires i < |q|
    ensures CountSent(q, q[i].tag) > 0
  {
    if i > 0 {
      SentCounts(q[1..], i - 1);
    }
  }

  /** A client step changes no request and no owner of a tag that stays in the table. */
  lemma RequestsStay(c: C.State, e: C.Event)
    requires C.TagTable(c) && C.Enabled(c, e) && !e.Answer?
    ensures var c' := C.Apply(c, e);
            && (forall d | d in c.calls :: d in c'.calls && C.FrameOf(c'.calls[d]) == C.FrameOf(c.calls[d]))
            && (forall d | d in c'.calls && d !in c.calls :: e.Reserve? && d == e.call
                  && c'.calls[d].command == e.command && c'.calls[d].request == e.request)
            && (forall t | t in c.pending && t in c'.pending :: c'.pending[t].call == c.pending[t].call)
  {
  }

  /** `Written` only shrinks by tags that are delivered, and only grows by the tag just sent. */
  lemma WrittenChanges(c: C.State, e: C.Event)
    requires C.Inv(c) && C.Enabled(c, e) && !e.Answer? && !e.Deliver?
    ensures var c' := C.Apply(c, e);
            && (forall t | Written(c, t) && !Delivered(c, t) :: Written(c', t))
            && (forall t | Written(c', t) :: Written(c, t) || (e.Send? && t == c.calls[e.call].tag))
  {
    match e
    case Reserve(_, _, _, _) => ReserveMoves(c, e);
    case Send(call) => SendMoves(c, e);
    case HeaderArrives => HeaderMoves(c);
    case _ => RequesterMoves(c, e);
  }

  /** A frame in transit still belongs to the call that sent it. */
  lemma FrameStays(l: State, e: C.Event, i: nat)
    requires Inv(l) && Enabled(l, FromClient(e)) && i < |l.sent|
    ensures var c' := C.Apply(l.c, e);
            && Written(c', l.sent[i].tag)
            && l.sent[i] == C.FrameOf(c'.calls[c'.pending[l.sent[i].tag].call])
  {
    RequestsStay(l.c, e);
    WrittenChanges(l.c, e);
    var t := l.sent[i].tag;
    SentCounts(l.sent, i);
    assert Places(l, t) == 1;
    assert Written(l.c, t) && !Delivered(l.c, t);
  }

  lemma CallsWellFormed(l: State, e: C.Event)
    requires Requests(l) && C.TagTable(l.c) && Enabled(l, FromClient(e))
    ensures var c' := C.Apply(l.c, e);
            forall d | d in c'.calls :: WellFormed(c'.calls[d].command, c'.calls[d].request)
  {
    RequestsStay(l.c, e);
    var c' := C.Apply(l.c, e);
    forall d | d in c'.calls ensures WellFormed(c'.calls[d].command, c'.calls[d].request) {
      if d in l.c.calls {
        assert C.FrameOf(c'.calls[d]) == C.FrameOf(l.c.calls[d]);
      }
    }
  }

  lemma FrameAppended(current: seq<byte>, sent: seq<Frame>, f: Frame)
    ensures current + Concat(sent) + EncodeFrame(f) == current + Concat(sent + [f])
  {
    ConcatAppend(sent, f);
  }

  lemma SendOutput(l: State, k: nat)
    requires l.c.output == l.current + Concat(l.sent) && Enabled(l, FromClient(C.Send(k)))
    ensures var l' := Apply(l, FromClient(C.Send(k))); l'.c.output == l'.current + Concat(l'.sent)
  {
    FrameAppended(l.current, l.sent, C.FrameOf(l.c.calls[k]));
  }

  lemma OutputStays(c: C.State, e: C.Event)
    requires C.Enabled(c, e) && !e.Send? && !e.Deliver?
    ensures C.Apply(c, e).output == c.output
  {
  }

  lemma ClientOutput(l: State, e: C.Event)
    requires l.c.output == l.current + Concat(l.sent) && Enabled(l, FromClient(e))
    ensures var l' := Apply(l, FromClient(e)); l'.c.output == l'.current + Concat(l'.sent)
  {
    if e.Send? { SendOutput(l, e.call); } else { OutputStays(l.c, e); }
  }

  lemma NewFrame(c: C.State, k: nat)
    requires C.TagTable(c) && C.Enabled(c, C.Send(k)) && WellFormed(c.calls[k].command, c.calls[k].request)
    ensures FrameOfCall(C.DoSend(c, k), C.FrameOf(c.calls[k]))
  {
    SendMoves(c, C.Send(k));
  }

  lemma FramesStay(l: State, e: C.Event)
    requires Inv(l) && Enabled(l, FromClient(e)) && !e.Send?
    ensures forall i | 0 <= i < |l.sent| :: FrameOfCall(C.Apply(l.c, e), l.sent[i])
  {
    forall i | 0 <= i < |l.sent| ensures FrameOfCall(C.Apply(l.c, e), l.sent[i]) {
      FrameStays(l, e, i);
    }
  }

  lemma FramesAfterSend(l: State, k: nat)
    requires Inv(l) && Enabled(l, FromClient(C.Send(k)))
    ensures var l' := Apply(l, FromClient(C.Send(k)));
            forall i | 0 <= i < |l'.sent| :: FrameOfCall(l'.c, l'.sent[i])
  {
    var l' := Apply(l, FromClient(C.Send(k)));
    forall i | 0 <= i < |l'.sent| ensures FrameOfCall(l'.c, l'.sent[i]) {
      if i < |l.sent| { FrameStays(l, C.Send(k), i); } else { NewFrame(l.c, k); }
    }
  }

  lemma RequestsFollow(l: State, l': State)
    requires Requests(l) && l'.s == l.s && l'.current == l.current
    requires l'.c.output == l'.current + Concat(l'.sent)
    requires forall i | 0 <= i < |l'.sent| :: FrameOfCall(l'.c, l'.sent[i])
    requires forall d | d in l'.c.calls :: WellFormed(l'.c.calls[d].command, l'.c.calls[d].request)
    ensures Requests(l')
  {
  }

  lemma ClientRequests(l: State, e: C.Event)
    requires Inv(l) && Enabled(l, FromClient(e))
    ensures Requests(Apply(l, FromClient(e)))
  {
    ClientOutput(l, e);
    CallsWellFormed(l, e);
    if e.Send? { FramesAfterSend(l, e.call); } else { FramesStay(l, e); }
    RequestsFollow(l, Apply(l, FromClient(e)));
  }

  lemma ClientFaithful(l: State, e: C.Event)
    requires Inv(l) && Enabled(l, FromClient(e))
    ensures Faithful(Apply(l, FromClient(e)))
  {
    var l' := Apply(l, FromClient(e));
    RequestsStay(l.c, e);
    WrittenChanges(l.c, e);
    forall t | AtServer(l'.s, t) && Written(l'.c, t)
      ensures Written(l.c, t) && t in l.c.pending && t in l'.c.pending
      ensures C.FrameOf(l'.c.calls[l'.c.pending[t].call]) == C.FrameOf(l.c.calls[l.c.pending[t].call])
    {
      assert Places(l, t) >= 1;
      assert Places(l, t) == Bit(Written(l.c, t));
    }
  }

  // ------------------------------------------------------------------ server steps

  predicate NextIs(l: State) {
    && l.sent != [] && l.sent[0].Fits() && |l.c.output| >= REQUEST_HEADER_SIZE
    && DecodeRequest(l.c.output[..REQUEST_HEADER_SIZE]) == l.sent[0].Header()
    && l.c.output[REQUEST_HEADER_SIZE..] == l.sent[0].body + Concat(l.sent[1..])
  }

  /** The bytes `listen` reads next are the header of the oldest frame in transit. */
  lemma NextRequest(l: State)
    requires Requests(l) && C.TagTable(l.c) && Enabled(l, ServerReadsHeader)
    ensures NextIs(l)
  {
    assert l.c.output == Concat(l.sent);
    assert l.sent != [];
    var f := l.sent[0];
    assert Written(l.c, f.tag) && f.tag < C.MAX_TAGS;
    FirstOfConcat(f, Concat(l.sent[1..]));
  }

  /** Tag reuse: when the header of the oldest frame is taken, the connection stops exactly when,
      after the reap, the tag's previous handler has written its response and has not been recorded
      as finished. Nothing else can be in the way. */
  lemma CollisionExactly(l: State)
    requires Inv(l) && Enabled(l, ServerReadsHeader)
    ensures var t := l.sent[0].tag;
            Apply(l, ServerReadsHeader).s.stopped <==>
              t in l.s.pending && (l.s.pending[t].phase == S.Written || l.s.pending[t].phase == S.Released)
    ensures var t := l.sent[0].tag;
            Apply(l, ServerReadsHeader).s.stopped ==>
              l.s.pending[t].command == S.PING && l.s.pending[t].writes == 1
  {
    NextRequest(l);
    var t := l.sent[0].tag;
    SentCounts(l.sent, 0);
    assert Places(l, t) == Bit(Written(l.c, t));
    assert !AtServer(l.s, t) && t !in l.silent;
    if t in l.s.pending {
      assert S.Listed(l.s, t) && S.WriteCount(l.s.pending[t]);
      assert l.s.pending[t].phase != S.Returned;
    }
  }

  /** Taking a header moves its tag to the server and, by the reap, no other. */
  lemma ReapMoves(l: State)
    requires S.Basic(l.s) && NextIs(l) && Enabled(l, ServerReadsHeader)
    requires !Apply(l, ServerReadsHeader).s.stopped
    ensures var s', f := Apply(l, ServerReadsHeader).s, l.sent[0];
            && s'.listen == S.AtBody(f.tag, |f.body|)
            && f.tag in s'.pending && s'.pending[f.tag] == S.Handler(f.command, [], S.Receiving, 0)
            && (forall t | t != f.tag :: AtServer(s', t) == AtServer(l.s, t))
            && (forall t | t != f.tag && t in s'.pending ::
                  t in l.s.pending && s'.pending[t] == l.s.pending[t] && !s'.pending[t].phase.Receiving?)
  {
    forall t | t in l.s.pending ensures t in l.s.finished ==> !AtServer(l.s, t) {
      assert t in l.s.finished ==> S.At(l.s, t, S.Recorded);
    }
    forall t | t in l.s.pending ensures !l.s.pending[t].phase.Receiving? {
      assert S.Listed(l.s, t);
    }
  }

  lemma HeaderKeeps(l: State)
    requires InTransit(l) && S.Basic(l.s) && NextIs(l) && Enabled(l, ServerReadsHeader)
    requires !AtServer(l.s, l.sent[0].tag) && !Apply(l, ServerReadsHeader).s.stopped
    ensures InTransit(Apply(l, ServerReadsHeader))
  {
    ReapMoves(l);
    var l' := Apply(l, ServerReadsHeader);
    forall t ensures Places(l', t) == Bit(Written(l'.c, t)) {
      assert Places(l, t) == Bit(Written(l.c, t));
    }
  }

  /** A frame in transit is not at the server as well. */
  lemma HeadNotAtServer(l: State)
    requires Conserved(l) && l.sent != []
    ensures !AtServer(l.s, l.sent[0].tag)
  {
    SentCounts(l.sent, 0);
    assert Places(l, l.sent[0].tag) == Bit(Written(l.c, l.sent[0].tag));
  }

  lemma BodyMoves(s: S.State, bytes: seq<byte>)
    requires S.Basic(s) && S.Enabled(s, S.Body(bytes))
    ensures var s', u := S.DoBody(s, bytes), s.listen.tag;
            && s'.listen == S.AtHeader && AtServer(s, u) && s.pending[u].phase.Receiving?
            && u in s'.pending && s'.pending[u] == s.pending[u].(body := bytes, phase := S.Ready)
            && (forall t :: AtServer(s', t) == AtServer(s, t))
            && (forall t | t != u && t in s'.pending ::
                  t in s.pending && s'.pending[t] == s.pending[t] && !s'.pending[t].phase.Receiving?)
  {
    forall t | t in s.pending && t != s.listen.tag ensures !s.pending[t].phase.Receiving? {
      assert S.Listed(s, t);
    }
  }

  /** The bytes of the request body are those the caller sent. */
  lemma BodyKeeps(l: State)
    requires InTransit(l) && S.Basic(l.s) && Enabled(l, ServerReadsBody)
    ensures l.c.output[..l.s.listen.want] == l.current
    ensures InTransit(Apply(l, ServerReadsBody))
  {
    var l' := Apply(l, ServerReadsBody);
    BodyMoves(l.s, l.c.output[..l.s.listen.want]);
    forall t ensures Places(l', t) == Bit(Written(l'.c, t)) {
      assert Places(l, t) == Bit(Written(l.c, t));
    }
  }

  lemma StartMoves(s: S.State, e: S.Event)
    requires S.Enabled(s, e) && e.Start?
    ensures var s' := S.Apply(s, e);
            && AtServer(s, e.tag) && s'.listen == s.listen
            && AtServer(s', e.tag) == (s.pending[e.tag].command == S.PING)
            && (forall t | t != e.tag :: AtServer(s', t) == AtServer(s, t))
            && (forall t | AtServer(s', t) :: && s'.pending[t].body == s.pending[t].body
                  && s'.pending[t].command == s.pending[t].command
                  && s'.pending[t].phase.Receiving? == s.pending[t].phase.Receiving?)
            && (forall t | t in s'.pending :: t in s.pending && s'.pending[t].command == s.pending[t].command)
  {
  }

  lemma StartKeeps(l: State, e: S.Event)
    requires InTransit(l) && Enabled(l, HandlerStep(e)) && e.Start?
    ensures InTransit(Apply(l, HandlerStep(e)))
  {
    var l' := Apply(l, HandlerStep(e));
    StartMoves(l.s, e);
    assert Places(l, e.tag) == Bit(Written(l.c, e.tag));
    forall t ensures Places(l', t) == Bit(Written(l'.c, t)) {
      assert Places(l, t) == Bit(Written(l.c, t));
    }
  }

  lemma LateStepMoves(s: S.State, e: S.Event)
    requires S.Basic(s) && S.Enabled(s, e) && (e.Finish? || e.Record?)
    ensures var s' := S.Apply(s, e);
            && s'.listen == s.listen
            && (forall t :: AtServer(s', t) == AtServer(s, t))
            && s'.pending.Keys == s.pending.Keys
            && (forall t | t in s.pending :: && s'.pending[t].body == s.pending[t].body
                  && s'.pending[t].command == s.pending[t].command
                  && s'.pending[t].phase.Receiving? == s.pending[t].phase.Receiving?)
  {
    if e.Finish? && s.waiters != [] { S.LastWaiter(s); }
  }

  /** Releasing the write lock or recording the end of a handler moves no request. */
  lemma LateStepKeeps(l: State, e: S.Event)
    requires InTransit(l) && S.Basic(l.s) && Enabled(l, HandlerStep(e)) && (e.Finish? || e.Record?)
    ensures InTransit(Apply(l, HandlerStep(e)))
  {
    var l' := Apply(l, HandlerStep(e));
    LateStepMoves(l.s, e);
    forall t ensures Places(l', t) == Bit(Written(l'.c, t)) {
      assert Places(l, t) == Bit(Written(l.c, t));
    }
  }

  /** The obligation the client puts on its peer is met: a handler that writes answers a request
      that was written, is still waited for, and was not answered before. */
  lemma ServerIsHonest(l: State, t: nat, body: seq<byte>)
    requires Inv(l) && Enabled(l, HandlerWrites(t, body))
    ensures C.Enabled(l.c, C.Answer(t, body)) && C.Honest(l.c, C.Answer(t, body))
  {
    assert Places(l, t) == Bit(Written(l.c, t));
    var c := l.c.pending[t].call;
    assert l.c.calls[c].phase == C.Waiting;
    if l.c.calls[c].answer.Some? {
      var i :| 0 <= i < |l.c.queue| && l.c.queue[i].call == c;
      AnswerCounts(l.c.queue, i);
    }
  }

  lemma {:induction false} AnswerCounts(q: seq<C.Answered>, i: nat)
    requires i < |q|
    ensures CountAnswers(q, q[i].tag) > 0
  {
    if i > 0 {
      AnswerCounts(q[1..], i - 1);
    }
  }

  /** On the client an answer moves no tag and changes no request. */
  lemma AnswerMoves(c: C.State, t: nat, body: seq<byte>)
    requires Written(c, t)
    ensures var c' := C.DoAnswer(c, t, body);
            && c'.queue == c.queue + [C.Answered(c.pending[t].call, t, body)]
            && c'.pending == c.pending && c'.output == c.output && c'.calls.Keys == c.calls.Keys
            && (forall u :: Written(c', u) == Written(c, u) && Delivered(c', u) == Delivered(c, u))
            && (forall d | d in c.calls :: && c'.calls[d].command == c.calls[d].command
                  && c'.calls[d].request == c.calls[d].request && c'.calls[d].tag == c.calls[d].tag)
  {
  }

  lemma WriteKeeps(l: State, t: nat, body: seq<byte>)
    requires InTransit(l) && Enabled(l, HandlerWrites(t, body)) && Written(l.c, t)
    requires S.WriteCount(l.s.pending[t])
    ensures InTransit(Apply(l, HandlerWrites(t, body)))
  {
    var l' := Apply(l, HandlerWrites(t, body));
    AnswerMoves(l.c, t, body);
    forall u ensures Places(l', u) == Bit(Written(l'.c, u)) {
      CountAnswersAppend(l.c.queue, C.Answered(l.c.pending[t].call, t, body), u);
      assert Places(l, u) == Bit(Written(l.c, u));
    }
  }

  /** A handler that writes has the command and the body of the very call it answers. */
  lemma HandlerServesItsCaller(l: State, t: nat, body: seq<byte>)
    requires Inv(l) && Enabled(l, HandlerWrites(t, body))
    ensures Written(l.c, t)
    ensures var call := l.c.calls[l.c.pending[t].call];
            && call.phase == C.Waiting
            && l.s.pending[t].command == call.command && l.s.pending[t].body == call.request
  {
    assert Places(l, t) == Bit(Written(l.c, t));
  }

  /** The client's part of a step, as a step of the client machine. */
  ghost function ClientEvents(l: State, e: Event): seq<C.Event>
    requires Enabled(l, e)
  {
    match e
    case FromClient(ce) => [ce]
    case ServerReadsHeader => [C.Deliver(REQUEST_HEADER_SIZE)]
    case ServerReadsBody => [C.Deliver(l.s.listen.want)]
    case HandlerStep(_) => []
    case HandlerWrites(t, body) => [C.Answer(t, body)]
  }

  /** The server's part of a step. */
  ghost function ServerEvents(l: State, e: Event): seq<S.Event>
    requires Enabled(l, e)
  {
    match e
    case FromClient(_) => []
    case ServerReadsHeader => [S.Header(DecodeRequest(l.c.output[..REQUEST_HEADER_SIZE]))]
    case ServerReadsBody => [S.Body(l.c.output[..l.s.listen.want])]
    case HandlerStep(se) => [se]
    case HandlerWrites(t, _) => [S.Write(t)]
  }

  /** Both ends take steps of their own machines, the server always an honest one. */
  lemma Parts(l: State, e: Event)
    requires Inv(l) && Enabled(l, e)
    ensures var ce := ClientEvents(l, e);
            if ce == [] then Apply(l, e).c == l.c
            else C.Enabled(l.c, ce[0]) && C.Honest(l.c, ce[0]) && Apply(l, e).c == C.Apply(l.c, ce[0])
    ensures var se := ServerEvents(l, e);
            if se == [] then Apply(l, e).s == l.s
            else S.Enabled(l.s, se[0]) && Apply(l, e).s == S.Apply(l.s, se[0])
  {
    match e
    case HandlerWrites(t, body) => ServerIsHonest(l, t, body);
    case _ =>
  }

  lemma EndsKeep(l: State, e: Event)
    requires Inv(l) && Enabled(l, e)
    ensures C.Inv(Apply(l, e).c) && S.Basic(Apply(l, e).s)
  {
    Parts(l, e);
    if ClientEvents(l, e) != [] { C.StepKeeps(l.c, ClientEvents(l, e)[0]); }
    if ServerEvents(l, e) != [] { S.StepBasic(l.s, ServerEvents(l, e)[0]); }
  }

  lemma ClientSilence(l: State, ce: C.Event)
    requires Silence(l) && Enabled(l, FromClient(ce))
    ensures Silence(Apply(l, FromClient(ce)))
  {
  }

  lemma StepKeeps(l: State, e: Event)
    requires Inv(l) && Enabled(l, e)
    ensures Inv(Apply(l, e))
  {
    EndsKeep(l, e);
    match e
    case FromClient(ce) =>
      ClientConserves(l, ce);
      ClientRequests(l, ce);
      ClientFaithful(l, ce);
      ClientSilence(l, ce);
    case ServerReadsHeader =>
      if !Apply(l, e).s.stopped {
        NextRequest(l);
        HeadNotAtServer(l);
        HeaderKeeps(l);
      }
    case ServerReadsBody => BodyKeeps(l);
    case HandlerStep(se) =>
      if se.Start? { StartKeeps(l, se); } else { LateStepKeeps(l, se); }
    case HandlerWrites(t, body) =>
      HandlerServesItsCaller(l, t, body);
      assert S.Listed(l.s, t);
      WriteKeeps(l, t, body);
  }

  // ------------------------------------------------------------------ runs

  ghost predicate Runs(l: State, es: seq<Event>)
    decreases |es|
  {
    es == [] || (Enabled(l, es[0]) && Runs(Apply(l, es[0]), es[1..]))
  }

  ghost function End(l: State, es: seq<Event>): State
    requires Runs(l, es)
    decreases |es|
  {
    if es == [] then l else End(Apply(l, es[0]), es[1..])
  }

  lemma {:induction false} RunKeeps(l: State, es: seq<Event>)
    requires Inv(l) && Runs(l, es)
    ensures Inv(End(l, es))
    decreases |es|
  {
    if es != [] {
      StepKeeps(l, es[0]);
      RunKeeps(Apply(l, es[0]), es[1..]);
    }
  }

  /** Conservation: in every run, until a header is refused, every tag whose request is written and
      not released is in exactly one place, and no other tag is anywhere. */
  lemma EveryRequestInOnePlace(es: seq<Event>, t: nat)
    requires Runs(INITIAL, es) && !End(INITIAL, es).s.stopped
    ensures Places(End(INITIAL, es), t) == Bit(Written(End(INITIAL, es).c, t))
  {
    InitialInv();
    RunKeeps(INITIAL, es);
  }

  /** The client's side of a run. */
  ghost function ClientRun(l: State, es: seq<Event>): seq<C.Event>
    requires Runs(l, es)
    decreases |es|
  {
    if es == [] then [] else ClientEvents(l, es[0]) + ClientRun(Apply(l, es[0]), es[1..])
  }

  /** Composition: the client's side of every run is a run of the client machine with an honest
      peer, so all that `Channels` proves holds of the connection. */
  lemma {:induction false} ClientSide(l: State, es: seq<Event>)
    requires Inv(l) && Runs(l, es)
    ensures Channels.Runs(l.c, ClientRun(l, es))
    ensures Channels.End(l.c, ClientRun(l, es)) == End(l, es).c
    decreases |es|
  {
    if es != [] {
      Parts(l, es[0]);
      StepKeeps(l, es[0]);
      ClientSide(Apply(l, es[0]), es[1..]);
      var ce, rest := ClientEvents(l, es[0]), ClientRun(Apply(l, es[0]), es[1..]);
      if ce == [] {
        assert ClientRun(l, es) == rest;
      } else {
        assert ClientRun(l, es)[0] == ce[0] && ClientRun(l, es)[1..] == rest;
      }
    }
  }

  // ------------------------------------------------------------------ who answered a call

  /** The states of a run, from its first to its last. */
  ghost function States(l: State, es: seq<Event>): (ls: seq<State>)
    requires Runs(l, es)
    ensures |ls| == |es| + 1 && ls[0] == l && ls[|es|] == End(l, es)
    decreases |es|
  {
    if es == [] then [l] else [l] + States(Apply(l, es[0]), es[1..])
  }

  /** A step in which a handler writes on the tag that call `c` has. */
  ghost predicate Answers(l: State, e: Event, c: nat) {
    e.HandlerWrites? && e.tag in l.c.pending && l.c.pending[e.tag].call == c
  }

  predicate Answered(c: C.State, k: nat) {
    k in c.calls && c.calls[k].answer.Some?
  }

  /** What a call is about. */
  predicate SameCall(a: C.Call, b: C.Call) {
    a.tag == b.tag && a.command == b.command && a.request == b.request
  }

  lemma ClientKeepsAnswers(c: C.State, e: C.Event, k: nat)
    requires C.Enabled(c, e) && !e.Answer?
    ensures Answered(C.Apply(c, e), k) == Answered(c, k)
    ensures Answered(c, k) ==> C.Apply(c, e).calls[k].answer == c.calls[k].answer
  {
  }

  lemma ClientKeepsCall(c: C.State, e: C.Event, k: nat)
    requires C.TagTable(c) && C.Enabled(c, e) && !e.Answer? && k in c.calls
    ensures k in C.Apply(c, e).calls && SameCall(C.Apply(c, e).calls[k], c.calls[k])
  {
    RequestsStay(c, e);
    assert C.FrameOf(C.Apply(c, e).calls[k]) == C.FrameOf(c.calls[k]);
  }

  /** From `l` to `l'` by `e`: a call is answered exactly when a handler writes on its tag; it was not
      answered before, and its answer is what was written. */
  ghost predicate Follows(l: State, e: Event, l': State, k: nat) {
    && (k in l.c.calls ==> k in l'.c.calls && SameCall(l'.c.calls[k], l.c.calls[k]))
    && (Answered(l'.c, k) <==> Answered(l.c, k) || Answers(l, e, k))
    && (Answered(l.c, k) ==> !Answers(l, e, k) && l'.c.calls[k].answer == l.c.calls[k].answer)
    && (Answers(l, e, k) ==>
          k in l.c.calls && l'.c.calls[k].answer == Some(e.body) && l'.c.calls[k].tag == e.tag)
  }

  lemma AnswerFollows(l: State, l': State, t: nat, body: seq<byte>, k: nat)
    requires t in l.c.pending && l.c.pending[t].call in l.c.calls
    requires l.c.calls[l.c.pending[t].call].answer.None? && l.c.calls[l.c.pending[t].call].tag == t
    requires l'.c == C.DoAnswer(l.c, t, body)
    ensures Follows(l, HandlerWrites(t, body), l', k)
  {
  }

  lemma WriteAnswers(l: State, t: nat, body: seq<byte>, k: nat)
    requires Inv(l) && Enabled(l, HandlerWrites(t, body))
    ensures Follows(l, HandlerWrites(t, body), Apply(l, HandlerWrites(t, body)), k)
  {
    ServerIsHonest(l, t, body);
    AnswerFollows(l, Apply(l, HandlerWrites(t, body)), t, body, k);
  }

  lemma StepAnswers(l: State, e: Event, k: nat)
    requires Inv(l) && Enabled(l, e)
    ensures Follows(l, e, Apply(l, e), k)
  {
    match e
    case FromClient(ce) =>
      ClientKeepsAnswers(l.c, ce, k);
      if k in l.c.calls { ClientKeepsCall(l.c, ce, k); }
    case HandlerWrites(t, body) => WriteAnswers(l, t, body, k);
    case _ =>
  }

  ghost predicate Chain(ls: seq<State>, es: seq<Event>, k: nat) {
    |ls| == |es| + 1 && forall i | 0 <= i < |es| :: Follows(ls[i], es[i], ls[i + 1], k)
  }

  lemma {:induction false} RunIsChain(l: State, es: seq<Event>, k: nat)
    requires Inv(l) && Runs(l, es)
    ensures Chain(States(l, es), es, k)
    decreases |es|
  {
    if es != [] {
      StepKeeps(l, es[0]);
      StepAnswers(l, es[0], k);
      RunIsChain(Apply(l, es[0]), es[1..], k);
      ChainCons(l, States(Apply(l, es[0]), es[1..]), es, k);
    }
  }

  lemma ChainCons(l: State, ls: seq<State>, es: seq<Event>, k: nat)
    requires es != [] && Chain(ls, es[1..], k) && Follows(l, es[0], ls[0], k)
    ensures Chain([l] + ls, es, k)
  {
    forall i | 0 <= i < |es| ensures Follows(([l] + ls)[i], es[i], ([l] + ls)[i + 1], k) {
      if i > 0 { assert Follows(ls[i - 1], es[1..][i - 1], ls[i], k); }
    }
  }

  lemma {:induction false} StatesAreGood(l: State, es: seq<Event>, i: nat)
    requires Inv(l) && Runs(l, es) && i < |es|
    ensures Inv(States(l, es)[i]) && Enabled(States(l, es)[i], es[i])
    decreases |es|
  {
    if i > 0 {
      StepKeeps(l, es[0]);
      StatesAreGood(Apply(l, es[0]), es[1..], i - 1);
    }
  }

  /** A call once answered keeps its answer, and every call keeps its tag, command and request. */
  lemma {:induction false} CallStays(ls: seq<State>, es: seq<Event>, i: nat, j: nat, k: nat)
    requires Chain(ls, es, k) && i <= j <= |es| && k in ls[i].c.calls
    ensures k in ls[j].c.calls && SameCall(ls[j].c.calls[k], ls[i].c.calls[k])
    ensures Answered(ls[i].c, k) ==> ls[j].c.calls[k].answer == ls[i].c.calls[k].answer
    decreases j
  {
    if i < j {
      CallStays(ls, es, i, j - 1, k);
      assert Follows(ls[j - 1], es[j - 1], ls[j], k);
    }
  }

  /** The step where a call becomes answered. */
  lemma {:induction false} Turn(ls: seq<State>, n: nat, k: nat) returns (i: nat)
    requires n < |ls| && !Answered(ls[0].c, k) && Answered(ls[n].c, k)
    ensures i < n && !Answered(ls[i].c, k) && Answered(ls[i + 1].c, k)
    decreases n
  {
    i := n - 1;
    if Answered(ls[i].c, k) { i := Turn(ls, i, k); }
  }

  /** The `i`th step, and no other, is a handler's writing for call `k`. */
  ghost predicate OnlyAnswer(ls: seq<State>, es: seq<Event>, i: nat, k: nat)
    requires |ls| == |es| + 1
  {
    && i < |es| && Answers(ls[i], es[i], k)
    && forall j | 0 <= j < |es| && Answers(ls[j], es[j], k) :: j == i
  }

  /** A call that is answered at one step is not answered at a later one. */
  lemma AnsweredOnce(ls: seq<State>, es: seq<Event>, i: nat, j: nat, k: nat)
    requires Chain(ls, es, k) && i < j < |es| && Answers(ls[i], es[i], k)
    ensures !Answers(ls[j], es[j], k)
  {
    assert Follows(ls[i], es[i], ls[i + 1], k);
    CallStays(ls, es, i + 1, j, k);
    assert Follows(ls[j], es[j], ls[j + 1], k);
  }

  /** A call that becomes answered is answered by exactly one step, a handler's, which writes what the
      call has as its answer in the end. */
  lemma OneAnswer(ls: seq<State>, es: seq<Event>, k: nat) returns (i: nat)
    requires Chain(ls, es, k) && !Answered(ls[0].c, k) && Answered(ls[|es|].c, k)
    ensures OnlyAnswer(ls, es, i, k)
    ensures var call := ls[|es|].c.calls[k];
            && es[i] == HandlerWrites(call.tag, call.answer.value)
            && k in ls[i].c.calls && SameCall(call, ls[i].c.calls[k])
  {
    i := Turn(ls, |es|, k);
    assert Follows(ls[i], es[i], ls[i + 1], k);
    CallStays(ls, es, i + 1, |es|, k);
    forall j | 0 <= j < |es| && Answers(ls[j], es[j], k) ensures j == i {
      if j < i { AnsweredOnce(ls, es, j, i, k); }
      if i < j { AnsweredOnce(ls, es, i, j, k); }
    }
  }

  /** Over the whole connection: a finished call was resumed exactly once, with its own tag, and read
      exactly the body that one handler wrote. Exactly one step of the run wrote it; at that step the
      tag belonged to this call, and the handler had this call's command and request. */
  lemma CallsServedByTheirHandlers(es: seq<Event>, c: nat) returns (i: nat)
    requires Runs(INITIAL, es) && C.InPhase(End(INITIAL, es).c, c, C.Finished)
    ensures Channels.Runs(C.INITIAL, ClientRun(INITIAL, es))
    ensures var seen, call := Channels.Observed(C.INITIAL, ClientRun(INITIAL, es)), End(INITIAL, es).c.calls[c];
            && Channels.Resumptions(seen, c) == 1
            && call.answer.Some?
            && call.header == Some(ResponseHeader(|call.answer.value|, call.tag))
            && Channels.BytesOf(seen, c) == call.answer.value
    ensures OnlyAnswer(States(INITIAL, es), es, i, c)
    ensures var call, l := End(INITIAL, es).c.calls[c], States(INITIAL, es)[i];
            && es[i] == HandlerWrites(call.tag, call.answer.value)
            && call.tag in l.c.pending && l.c.pending[call.tag].call == c
            && call.tag in l.s.pending
            && l.s.pending[call.tag].command == call.command
            && l.s.pending[call.tag].body == call.request
  {
    InitialInv();
    ClientSide(INITIAL, es);
    Channels.EachCallServed(ClientRun(INITIAL, es), c);
    RunIsChain(INITIAL, es, c);
    i := OneAnswer(States(INITIAL, es), es, c);
    StatesAreGood(INITIAL, es, i);
    HandlerServesItsCaller(States(INITIAL, es)[i], es[i].tag, es[i].body);
  }
}
