/** Progress of the whole connection: left to itself it comes to rest, and at rest every Ping that was
    sent has returned to its caller. */
module Progress {
  import opened Util
  import opened Wire
  import opened Framing
  import opened Link
  import C = Client
  import S = Server
  import Channels

  /** A tag is silent only for a call that did not ask for a Ping. */
  ghost predicate SilentCalls(l: State) {
    forall t | t in l.silent && Written(l.c, t) :: l.c.calls[l.c.pending[t].call].command != S.PING
  }

  ghost predicate Healthy(l: State) {
    Inv(l) && S.Attended(l.s) && (!l.s.stopped ==> SilentCalls(l))
  }

  lemma ClientStepSilent(l: State, ce: C.Event)
    requires Inv(l) && SilentCalls(l) && Enabled(l, FromClient(ce))
    ensures SilentCalls(Apply(l, FromClient(ce)))
  {
    var l' := Apply(l, FromClient(ce));
    RequestsStay(l.c, ce);
    forall t | t in l'.silent && Written(l'.c, t)
      ensures l'.c.calls[l'.c.pending[t].call].command != S.PING
    {
      assert Places(l, t) == Bit(Written(l.c, t));
      var c := l.c.pending[t].call;
      assert C.FrameOf(l'.c.calls[c]) == C.FrameOf(l.c.calls[c]);
    }
  }

  /** The handler of a request has the command of the call. */
  lemma SameCommand(l: State, t: nat)
    requires Faithful(l) && AtServer(l.s, t) && Written(l.c, t)
    ensures l.c.calls[l.c.pending[t].call].command == l.s.pending[t].command
  {
  }

  lemma HandlerStepSilent(l: State, se: S.Event)
    requires Faithful(l) && SilentCalls(l) && Enabled(l, HandlerStep(se))
    ensures SilentCalls(Apply(l, HandlerStep(se)))
  {
    var l' := Apply(l, HandlerStep(se));
    assert l'.c == l.c;
    forall t | t in l'.silent && Written(l.c, t)
      ensures l.c.calls[l.c.pending[t].call].command != S.PING
    {
      if t !in l.silent { SameCommand(l, t); }
    }
  }

  lemma StepSilent(l: State, e: Event)
    requires Inv(l) && SilentCalls(l) && Enabled(l, e)
    ensures SilentCalls(Apply(l, e))
  {
    match e
    case FromClient(ce) => ClientStepSilent(l, ce);
    case HandlerStep(se) => HandlerStepSilent(l, se);
    case HandlerWrites(t, body) =>
      HandlerServesItsCaller(l, t, body);
      AnswerMoves(l.c, t, body);
    case _ =>
  }

  lemma StepHealthy(l: State, e: Event)
    requires Healthy(l) && Enabled(l, e)
    ensures Healthy(Apply(l, e))
  {
    StepKeeps(l, e);
    Parts(l, e);
    if ServerEvents(l, e) != [] { S.StepAttended(l.s, ServerEvents(l, e)[0]); }
    StepSilent(l, e);
  }

  lemma {:induction false} RunHealthy(l: State, es: seq<Event>)
    requires Healthy(l) && Runs(l, es)
    ensures Healthy(End(l, es))
    decreases |es|
  {
    if es != [] {
      StepHealthy(l, es[0]);
      RunHealthy(Apply(l, es[0]), es[1..]);
    }
  }

  // ------------------------------------------------------------------ the connection comes to rest

  /** Every step except a new call. */
  predicate Own(e: Event) {
    e.FromClient? ==> Channels.Own(e.ce)
  }

  /** What a request still has to cost the connection before it is on the wire. */
  function Unsent(call: C.Call): nat {
    if call.phase.Reserved? then 2 * (REQUEST_HEADER_SIZE + |call.request|) + 1 else 0
  }

  /** Work up to the writing of responses. */
  ghost function Asking(l: State): nat {
    SumMap(l.c.calls, Unsent) + 2 * |l.c.output| + S.Work(l.s)
  }

  lemma UnsentStays(c: C.State, c': C.State, k: nat)
    requires k in c.calls && k in c'.calls && c'.calls == c.calls[k := c'.calls[k]]
    requires c.calls[k].phase != C.Reserved && c'.calls[k].phase != C.Reserved
    ensures SumMap(c'.calls, Unsent) == SumMap(c.calls, Unsent)
  {
    SumMapUpdate(c.calls, k, c'.calls[k], Unsent);
  }

  lemma SendAsks(l: State, k: nat)
    requires Enabled(l, FromClient(C.Send(k)))
    ensures Asking(Apply(l, FromClient(C.Send(k)))) < Asking(l)
  {
    var l' := Apply(l, FromClient(C.Send(k)));
    SumMapUpdate(l.c.calls, k, l'.c.calls[k], Unsent);
  }

  lemma HeaderAsks(l: State)
    requires Inv(l) && Enabled(l, FromClient(C.HeaderArrives))
    ensures Asking(Apply(l, FromClient(C.HeaderArrives))) == Asking(l)
  {
    C.NextHeader(l.c);
    assert C.InPhase(l.c, l.c.queue[0].call, C.Waiting);
    UnsentStays(l.c, C.DoHeader(l.c), l.c.queue[0].call);
  }

  lemma RequesterAsks(l: State, ce: C.Event)
    requires Enabled(l, FromClient(ce))
    requires ce.Resume? || ce.ReadBody? || ce.BodyArrives? || ce.Release?
    ensures Asking(Apply(l, FromClient(ce))) == Asking(l)
  {
    UnsentStays(l.c, C.Apply(l.c, ce), ce.call);
  }

  lemma ReadHeaderAsks(l: State)
    requires Inv(l) && Enabled(l, ServerReadsHeader)
    ensures Asking(Apply(l, ServerReadsHeader)) < Asking(l)
  {
    var r, s' := S.Reap(l.s), Apply(l, ServerReadsHeader).s;
    SumMapShrinks(l.s.pending, S.Elements(l.s.finished), S.Weight);
    if !s'.stopped {
      var h := DecodeRequest(l.c.output[..REQUEST_HEADER_SIZE]);
      SumMapUpdate(r.pending, h.tag, s'.pending[h.tag], S.Weight);
    }
  }

  lemma ReadBodyAsks(l: State)
    requires Inv(l) && Enabled(l, ServerReadsBody)
    ensures Asking(Apply(l, ServerReadsBody)) < Asking(l)
  {
    S.OneMoves(l.s, Apply(l, ServerReadsBody).s, l.s.listen.tag);
  }

  lemma WriteAsks(l: State, t: nat, body: seq<byte>)
    requires Inv(l) && Enabled(l, HandlerWrites(t, body))
    ensures Asking(Apply(l, HandlerWrites(t, body))) < Asking(l)
  {
    ServerIsHonest(l, t, body);
    S.HandlersEnd(l.s, S.Write(t));
    UnsentStays(l.c, C.DoAnswer(l.c, t, body), l.c.pending[t].call);
  }

  /** Without new calls the connection comes to rest: every step lowers the work up to the responses,
      or keeps it and lowers the client's work. */
  lemma ConnectionEnds(l: State, e: Event)
    requires Inv(l) && Enabled(l, e) && Own(e)
    requires e.FromClient? && e.ce.BodyArrives? ==> l.c.calls[e.ce.call].phase.want > 0
    ensures
      || Asking(Apply(l, e)) < Asking(l)
      || (Asking(Apply(l, e)) == Asking(l) && Channels.Work(Apply(l, e).c) < Channels.Work(l.c))
  {
    match e
    case FromClient(ce) =>
      Channels.OwnStepsEnd(l.c, ce);
      if ce.Send? { SendAsks(l, ce.call); }
      else if ce.HeaderArrives? { HeaderAsks(l); } else { RequesterAsks(l, ce); }
    case ServerReadsHeader => ReadHeaderAsks(l);
    case ServerReadsBody => ReadBodyAsks(l);
    case HandlerStep(se) => S.HandlersEnd(l.s, se);
    case HandlerWrites(t, body) => WriteAsks(l, t, body);
  }

  // ------------------------------------------------------------------ what it looks like at rest

  ghost predicate AtRest(l: State) {
    forall e :: Own(e) ==> !Enabled(l, e)
  }

  lemma ClientRests(l: State)
    requires Inv(l) && !l.s.stopped && AtRest(l)
    ensures l.c.input == [] && l.c.lock.None?
    ensures forall k | k in l.c.calls :: l.c.calls[k].answer.Some? ==> l.c.calls[k].phase == C.Finished
  {
    forall ce | Channels.Own(ce) ensures !C.Enabled(l.c, ce) {
      assert Own(FromClient(ce)) && !Enabled(l, FromClient(ce));
    }
    Channels.NothingLost(l.c);
  }

  /** No request is on the wire or half read. */
  lemma ListenerRests(l: State)
    requires Inv(l) && !l.s.stopped && AtRest(l)
    ensures l.s.listen.AtHeader? && l.sent == [] && l.c.output == []
  {
    Outstanding(l);
    ListenerIdle(l);
    ConcatSize(l.sent);
  }

  lemma ListenerIdle(l: State)
    requires !l.s.stopped && !l.c.failed && AtRest(l)
    requires l.s.listen.AtBody? ==> l.s.listen.tag in l.s.pending && |l.c.output| >= l.s.listen.want
    ensures l.s.listen.AtHeader? && |l.c.output| < REQUEST_HEADER_SIZE
  {
    assert !Enabled(l, ServerReadsHeader) && !Enabled(l, ServerReadsBody);
  }

  lemma Outstanding(l: State)
    requires Inv(l) && !l.s.stopped
    ensures l.s.listen.AtBody? ==> l.s.listen.tag in l.s.pending && |l.c.output| >= l.s.listen.want
    ensures l.s.listen.AtHeader? ==> l.c.output == Concat(l.sent)
    ensures !l.c.failed
  {
    assert l.s.listen.AtBody? ==> S.At(l.s, l.s.listen.tag, S.Receiving);
  }

  lemma ConcatSize(frames: seq<Frame>)
    ensures if frames == [] then Concat(frames) == [] else |Concat(frames)| >= REQUEST_HEADER_SIZE
  {
  }

  lemma HandlersRest(l: State, t: nat)
    requires Healthy(l) && !l.s.stopped && AtRest(l)
    ensures !AtServer(l.s, t)
  {
    ListenerRests(l);
    if AtServer(l.s, t) {
      assert S.Listed(l.s, t);
      HandlerSteps(l);
      S.NothingToDo(l.s, t);
      assert !S.Holds(l.s, t);
      NobodyWaits(l);
    }
  }

  lemma CanWrite(l: State, t: nat)
    requires Inv(l) && !l.s.stopped && S.At(l.s, t, S.Granted)
    ensures Enabled(l, HandlerWrites(t, []))
  {
    assert Places(l, t) == Bit(Written(l.c, t));
    TagBound(l.c, t);
  }

  lemma TagBound(c: C.State, t: nat)
    requires C.TagTable(c) && t in c.pending
    ensures t < U16
  {
  }

  lemma HandlerSteps(l: State)
    requires Inv(l) && !l.s.stopped && AtRest(l)
    ensures forall se :: S.HandlerStep(se) ==> !S.Enabled(l.s, se)
  {
    forall se | S.HandlerStep(se) ensures !S.Enabled(l.s, se) {
      if se.Write? {
        assert !Enabled(l, HandlerWrites(se.tag, []));
        if S.Enabled(l.s, se) { CanWrite(l, se.tag); }
      } else {
        assert !Enabled(l, HandlerStep(se));
      }
    }
  }

  lemma NobodyWaits(l: State)
    requires Healthy(l) && !l.s.stopped && AtRest(l)
    ensures l.s.waiters == []
  {
    HandlerSteps(l);
    if l.s.writeLock {
      var t :| S.Holds(l.s, t);
      S.NothingToDo(l.s, t);
      assert false;
    }
  }

  /** Every Ping returns: in every reachable state in which nothing but a new call can happen, and in
      which no tag has collided, both streams are empty and each call is finished, except those whose
      handler has returned without a response; none of these is a Ping. */
  lemma EveryPingReturns(es: seq<Event>)
    requires Runs(INITIAL, es) && !End(INITIAL, es).s.stopped && AtRest(End(INITIAL, es))
    ensures var l := End(INITIAL, es);
            && l.c.input == [] && l.c.output == []
            && forall k | k in l.c.calls :: var call := l.c.calls[k];
                 || call.phase == C.Finished
                 || (call.phase == C.Waiting && call.command != S.PING && call.tag in l.silent)
  {
    InitialInv();
    RunHealthy(INITIAL, es);
    var l := End(INITIAL, es);
    ClientRests(l);
    ListenerRests(l);
    forall k | k in l.c.calls && l.c.calls[k].phase != C.Finished
      ensures var call := l.c.calls[k];
              call.phase == C.Waiting && call.command != S.PING && call.tag in l.silent
    {
      Unanswered(l, k);
    }
  }

  /** At rest an unfinished call waits and is nowhere but among the silent. */
  lemma Unanswered(l: State, k: nat)
    requires Healthy(l) && !l.s.stopped && AtRest(l)
    requires k in l.c.calls && l.c.calls[k].phase != C.Finished
    ensures var call := l.c.calls[k];
            call.phase == C.Waiting && call.command != S.PING && call.tag in l.silent
  {
    var t := l.c.calls[k].tag;
    ClientRests(l);
    ListenerRests(l);
    HandlersRest(l, t);
    assert C.CallData(l.c, k);
    NoAnswers(l);
    assert Places(l, t) == Bit(Written(l.c, t));
  }

  lemma OldestAnswer(c: C.State)
    requires C.Queue(c) && c.queue != []
    ensures C.InPhase(c, c.queue[0].call, C.Waiting) && c.calls[c.queue[0].call].answer.Some?
  {
  }

  lemma NoAnswers(l: State)
    requires Inv(l) && !l.s.stopped && AtRest(l)
    ensures l.c.queue == []
  {
    ClientRests(l);
    if l.c.queue != [] { OldestAnswer(l.c); }
  }
}
