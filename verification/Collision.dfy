/** The window of tag reuse is real: a run in which the client, entitled to reuse its tag, meets the
    server's entry of the request before. */
module Collision {
  import opened Util
  import opened Wire
  import opened Framing
  import opened Link
  import C = Client
  import S = Server

  ghost predicate Reaches(l: State, es: seq<Event>, l': State) {
    Runs(l, es) && End(l, es) == l'
  }

  lemma Then(l: State, e: Event, es: seq<Event>, l': State)
    requires Enabled(l, e) && Reaches(Apply(l, e), es, l')
    ensures Reaches(l, [e] + es, l')
  {
    assert ([e] + es)[1..] == es;
  }

  const PING_FRAME: Frame := Frame(S.PING, 0, [])

  /** A connection whose client sends the numbered calls on tag 0, the earlier ones finished. */
  function Idle(calls: map<nat, C.Call>, s: S.State): State {
    State(C.INITIAL.(calls := calls), s, [], [], {})
  }

  function Ping(phase: C.Phase): C.Call {
    C.Call(0, S.PING, [], phase, None, [], None)
  }

  function Asked(calls: map<nat, C.Call>, s: S.State, c: nat): State {
    State(C.INITIAL.(calls := calls[c := Ping(C.Waiting)], pending := map[0 := C.Request(c, None)],
                     reader := C.Armed, output := EncodeFrame(PING_FRAME)),
          s, [PING_FRAME], [], {})
  }

  /** From an idle client, two steps put a Ping with tag 0 on the wire. */
  lemma Ask(calls: map<nat, C.Call>, s: S.State, c: nat, es: seq<Event>, l': State)
    requires c !in calls && !s.stopped && Reaches(Asked(calls, s, c), es, l')
    ensures Reaches(Idle(calls, s), [FromClient(C.Reserve(c, 0, S.PING, []))] + ([FromClient(C.Send(c))] + es), l')
  {
    var l0 := Idle(calls, s);
    var l1 := l0.(c := C.DoReserve(l0.c, c, 0, S.PING, []));
    assert Apply(l0, FromClient(C.Reserve(c, 0, S.PING, []))) == l1;
    assert l1.c.pending == map[0 := C.Request(c, None)];
    var l2 := Apply(l1, FromClient(C.Send(c)));
    assert l2.c.calls == calls[c := Ping(C.Waiting)];
    assert l2 == Asked(calls, s, c);
    Then(l1, FromClient(C.Send(c)), es, l');
    Then(l0, FromClient(C.Reserve(c, 0, S.PING, [])), [FromClient(C.Send(c))] + es, l');
  }

  const HANDLED: S.State :=
    S.State(map[0 := S.Handler(S.PING, [], S.Written, 1)], [], true, [], S.AtHeader, false)

  const SERVED: C.Call :=
    C.Call(0, S.PING, [], C.Finished, Some(ResponseHeader(0, 0)), [], Some([]))

  function Started(): State {
    var l := Asked(map[], S.INITIAL, 0);
    l.(c := l.c.(output := []), sent := [],
       s := S.INITIAL.(pending := map[0 := S.Handler(S.PING, [], S.Ready, 0)]))
  }

  /** The server reads the Ping. */
  lemma Receive(es: seq<Event>, l': State)
    requires Reaches(Started(), es, l')
    ensures Reaches(Asked(map[], S.INITIAL, 0), [ServerReadsHeader] + ([ServerReadsBody] + es), l')
  {
    var l0 := Asked(map[], S.INITIAL, 0);
    FirstOfConcat(PING_FRAME, []);
    assert EncodeFrame(PING_FRAME) + [] == EncodeFrame(PING_FRAME);
    var l1 := Apply(l0, ServerReadsHeader);
    assert l1.s == S.INITIAL.(pending := map[0 := S.Handler(S.PING, [], S.Receiving, 0)], listen := S.AtBody(0, 0));
    assert l1.c.output == [];
    assert Apply(l1, ServerReadsBody) == Started();
    Then(l1, ServerReadsBody, es, l');
    Then(l0, ServerReadsHeader, [ServerReadsBody] + es, l');
  }

  /** Its handler starts, gets the write lock and writes. */
  lemma Handle(es: seq<Event>, l': State)
    requires Reaches(Answered(), es, l')
    ensures Reaches(Started(), [HandlerStep(S.Start(0))] + ([HandlerWrites(0, [])] + es), l')
  {
    var l2 := Started();
    var l3 := Apply(l2, HandlerStep(S.Start(0)));
    assert l3.s == S.INITIAL.(pending := map[0 := S.Handler(S.PING, [], S.Granted, 0)], writeLock := true);
    assert Apply(l3, HandlerWrites(0, [])) == Answered();
    Then(l3, HandlerWrites(0, []), es, l');
    Then(l2, HandlerStep(S.Start(0)), [HandlerWrites(0, [])] + es, l');
  }

  function Answered(): State {
    var c := Asked(map[], S.INITIAL, 0).c;
    State(c.(output := [], calls := map[0 := Ping(C.Waiting).(answer := Some([]))],
             queue := [C.Answered(0, 0, [])],
             input := [] + EncodeResponse(ResponseHeader(0, 0)) + []),
          HANDLED, [], [], {})
  }

  function Delivered(): State {
    State(C.INITIAL.(calls := map[0 := Ping(C.Scheduled).(answer := Some([]))], reader := C.Parked,
                     pending := map[0 := C.Request(0, Some(ResponseHeader(0, 0)))]),
          HANDLED, [], [], {})
  }

  /** The client takes the header of the answer. */
  lemma Deliver(es: seq<Event>, l': State)
    requires Reaches(Delivered(), es, l')
    ensures Reaches(Answered(), [FromClient(C.HeaderArrives)] + es, l')
  {
    var l0 := Answered();
    ResponseRoundTrip(ResponseHeader(0, 0));
    assert l0.c.input == EncodeResponse(ResponseHeader(0, 0));
    assert l0.c.input[..RESPONSE_HEADER_SIZE] == l0.c.input;
    var l1 := Apply(l0, FromClient(C.HeaderArrives));
    assert l1.c.pending == map[0 := C.Request(0, Some(ResponseHeader(0, 0)))];
    assert l1.c.input == [];
    assert l1.c.queue == [];
    assert l1 == Delivered();
    Then(l0, FromClient(C.HeaderArrives), es, l');
  }

  /** The requester resumes and releases the tag. */
  lemma Serve(es: seq<Event>, l': State)
    requires Reaches(Idle(map[0 := SERVED], HANDLED), es, l')
    ensures Reaches(Delivered(), [FromClient(C.Resume(0))] + es, l')
  {
    var l2 := Apply(Delivered(), FromClient(C.Resume(0)));
    assert l2.c.calls == map[0 := SERVED];
    assert l2.c.pending == map[];
    assert l2 == Idle(map[0 := SERVED], HANDLED);
    Then(Delivered(), FromClient(C.Resume(0)), es, l');
  }

  /** A concrete run with two Pings one after the other that ends in a refused header. */
  lemma CollisionHappens() returns (es: seq<Event>)
    ensures Runs(INITIAL, es) && End(INITIAL, es).s.stopped
  {
    var l := Asked(map[0 := SERVED], HANDLED, 1);
    FirstOfConcat(PING_FRAME, []);
    assert EncodeFrame(PING_FRAME) + [] == EncodeFrame(PING_FRAME);
    var l' := Apply(l, ServerReadsHeader);
    assert l'.s.stopped;
    Then(l, ServerReadsHeader, [], l');
    es := [ServerReadsHeader] + [];
    Ask(map[0 := SERVED], HANDLED, 1, es, l');
    es := [FromClient(C.Reserve(1, 0, S.PING, []))] + ([FromClient(C.Send(1))] + es);
    Serve(es, l');
    es := [FromClient(C.Resume(0))] + es;
    Deliver(es, l');
    es := [FromClient(C.HeaderArrives)] + es;
    Handle(es, l');
    es := [HandlerStep(S.Start(0))] + ([HandlerWrites(0, [])] + es);
    Receive(es, l');
    es := [ServerReadsHeader] + ([ServerReadsBody] + es);
    Ask(map[], S.INITIAL, 0, es, l');
    es := [FromClient(C.Reserve(0, 0, S.PING, []))] + ([FromClient(C.Send(0))] + es);
    assert Idle(map[], S.INITIAL) == INITIAL;
  }
}
