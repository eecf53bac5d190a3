/** The server side of a connection, src/proto/ServerHandler.cpp with src/proto/shadow/PingHandler.cpp,
    as a step machine: request framing, reaping of finished handlers, and the write lock that is
    handed directly to the waiter queued last. A handler is named by its tag, the key of its entry in
    `pendingResponses`. */
module Server {
  import opened Util
  import opened Wire

  const PING: nat := 1
  const GET_NODE: nat := 2
  const COMMAND_COUNT: nat := 3
  const MAX_REQUEST_LENGTH: nat := 1024 * 1024

  datatype Phase =
    | Receiving   // header accepted, request body still being read by `listen`
    | Ready       // handler coroutine created and scheduled
    | Queued      // in `writeLockWaiters`
    | Granted     // owns the write lock, response not written
    | Written     // response written, write lock not yet released
    | Returned    // handler without a response has returned
    | Released    // past the release of lines 71-78
    | Recorded    // in `finishedHandlers`

  datatype Handler = Handler(command: nat, body: seq<byte>, phase: Phase, writes: nat)

  /** Where `listen` is: waiting for a header, or for the body of a request. */
  datatype Listen = AtHeader | AtBody(tag: nat, want: nat)

  datatype State = State(pending: map<nat, Handler>, finished: seq<nat>,
                         writeLock: bool, waiters: seq<nat>, listen: Listen, stopped: bool)

  const INITIAL := State(map[], [], false, [], AtHeader, false)

  datatype Event =
    | Header(header: RequestHeader)
    | Body(bytes: seq<byte>)
    | Start(tag: nat)
    | Write(tag: nat)
    | Finish(tag: nat)
    | Record(tag: nat)

  predicate At(s: State, t: nat, p: Phase) {
    t in s.pending && s.pending[t].phase == p
  }

  predicate Enabled(s: State, e: Event) {
    !s.stopped &&
    match e
    case Header(h) => s.listen == AtHeader
    case Body(bytes) => s.listen.AtBody? && |bytes| == s.listen.want && s.listen.tag in s.pending
    case Start(t) => At(s, t, Ready)
    case Write(t) => At(s, t, Granted)
    case Finish(t) => At(s, t, Written) || At(s, t, Returned)
    case Record(t) => At(s, t, Released)
  }

  function Elements(q: seq<nat>): set<nat> {
    set t | t in q
  }

  /** Lines 27-32, with the list emptied after its entries are resumed and erased. */
  function Reap(s: State): State {
    s.(pending := s.pending - Elements(s.finished), finished := [])
  }

  /** The condition of lines 33-35 on a reaped state. */
  predicate Refused(s: State, h: RequestHeader) {
    h.requestLength > MAX_REQUEST_LENGTH || h.command >= COMMAND_COUNT || h.command == 0
    || h.tag in s.pending
  }

  function SetPhase(s: State, t: nat, p: Phase): State
    requires t in s.pending
  {
    s.(pending := s.pending[t := s.pending[t].(phase := p)])
  }

  /** A refused header stops the connection, as the comment of line 37 intends. */
  function DoHeader(s: State, h: RequestHeader): State {
    var r := Reap(s);
    if Refused(r, h) then r.(stopped := true)
    else r.(pending := r.pending[h.tag := Handler(h.command, [], Receiving, 0)],
            listen := AtBody(h.tag, h.requestLength))
  }

  function DoBody(s: State, bytes: seq<byte>): State
    requires s.listen.AtBody? && s.listen.tag in s.pending
  {
    var t := s.listen.tag;
    s.(pending := s.pending[t := s.pending[t].(body := bytes, phase := Ready)], listen := AtHeader)
  }

  /** The handler runs until its first suspension: Ping asks for the write lock, GetNode returns. */
  function DoStart(s: State, t: nat): State
    requires t in s.pending
  {
    if s.pending[t].command != PING then SetPhase(s, t, Returned)
    else if !s.writeLock then SetPhase(s, t, Granted).(writeLock := true)
    else SetPhase(s, t, Queued).(waiters := s.waiters + [t])
  }

  function DoWrite(s: State, t: nat): State
    requires t in s.pending
  {
    s.(pending := s.pending[t := s.pending[t].(phase := Written, writes := s.pending[t].writes + 1)])
  }

  /** Lines 71-78: every handler does this, whether it acquired the lock or not. */
  function DoFinish(s: State, t: nat): State
    requires t in s.pending
  {
    var r := SetPhase(s, t, Released);
    if s.waiters == [] then r.(writeLock := false) else
    var w := s.waiters[|s.waiters| - 1];
    var r' := r.(waiters := s.waiters[..|s.waiters| - 1]);
    if w in r'.pending then SetPhase(r', w, Granted) else r'
  }

  function DoRecord(s: State, t: nat): State
    requires t in s.pending
  {
    SetPhase(s, t, Recorded).(finished := s.finished + [t])
  }

  function Apply(s: State, e: Event): State
    requires Enabled(s, e)
  {
    match e
    case Header(h) => DoHeader(s, h)
    case Body(bytes) => DoBody(s, bytes)
    case Start(t) => DoStart(s, t)
    case Write(t) => DoWrite(s, t)
    case Finish(t) => DoFinish(s, t)
    case Record(t) => DoRecord(s, t)
  }

  // ------------------------------------------------------------------ what every run keeps

  ghost predicate Distinct(q: seq<nat>) {
    forall i, j | 0 <= i < j < |q| :: q[i] != q[j]
  }

  /** How often a handler has written by each phase. */
  predicate WriteCount(h: Handler) {
    match h.phase
    case Queued => h.command == PING && h.writes == 0
    case Granted => h.command == PING && h.writes == 0
    case Written => h.command == PING && h.writes == 1
    case Returned => h.command != PING && h.writes == 0
    case Released => h.writes == if h.command == PING then 1 else 0
    case Recorded => h.writes == if h.command == PING then 1 else 0
    case _ => h.writes == 0
  }

  /** Lists and phases agree, whatever the mix of handlers. */
  ghost predicate Basic(s: State) {
    && (forall t | t in s.waiters :: At(s, t, Queued)) && Distinct(s.waiters)
    && (forall t | t in s.finished :: At(s, t, Recorded)) && Distinct(s.finished)
    && (s.listen.AtBody? ==> At(s, s.listen.tag, Receiving))
    && (forall t | t in s.pending :: Listed(s, t) && WriteCount(s.pending[t]))
  }

  /** The list a handler must be in, by its phase. */
  ghost predicate Listed(s: State, t: nat)
    requires t in s.pending
  {
    match s.pending[t].phase
    case Queued => t in s.waiters
    case Recorded => t in s.finished
    case Receiving => s.listen.AtBody? && s.listen.tag == t
    case _ => true
  }

  predicate Holds(s: State, t: nat) {
    At(s, t, Granted) || At(s, t, Written)
  }

  /** Mutual exclusion: one holder at most, the flag says whether there is one, and nobody waits
      for a free lock. */
  ghost predicate Exclusive(s: State) {
    && (forall t, u :: Holds(s, t) && Holds(s, u) ==> t == u)
    && (s.writeLock <==> exists t :: Holds(s, t))
    && (s.waiters != [] ==> s.writeLock)
  }

  lemma LastWaiter(s: State)
    requires Basic(s) && s.waiters != []
    ensures var w, rest := s.waiters[|s.waiters| - 1], s.waiters[..|s.waiters| - 1];
            && At(s, w, Queued) && Distinct(rest)
            && forall t :: t in rest <==> t in s.waiters && t != w
  {
    assert s.waiters == s.waiters[..|s.waiters| - 1] + [s.waiters[|s.waiters| - 1]];
  }

  lemma HeaderBasic(s: State, h: RequestHeader)
    requires Basic(s) && Enabled(s, Header(h))
    ensures Basic(DoHeader(s, h))
  {
  }

  lemma StartBasic(s: State, t: nat)
    requires Basic(s) && Enabled(s, Start(t))
    ensures Basic(DoStart(s, t))
  {
    var s' := DoStart(s, t);
    assert t !in s.waiters;
    assert s'.waiters != s.waiters ==> s'.waiters[|s.waiters|] == t;
  }

  lemma FinishBasic(s: State, t: nat)
    requires Basic(s) && Enabled(s, Finish(t))
    ensures Basic(DoFinish(s, t))
  {
    if s.waiters != [] { LastWaiter(s); }
  }

  lemma RecordBasic(s: State, t: nat)
    requires Basic(s) && Enabled(s, Record(t))
    ensures Basic(DoRecord(s, t))
  {
    var s' := DoRecord(s, t);
    assert t !in s.finished;
    assert s'.finished[|s.finished|] == t;
  }

  lemma StepBasic(s: State, e: Event)
    requires Basic(s) && Enabled(s, e)
    ensures Basic(Apply(s, e))
  {
    match e
    case Header(h) => HeaderBasic(s, h);
    case Body(bytes) =>
    case Start(t) => StartBasic(s, t);
    case Write(t) =>
    case Finish(t) => FinishBasic(s, t);
    case Record(t) => RecordBasic(s, t);
  }

  // ------------------------------------------------------------------ requests as bytes

  /** The handler of an accepted header once its body is in and it has run to its first suspension. */
  function Started(s: State, h: RequestHeader, body: seq<byte>): State
    requires Enabled(s, Header(h)) && !Refused(Reap(s), h)
  {
    DoStart(DoBody(DoHeader(s, h), body), h.tag)
  }

  /** Which requests are accepted and which are answered, by the bytes of the header (`Wire.RequestLayout`
      says where they are): at most 2^20 bytes of body, byte 4 equal to 1 or 2, a tag that no unreaped
      handler has. With 1 the handler goes for the write lock, to write a response; with 2 it returns
      without one. */
  lemma ByTheBytes(s: State, bs: seq<byte>, body: seq<byte>)
    requires Basic(s) && |bs| == REQUEST_HEADER_SIZE && Enabled(s, Header(DecodeRequest(bs)))
    ensures EncodeRequest(DecodeRequest(bs)) == bs && DecodeRequest(bs).Fits()
    ensures var h := DecodeRequest(bs);
            && (Refused(Reap(s), h) <==>
                  || h.requestLength > 1_048_576
                  || (bs[4] != 1 && bs[4] != 2)
                  || (h.tag in s.pending && s.pending[h.tag].phase != Recorded))
            && (!Refused(Reap(s), h) ==>
                  && h.tag in Started(s, h, body).pending && Started(s, h, body).pending[h.tag].body == body
                  && (bs[4] == 1 ==> At(Started(s, h, body), h.tag, if s.writeLock then Queued else Granted))
                  && (bs[4] == 2 ==> At(Started(s, h, body), h.tag, Returned)))
  {
    RequestInverse(bs);
    var t := DecodeRequest(bs).tag;
    if t in s.pending { assert Listed(s, t); }
    if t in s.finished { assert At(s, t, Recorded); }
  }

  /** And in every run only command 1 writes. */
  lemma OnlyPingsWrite(es: seq<Event>, t: nat)
    requires Runs(INITIAL, es) && Enabled(End(INITIAL, es), Write(t))
    ensures End(INITIAL, es).pending[t].command == 1
  {
    RunBasic(INITIAL, es);
    assert WriteCount(End(INITIAL, es).pending[t]);
  }

  lemma {:induction false} RunBasic(s: State, es: seq<Event>)
    requires Basic(s) && Runs(s, es)
    ensures Basic(End(s, es))
    decreases |es|
  {
    if es != [] {
      StepBasic(s, es[0]);
      RunBasic(Apply(s, es[0]), es[1..]);
    }
  }

  // ------------------------------------------------------------------ mutual exclusion

  /** A release by a handler that did not acquire keeps exclusion only if the lock is free. */
  predicate SafeRelease(s: State, e: Event) {
    e.Finish? ==> At(s, e.tag, Written) || !s.writeLock
  }

  lemma FinishExclusive(s: State, t: nat)
    requires Basic(s) && Exclusive(s) && At(s, t, Written)
    ensures Exclusive(DoFinish(s, t))
  {
    var s' := DoFinish(s, t);
    assert Holds(s, t);
    forall u | Holds(s, u) ensures u == t {}
    if s.waiters != [] {
      LastWaiter(s);
      var w := s.waiters[|s.waiters| - 1];
      assert Holds(s', w);
      forall u | Holds(s', u) ensures u == w { assert u != w ==> Holds(s, u); }
    } else {
      forall u ensures !Holds(s', u) { assert Holds(s', u) ==> Holds(s, u); }
    }
  }

  lemma StepExclusive(s: State, e: Event)
    requires Basic(s) && Exclusive(s) && Enabled(s, e) && SafeRelease(s, e)
    ensures Exclusive(Apply(s, e))
  {
    var s' := Apply(s, e);
    if e.Finish? && At(s, e.tag, Written) {
      FinishExclusive(s, e.tag);
    } else if s.writeLock {
      var u :| Holds(s, u);
      assert Holds(s', u);
      forall v | Holds(s', v) ensures v == u { assert Holds(s, v); }
    } else {
      assert forall v :: !Holds(s, v);
      forall v | Holds(s', v) ensures e.Start? && v == e.tag { assert !Holds(s, v); }
      if s'.writeLock { assert Holds(s', e.tag); }
    }
  }

  /** The exact condition: a step keeps exclusion if and only if its release, if any, is made by
      the holder or finds the lock free. */
  lemma ExclusionExactly(s: State, e: Event)
    requires Basic(s) && Exclusive(s) && Enabled(s, e)
    ensures Exclusive(Apply(s, e)) <==> SafeRelease(s, e)
  {
    if SafeRelease(s, e) {
      StepExclusive(s, e);
    } else {
      var s' := Apply(s, e);
      var u :| Holds(s, u);
      assert Holds(s', u);
      if s.waiters != [] {
        LastWaiter(s);
        assert Holds(s', s.waiters[|s.waiters| - 1]);
      }
    }
  }

  ghost predicate Runs(s: State, es: seq<Event>)
    decreases |es|
  {
    es == [] || (Enabled(s, es[0]) && Runs(Apply(s, es[0]), es[1..]))
  }

  ghost function End(s: State, es: seq<Event>): State
    requires Runs(s, es)
    decreases |es|
  {
    if es == [] then s else End(Apply(s, es[0]), es[1..])
  }

  /** Every accepted request is a Ping, so every handler acquires the lock. */
  ghost predicate AllAcquire(s: State) {
    forall t | t in s.pending :: s.pending[t].command == PING
  }

  lemma {:induction false} RunExclusive(s: State, es: seq<Event>)
    requires Basic(s) && Exclusive(s) && AllAcquire(s) && Runs(s, es)
    requires forall i | 0 <= i < |es| && es[i].Header? :: es[i].header.command == PING
    ensures Basic(End(s, es)) && Exclusive(End(s, es)) && AllAcquire(End(s, es))
    decreases |es|
  {
    if es != [] {
      StepBasic(s, es[0]);
      if es[0].Finish? { assert WriteCount(s.pending[es[0].tag]); }
      StepExclusive(s, es[0]);
      RunExclusive(Apply(s, es[0]), es[1..]);
    }
  }

  /** Every state of a run is exclusive. */
  ghost predicate AlwaysExclusive(s: State, es: seq<Event>)
    requires Runs(s, es)
    decreases |es|
  {
    Exclusive(s) && (es == [] || AlwaysExclusive(Apply(s, es[0]), es[1..]))
  }

  /** Every release of a run is by the holder or finds the lock free. */
  ghost predicate AlwaysSafe(s: State, es: seq<Event>)
    requires Runs(s, es)
    decreases |es|
  {
    es == [] || (SafeRelease(s, es[0]) && AlwaysSafe(Apply(s, es[0]), es[1..]))
  }

  lemma {:induction false} FromExclusive(s: State, es: seq<Event>)
    requires Basic(s) && Exclusive(s) && Runs(s, es)
    ensures AlwaysExclusive(s, es) <==> AlwaysSafe(s, es)
    decreases |es|
  {
    if es != [] {
      StepBasic(s, es[0]);
      ExclusionExactly(s, es[0]);
      if SafeRelease(s, es[0]) {
        FromExclusive(Apply(s, es[0]), es[1..]);
      } else {
        assert !Exclusive(Apply(s, es[0]));
      }
    }
  }

  /** The exact condition over runs: the write lock excludes throughout if and only if every release
      is by the holder or finds the lock free. */
  lemma RunExclusiveExactly(es: seq<Event>)
    requires Runs(INITIAL, es)
    ensures AlwaysExclusive(INITIAL, es) <==> AlwaysSafe(INITIAL, es)
  {
    FromExclusive(INITIAL, es);
  }

  /** In every run whose requests are all Pings, the write lock excludes. */
  lemma PingsExclude(es: seq<Event>)
    requires Runs(INITIAL, es)
    requires forall i | 0 <= i < |es| && es[i].Header? :: es[i].header.command == PING
    ensures Basic(End(INITIAL, es)) && Exclusive(End(INITIAL, es))
  {
    RunExclusive(INITIAL, es);
  }

  ghost predicate Reaches(s: State, es: seq<Event>, s': State) {
    Runs(s, es) && End(s, es) == s'
  }

  lemma Then(s: State, e: Event, es: seq<Event>, s': State)
    requires Enabled(s, e) && Reaches(Apply(s, e), es, s')
    ensures Reaches(s, [e] + es, s')
  {
    assert ([e] + es)[1..] == es;
  }

  /** A request with an empty body on a fresh tag, up to its handler's first suspension. */
  lemma Arrive(s: State, command: nat, t: nat, es: seq<Event>, s': State)
    requires !s.stopped && s.listen == AtHeader && s.finished == [] && t !in s.pending
    requires 0 < command < COMMAND_COUNT
    requires Reaches(DoStart(s.(pending := s.pending[t := Handler(command, [], Ready, 0)]), t), es, s')
    ensures Reaches(s, [Header(RequestHeader(0, command, t))] + ([Body([])] + ([Start(t)] + es)), s')
  {
    var s1 := DoHeader(s, RequestHeader(0, command, t));
    assert s1 == s.(pending := s.pending[t := Handler(command, [], Receiving, 0)], listen := AtBody(t, 0));
    var s2 := DoBody(s1, []);
    assert s2 == s.(pending := s.pending[t := Handler(command, [], Ready, 0)]);
    Then(s2, Start(t), es, s');
    Then(s1, Body([]), [Start(t)] + es, s');
    Then(s, Header(RequestHeader(0, command, t)), [Body([])] + ([Start(t)] + es), s');
  }

  /** One GetNode among Pings breaks it: a run after which two handlers own the write lock. */
  lemma GetNodeBreaksExclusion() returns (es: seq<Event>)
    ensures Runs(INITIAL, es)
    ensures Holds(End(INITIAL, es), 0) && Holds(End(INITIAL, es), 2)
  {
    var p := Handler(PING, [], Granted, 0);
    var s1 := State(map[0 := p], [], true, [], AtHeader, false);
    var s2 := s1.(pending := map[0 := p, 1 := Handler(GET_NODE, [], Returned, 0)]);
    var s3 := s1.(pending := map[0 := p, 1 := Handler(GET_NODE, [], Released, 0)], writeLock := false);
    var s4 := s1.(pending := map[0 := p, 1 := Handler(GET_NODE, [], Released, 0), 2 := p]);
    assert DoStart(s3.(pending := s3.pending[2 := Handler(PING, [], Ready, 0)]), 2) == s4;
    Arrive(s3, PING, 2, [], s4);
    es := [Header(RequestHeader(0, PING, 2))] + ([Body([])] + ([Start(2)] + []));
    assert Apply(s2, Finish(1)) == s3;
    Then(s2, Finish(1), es, s4);
    es := [Finish(1)] + es;
    assert DoStart(s1.(pending := s1.pending[1 := Handler(GET_NODE, [], Ready, 0)]), 1) == s2;
    Arrive(s1, GET_NODE, 1, es, s4);
    es := [Header(RequestHeader(0, GET_NODE, 1))] + ([Body([])] + ([Start(1)] + es));
    assert DoStart(INITIAL.(pending := map[0 := Handler(PING, [], Ready, 0)]), 0) == s1;
    Arrive(INITIAL, PING, 0, es, s4);
    es := [Header(RequestHeader(0, PING, 0))] + ([Body([])] + ([Start(0)] + es));
  }

  /** The hand-off is last in, first out: a release right after a handler has queued up gives that
      handler the lock, and the ones that queued before stay in their order. */
  lemma LastComesFirst(s: State, t: nat, u: nat)
    requires Basic(s) && Enabled(s, Start(t)) && s.pending[t].command == PING && s.writeLock
    requires Enabled(s, Finish(u))
    ensures var s' := Apply(s, Start(t)); At(s', t, Queued) && Enabled(s', Finish(u))
    ensures var s' := Apply(Apply(s, Start(t)), Finish(u));
            At(s', t, Granted) && s'.waiters == s.waiters && s'.writeLock
  {
    assert (s.waiters + [t])[..|s.waiters|] == s.waiters;
  }

  // ------------------------------------------------------------------ everybody writes

  function Weight(h: Handler): nat {
    match h.phase
    case Receiving => 7
    case Ready => 6
    case Queued => 5
    case Granted => 4
    case Written => 3
    case Returned => 3
    case Released => 1
    case Recorded => 0
  }

  /** Steps the handlers can still take, no new request arriving. */
  ghost function Work(s: State): nat {
    SumMap(s.pending, Weight)
  }

  predicate HandlerStep(e: Event) {
    !e.Header? && !e.Body?
  }

  lemma OneMoves(s: State, s': State, t: nat)
    requires t in s.pending && t in s'.pending && s'.pending == s.pending[t := s'.pending[t]]
    requires Weight(s'.pending[t]) < Weight(s.pending[t])
    ensures Work(s') < Work(s)
  {
    SumMapUpdate(s.pending, t, s'.pending[t], Weight);
  }

  lemma HandOffEnds(s: State, t: nat)
    requires Basic(s) && Enabled(s, Finish(t)) && s.waiters != []
    ensures Work(DoFinish(s, t)) < Work(s)
  {
    LastWaiter(s);
    var r := SetPhase(s, t, Released);
    OneMoves(s, r, t);
    OneMoves(r, DoFinish(s, t), s.waiters[|s.waiters| - 1]);
  }

  lemma HandlersEnd(s: State, e: Event)
    requires Basic(s) && Enabled(s, e) && HandlerStep(e)
    ensures Work(Apply(s, e)) < Work(s)
  {
    if e.Finish? && s.waiters != [] {
      HandOffEnds(s, e.tag);
    } else {
      OneMoves(s, Apply(s, e), e.tag);
    }
  }

  /** What remains of exclusion in every run: a lock that is taken, or waited for, has a holder. */
  ghost predicate Attended(s: State) {
    (s.waiters != [] ==> s.writeLock) && (s.writeLock ==> exists t :: Holds(s, t))
  }

  lemma FinishAttended(s: State, t: nat)
    requires Basic(s) && Attended(s) && Enabled(s, Finish(t))
    ensures Attended(DoFinish(s, t))
  {
    if s.waiters != [] {
      LastWaiter(s);
      assert Holds(DoFinish(s, t), s.waiters[|s.waiters| - 1]);
    }
  }

  lemma StepAttended(s: State, e: Event)
    requires Basic(s) && Attended(s) && Enabled(s, e)
    ensures Attended(Apply(s, e))
  {
    var s' := Apply(s, e);
    if e.Finish? {
      FinishAttended(s, e.tag);
    } else if s.writeLock {
      var t :| Holds(s, t);
      assert Holds(s', t);
    } else if s'.writeLock {
      assert Holds(s', e.tag);
    }
  }

  lemma {:induction false} RunAttended(s: State, es: seq<Event>)
    requires Basic(s) && Attended(s) && Runs(s, es)
    ensures Basic(End(s, es)) && Attended(End(s, es))
    decreases |es|
  {
    if es != [] {
      StepBasic(s, es[0]);
      StepAttended(s, es[0]);
      RunAttended(Apply(s, es[0]), es[1..]);
    }
  }

  /** A handler that can take no step, and no handler that can. */
  lemma NothingToDo(s: State, t: nat)
    requires Basic(s) && !s.stopped && t in s.pending
    requires forall e :: HandlerStep(e) ==> !Enabled(s, e)
    ensures !Holds(s, t) && WriteCount(s.pending[t])
    ensures s.pending[t].phase.Receiving? || s.pending[t].phase.Queued? || s.pending[t].phase.Recorded?
  {
    assert !Enabled(s, Start(t)) && !Enabled(s, Write(t));
    assert !Enabled(s, Finish(t)) && !Enabled(s, Record(t));
  }

  predicate AcceptsPing(s: State, e: Event, t: nat) {
    e.Header? && e.header.tag == t && e.header.command == PING && !Refused(Reap(s), e.header)
  }

  /** The Pings with tag `t` that a run accepts. */
  ghost function Accepted(s: State, es: seq<Event>, t: nat): nat
    requires Runs(s, es)
    decreases |es|
  {
    if es == [] then 0 else
    (if AcceptsPing(s, es[0], t) then 1 else 0) + Accepted(Apply(s, es[0]), es[1..], t)
  }

  /** A Ping with tag `t` is in the table and has not written. */
  predicate Owes(s: State, t: nat) {
    t in s.pending && s.pending[t].command == PING
    && (s.pending[t].phase.Receiving? || s.pending[t].phase.Ready? || s.pending[t].phase.Queued?
        || s.pending[t].phase.Granted?)
  }

  lemma HeaderOwes(s: State, h: RequestHeader, t: nat)
    requires Basic(s) && Enabled(s, Header(h))
    ensures Bit(Owes(DoHeader(s, h), t)) == Bit(Owes(s, t)) + Bit(AcceptsPing(s, Header(h), t))
  {
    assert t in s.finished ==> At(s, t, Recorded);
    assert t in Reap(s).pending ==> Reap(s).pending[t] == s.pending[t];
  }

  lemma FinishOwes(s: State, u: nat, t: nat)
    requires Basic(s) && Enabled(s, Finish(u))
    ensures Owes(DoFinish(s, u), t) == Owes(s, t)
  {
    if s.waiters != [] { LastWaiter(s); }
  }

  /** A Ping is owed from its acceptance to its writing. */
  lemma StepOwes(s: State, e: Event, t: nat)
    requires Basic(s) && Enabled(s, e)
    ensures Bit(Owes(Apply(s, e), t)) + Bit(e == Write(t)) == Bit(Owes(s, t)) + Bit(AcceptsPing(s, e, t))
  {
    match e
    case Header(h) => HeaderOwes(s, h, t);
    case Finish(u) => FinishOwes(s, u, t);
    case Write(u) => assert Listed(s, u) && WriteCount(s.pending[u]);
    case _ =>
  }

  lemma {:induction false} RunOwes(s: State, es: seq<Event>, t: nat)
    requires Basic(s) && Runs(s, es)
    ensures Bit(Owes(End(s, es), t)) + Occ(es, Write(t)) == Bit(Owes(s, t)) + Accepted(s, es, t)
    decreases |es|
  {
    if es != [] {
      StepBasic(s, es[0]);
      StepOwes(s, es[0], t);
      RunOwes(Apply(s, es[0]), es[1..], t);
    }
  }

  /** Although the lock goes to the last waiter first, and whatever handlers without a response do to
      it, nobody is left behind: in every reachable state where no handler can take a step, each one
      in the table has run to its end and the lock is free; and over the whole run, reaped handlers
      included, the writes on a tag are as many as the Pings accepted with it, less the one whose body
      `listen` is still reading. */
  lemma EverybodyWrites(es: seq<Event>)
    requires Runs(INITIAL, es) && !End(INITIAL, es).stopped
    requires forall e :: HandlerStep(e) ==> !Enabled(End(INITIAL, es), e)
    ensures var s := End(INITIAL, es);
            && s.waiters == [] && !s.writeLock
            && forall t | t in s.pending && s.pending[t].phase != Receiving ::
                 && s.pending[t].phase == Recorded
                 && s.pending[t].writes == if s.pending[t].command == PING then 1 else 0
    ensures forall t ::
              Occ(es, Write(t)) + Bit(At(End(INITIAL, es), t, Receiving) && Owes(End(INITIAL, es), t))
              == Accepted(INITIAL, es, t)
  {
    RunAttended(INITIAL, es);
    var s := End(INITIAL, es);
    forall t | t in s.pending
      ensures !Holds(s, t) && WriteCount(s.pending[t])
      ensures s.pending[t].phase.Receiving? || s.pending[t].phase.Queued? || s.pending[t].phase.Recorded?
    {
      NothingToDo(s, t);
    }
    assert !s.writeLock && s.waiters == [];
    forall t | t in s.pending ensures s.pending[t].phase != Queued {
      assert s.pending[t].phase == Queued ==> t in s.waiters;
    }
    forall t ensures Occ(es, Write(t)) + Bit(At(s, t, Receiving) && Owes(s, t)) == Accepted(INITIAL, es, t) {
      RunOwes(INITIAL, es, t);
    }
  }
}
